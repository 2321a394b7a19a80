# openclaw-rag-skill, modelled in Dafny

This project models the deterministic core of the OpenClaw RAG skill. The skill builds a local retrieval knowledge base: it cuts files, skill guides and session transcripts into chunks with metadata, stores them in a vector collection, and formats search hits for people and for the assistant. The models cover the text and list processing around the store, and the properties the code promises are proved about them.

- **`pystr.dfy` (`PyStr`).** The Python string operations the code relies on, written out over `seq<char>`:
  - `strip`/`lstrip`/`rstrip`, with an explicit whitespace predicate;
  - `lstrip('#')`, `split`, `split(maxsplit=1)`, `split('\n', 1)`;
  - `str.join`, `str.replace`, `find`;
  - slicing `s[:n]`, the `text[:n] + "..."` truncation;
  - `lower`/`upper` on ASCII, and integer rendering;
  - the generic `map` over a list used by the formatting loops.
- **`pydata.dfy` (`PyData`).** Shared values:
  - `Option` and `Result`, where a Python exception that escapes becomes `Err`;
  - JSON values, with objects as ordered key/value lists;
  - metadata maps whose values are strings or integers, and the `str()` of a value;
  - the search hit, the search outcome (`Found(hits)` or `Failed(message)`) and the batch document.
- **`ingest_docs.dfy` (`IngestDocs`).** Parts of `ingest_docs.py`:
  - `chunk_text`, the greedy paragraph packer;
  - the binary-suffix and size filter `is_text_file`;
  - the per-chunk records of `ingest_workspace` and `ingest_skills`, and the skill name of a guide.
- **`ingest_sessions.dfy` (`IngestSessions`).** Parts of `ingest_sessions.py`:
  - `parse_jsonl` over the lines of a transcript;
  - `extract_session_key` and `extract_session_metadata`;
  - `format_content`;
  - `chunk_messages`, which cuts messages into overlapping windows.
- **`rag_system.dfy` (`RagStore`).** The `RAGSystem` facade as a class whose collection is its ordered list of entries:
  - document-id keys and their digest;
  - batched adds;
  - delete by id and by a metadata filter;
  - `get_stats`.
- **`rag_agent.dfy` (`RagAgent`).** Parts of `rag_agent.py`:
  - `extract_user_query` and `search_relevant_context`;
  - the template of `enhance_message_with_rag`;
  - the history loop of `get_response_with_rag`.
- **`rag_query.dfy` (`RagQuery`).** `format_result`, and the command parsing of `interactive_search`: blank lines, quit words and the `type:` filter.
- **`rag_query_wrapper.dfy` (`RagQueryWrapper`).** `search_knowledge` and `format_for_ai`.
- **`rag_query_quick.dfy` (`RagQueryQuick`).** `search_context`.
- **`moltbook_post.dfy` (`MoltbookPost`).** Parts of `scripts/moltbook_post.py`:
  - the title and body that `post_from_file` takes from a markdown file;
  - the request `create_post` builds;
  - what `create_post` makes of the reply.

**How the code's loops and effects are modelled.**

- **Loops.** Each loop of the code is a `method` with loop invariants, proved equal to a specification function. Examples are `chunk_text`, `parse_jsonl`, `chunk_messages`, the formatting loops, the history loop and the title loop. The properties are lemmas about those functions.
- **The store.** `RAGSystem` is a class whose `entries` field its methods update.
- **External calls.** The foreign or effectful parts are parameters:
  - the vector search is the outcome it gives;
  - `json.loads` is a function `decode` to `Option<Json>`;
  - md5 is a function `digest` of which only determinism is used;
  - the clock is a string `now`;
  - a file is its text, or its lines;
  - the HTTP call is the `Reply` it gives.

**Behaviour of the code worth noting.**

- **Chunks can be empty.** `chunk_text` emits `""` for a buffer that holds only empty paragraphs, whereas `chunk_messages` drops blank windows (ingest_sessions.py:164). `IngestDocs.ChunksTrailingSeparator` shows `"a\n\n"` at a budget of 2 giving `["a", ""]`. A whole file within the budget is stored as it is, even when it is blank.
- **Some bad lines end the reading.** Transcript lines that are not JSON are skipped. A line that decodes to something other than an object, or a `message` event whose `message` is not an object, raises `AttributeError`. The outer `try` catches it, which ends the reading of the rest of the file (`IngestSessions.HaltingLine`).
- **Only the text's prefix reaches the id.** The comment at rag_system.py:86 speaks of more context for uniqueness, yet only the first 200 characters (100 in a batch) enter the key. Two texts with the same first 200 characters, under the same metadata and clock, get the same id (`RagStore.DocumentIdPrefix`).
- **A successful post can still raise.** `create_post` returns true only after status 201. It then reads the reply body, and that read can raise an exception that escapes. The model returns `Err` for those bodies and proves exactly when the result is true.

## Model

| member | source | states |
|---|---|---|
| IngestDocs.ChunkText | ingest_docs.py:46-68 | the method computes `Chunks(text, maxChars)` and returns `[text]` when the text fits; `overlap` plays no part in the result |
| IngestDocs.ChunksShort | ingest_docs.py:50-51 | a text of at most `max_chars` characters is returned as the one chunk, unchanged and unstripped |
| IngestDocs.ChunksReconstruct | ingest_docs.py:54-66 | in the long case the unstripped buffers, concatenated in order, are exactly `text + "\n\n"`; there is one chunk per buffer, and each chunk is its buffer stripped |
| IngestDocs.ChunksBound | ingest_docs.py:57-66 | no buffer is empty; a buffer of two or more paragraphs fits in `max_chars`; each closed buffer was closed because the next paragraph did not fit |
| IngestDocs.ChunksCount | ingest_docs.py:54-66 | in the long case there is at least one chunk and at most one per paragraph |
| IngestDocs.PackConcat | ingest_docs.py:57-66 | the packing loses, duplicates and reorders no paragraph |
| IngestDocs.PackBound | ingest_docs.py:58-63 | a paragraph joins a buffer only while the buffer stays within `max_chars`, so only a single paragraph can make an oversized chunk |
| IngestDocs.PackGreedy | ingest_docs.py:58-63 | a buffer is closed only when the next paragraph would overflow it |
| IngestDocs.PackNonEmpty | ingest_docs.py:61-66 | an empty buffer is never emitted |
| IngestDocs.PackHead | ingest_docs.py:57-59 | the first buffer starts with the paragraphs of the buffer being filled |
| IngestDocs.PackSome | ingest_docs.py:57-66 | some paragraph or an open buffer gives at least one buffer |
| IngestDocs.BufferAppend | ingest_docs.py:59 | the buffer of two paragraph lists is the concatenation of their buffers |
| IngestDocs.BufferJoin | ingest_docs.py:59 | a non-empty buffer is its paragraphs joined by `"\n\n"` plus a final `"\n\n"` |
| IngestDocs.BufferEmpty | ingest_docs.py:61 | a buffer is empty exactly when it holds no paragraph |
| IngestDocs.ConcatBuffers | ingest_docs.py:57-66 | the text of consecutive buffers is the buffer of all their paragraphs |
| IngestDocs.ChunksTrailingSeparator | ingest_docs.py:54-66 | the text `"a\n\n"` at a budget of 2 gives the chunks `["a", ""]`: a stripped chunk can be empty |
| IngestDocs.SplitTrailingSeparator | ingest_docs.py:54 | `"a\n\n".split("\n\n")` is `["a", ""]` |
| IngestDocs.GroupsTrailingSeparator | ingest_docs.py:57-66 | those two paragraphs land in two buffers at a budget of 2 |
| IngestDocs.StripTrailingSeparator | ingest_docs.py:62-66 | stripping those buffers gives `"a"` and `""` |
| IngestDocs.RStripExample | ingest_docs.py:62 | stripping removes the trailing separator |
| IngestDocs.LastIndexOf | ingest_docs.py:32 | `rfind`: the index of the last occurrence of the character, or -1 when it does not occur |
| IngestDocs.Suffix | ingest_docs.py:32 | a path suffix is empty or a dot followed by at least one dot-free character |
| IngestDocs.StemSuffix | ingest_docs.py:32 | a file name is its stem followed by its suffix |
| IngestDocs.SuffixOf | ingest_docs.py:32 | a non-empty stem followed by a dotted extension has that extension as its suffix |
| IngestDocs.BinaryRejected | ingest_docs.py:32-33 | a file whose suffix, lower-cased, is in the binary list is never a text file, whatever its size |
| IngestDocs.SizeLimit | ingest_docs.py:35-41 | a file of exactly `max_size_mb` MiB passes; one more byte fails; a failed `stat` fails |
| IngestDocs.DotFileHasNoSuffix | ingest_docs.py:32 | a dot file such as `.gz` has no suffix, so the list does not exclude it |
| IngestDocs.Enumerate | ingest_docs.py:140-147 | chunk `i` of `n` is paired with the metadata for index `i` of `n`, one record per chunk, in order |
| IngestDocs.WorkspaceChunks | ingest_docs.py:131-137 | a workspace file is chunked at 4000 characters exactly when it is longer than that, which equals `Chunks(content, 4000)` |
| IngestDocs.WorkspaceRecords | ingest_docs.py:131-152 | one record per chunk; record `i` has chunk `i` as text, `chunk_index = i`, `total_chunks` = the chunk count, and the type, source, path, size, lower-cased extension and time |
| IngestDocs.SkillNameOfGuide | ingest_docs.py:213-214 | a `SKILL.md` takes the name of the directory holding it |
| IngestDocs.SkillRecords | ingest_docs.py:213-239 | one record per 3000-character chunk; record `i` has `chunk_index = i`, the chunk count, `skill_name`, and source `"skill:" + name` |
| IngestSessions.ReadLine | ingest_sessions.py:32-56 | the body of the reading loop classifies the line as `ClassifyLine` does, the line-1 session test included |
| IngestSessions.ParseJsonl | ingest_sessions.py:19-60 | the reading loop returns `Parse(lines, decode)`: the records of the lines before the first line that raises, in order |
| IngestSessions.SkippedLines | ingest_sessions.py:32-56 | blank lines, undecodable lines, and events whose type is not `message` give no record |
| IngestSessions.KeptLine | ingest_sessions.py:44-53 | a line gives a record exactly when it holds a `message` event whose `message` is an object; the record has that message's role and content and the event's timestamp, id and session key |
| IngestSessions.ParsedFromMessages | ingest_sessions.py:40-53 | every record read comes from a line holding a `message` event, so a `session` header never appears |
| IngestSessions.CollectFrom | ingest_sessions.py:31-53 | every record kept comes from some line the classification keeps it for |
| IngestSessions.DropSkippedLine | ingest_sessions.py:32-56 | a skipped line can be removed without changing the records |
| IngestSessions.HaltingLine | ingest_sessions.py:45-58 | a line that raises ends the reading: the lines after it contribute nothing |
| IngestSessions.ParseConcat | ingest_sessions.py:29-58 | reading two parts in sequence is reading the first and, unless it raised, then the second |
| IngestSessions.ParseLength | ingest_sessions.py:31-53 | there are no more records than lines |
| IngestSessions.SessionKeyOfName | ingest_sessions.py:63-65 | a dot-free name followed by `.jsonl` gives the name back |
| IngestSessions.AnyRole | ingest_sessions.py:80-82 | `any(role == r)` holds exactly when some message has role `r` |
| IngestSessions.SessionMetadata | ingest_sessions.py:68-83 | no messages give the empty summary; otherwise the first and last timestamp, the message count, and each `has_` flag true exactly when that role occurs |
| IngestSessions.FormatContent | ingest_sessions.py:86-125 | the rendering loop returns `ContentText(content)`, including the errors it raises |
| IngestSessions.TextItemsJoined | ingest_sessions.py:94-123 | a list of `text` items renders as their texts joined by newlines |
| IngestSessions.PartsSkip | ingest_sessions.py:100-111 | a non-dict item, a `thinking` item or an item of unknown type contributes nothing |
| IngestSessions.ToolResultBound | ingest_sessions.py:116-121 | a tool result renders as `[Tool Result: ...]` around its `text` (or else its `result`) as a stripped string, cut to its first 500 characters plus `...` exactly when longer than 500 |
| IngestSessions.OtherContent | ingest_sessions.py:125 | content that is neither a string nor a list renders as the prefix of its `str()` of length min(500, length), and `None` as `"None"` |
| IngestSessions.StartsShape | ingest_sessions.py:146 | window `k` starts at `k * step`, below the message count, and the starts reach the end |
| IngestSessions.StartsExample | ingest_sessions.py:146 | 45 messages with window 20 and overlap 5 give the starts 0, 15 and 30 |
| IngestSessions.WindowShape | ingest_sessions.py:147 | a window is `messages[i:i + context_window]` and has at most `context_window` messages |
| IngestSessions.WindowsOverlap | ingest_sessions.py:146-147 | consecutive full windows share exactly `overlap` messages |
| IngestSessions.WindowsCover | ingest_sessions.py:146-147 | every message lies in the window numbered `j // step` |
| IngestSessions.RenderWindow | ingest_sessions.py:152-160 | the inner loop returns the `ROLE: text` lines of the non-blank messages, or the error a message raises |
| IngestSessions.ErrorsPropagate | ingest_sessions.py:152-160 | an error in rendering one message is the error of the whole window |
| IngestSessions.WindowChunk | ingest_sessions.py:147-183 | the body of the window loop returns `WindowDoc`: no document for a blank window, else the text and metadata |
| IngestSessions.WindowDocFacts | ingest_sessions.py:162-178 | a kept window's text is not blank; its type is `session`, `chunk_index = i // step`, `message_count` = the window length ≤ `context_window`, and the source comes from its first message |
| IngestSessions.WindowDropped | ingest_sessions.py:162-166 | a window is dropped exactly when its text is blank |
| IngestSessions.ChunkMessages | ingest_sessions.py:128-185 | the window loop returns `SessionChunks`: the documents of the windows in order, or the first error raised |
| IngestSessions.DocsErrorsPropagate | ingest_sessions.py:146-183 | an error raised in one window ends `chunk_messages` with that error |
| IngestSessions.NoLinesWithoutMessages | ingest_sessions.py:152-162 | a window with text lines holds at least one message |
| RagStore.DocumentKey | rag_system.py:88-94 | the key fails (`TypeError`) exactly when `type`, `source` or `date` is an integer |
| RagStore.DocumentKeyOfStrings | rag_system.py:88-94 | the key is `type:source:date:chunk_index:text[:200]`, defaulting to `unknown`, `unknown`, the time and `0` |
| RagStore.DocumentKeyDefaults | rag_system.py:88-94 | empty metadata gives the key `unknown:unknown:<now>:0:<text[:200]>` |
| RagStore.DocumentId | rag_system.py:86-95 | a supplied id is used unchanged; otherwise the id is the digest of the key, and fails exactly when the key does |
| RagStore.DocumentIdPrefix | rag_system.py:88-95 | two texts with the same first 200 characters get the same generated id |
| RagStore.BatchKeyShape | rag_system.py:128-130 | the batch key is `type:source:date:chunk_index:text[:100]` with `date` defaulting to `''`, and has that length |
| RagStore.BatchKeyDefaults | rag_system.py:128-130 | empty metadata gives the batch key `unknown:unknown::0:<text[:100]>` |
| RagStore.BatchId | rag_system.py:128-130 | a document's own id wins; otherwise it is the digest of its batch key |
| RagStore.EntriesOf | rag_system.py:126-130 | one entry per document, in order, with its id, text and metadata |
| RagStore.BatchesPartition | rag_system.py:123-124 | the batches are non-empty slices of at most `batch_size` documents that together are the documents, in order |
| RagStore.RunBatchesFacts | rag_system.py:123-141 | batches run without an error return the ids of all their documents and store what one add of them would; an error is the duplicate-id error |
| RagStore.AddBatchesFacts | rag_system.py:106-141 | the returned ids are one per document, `ids[k]` that of `documents[k]`; the store gains those entries; documents with distinct ids never fail |
| RagStore.AddEntriesFacts | rag_system.py:97-138 | adding keeps the stored entries as a prefix, stores every new id, adds only new documents, and keeps ids distinct |
| RagStore.AddEntriesConcat | rag_system.py:132-138 | adding two lists in turn is adding their concatenation |
| RagStore.MatchIds | rag_system.py:200 | an id is matched exactly when a stored entry with that id matches the filter |
| RagStore.Unmatched | rag_system.py:206 | the entries left are those that do not match, and they number the entries less the matched ids |
| RagStore.WithoutIds | rag_system.py:180-209 | deleting ids keeps exactly the entries whose id is not among them |
| RagStore.WithoutIdsDistinct | rag_system.py:180-209 | deletion keeps ids distinct |
| RagStore.DeleteMatched | rag_system.py:200-206 | deleting the matched ids removes exactly the matching entries |
| RagStore.MatchIdsExact | rag_system.py:200 | with distinct ids, an entry's id is matched exactly when the entry matches |
| RagStore.UnmatchedNone | rag_system.py:202-203 | when nothing matches, nothing is removed |
| RagStore.FieldValuesAt | rag_system.py:222-224 | the sampled value of each entry is its field, or `unknown` when the field is missing |
| RagStore.TallyCounts | rag_system.py:222-227 | the counting loop counts each value as often as it occurs |
| RagStore.TallyTotal | rag_system.py:222-227 | the counts add up to the sample size |
| RagStore.TallyNext | rag_system.py:226-227 | one step of the loop adds one to the count of the entry's value |
| RagStore.DistributionFacts | rag_system.py:218-227 | the distribution has exactly the sampled values, each counted as often as it occurs, and the counts add up to the sample size |
| RagStore.RagSystem.constructor | rag_system.py:25-67 | opening a collection keeps its name, directory and stored entries |
| RagStore.RagSystem.Insert | rag_system.py:97-138 | an add of entries with distinct ids stores them (skipping ids already stored); a duplicate id inside the add changes nothing |
| RagStore.RagSystem.Delete | rag_system.py:180-209 | deleting ids leaves exactly the other entries |
| RagStore.RagSystem.AddDocument | rag_system.py:69-104 | returns `DocumentId(...)` and stores the document under it; a key that raises stores nothing |
| RagStore.RagSystem.AddDocumentsBatch | rag_system.py:106-141 | the batch loop returns and stores what `AddBatches` does (proved above) |
| RagStore.RagSystem.DeleteDocument | rag_system.py:180-187 | returns true and removes the entry with that id |
| RagStore.RagSystem.DeleteByFilter | rag_system.py:189-209 | returns the number of matched ids, 0 when nothing matches, and removes exactly the matching entries |
| RagStore.RagSystem.GetStats | rag_system.py:211-235 | the total, name and directory, and the distributions of source and type over the first 10 entries |
| RagAgent.LastIndex | rag_agent.py:36 | the reverse scan finds the last element meeting the test, or finds none |
| RagAgent.LastIndexIs | rag_agent.py:36-51 | an element meeting the test with none after it is the one the reverse scan stops at |
| RagAgent.CollectText | rag_agent.py:47-50 | the inner loop keeps the `text` of the `text` items, in order |
| RagAgent.ExtractUserQuery | rag_agent.py:25-53 | the reverse loop returns `UserQuery`: the answer of the last deciding message, `''` when there is none, or the error raised |
| RagAgent.LastUserMessage | rag_agent.py:36-44 | the string content of the last user message is the query |
| RagAgent.NoUserMessage | rag_agent.py:53 | without a deciding message the query is `''` |
| RagAgent.UserQueryConcat | rag_agent.py:36-53 | a later part of the conversation with a deciding message decides the query alone; otherwise the earlier part does |
| RagAgent.HistoryTakesPrecedence | rag_agent.py:134 | a user message in the history wins over the current message, which counts only when the history has none |
| RagAgent.SearchRelevantContext | rag_agent.py:56-108 | the formatting loop returns `RelevantContext(query, outcome)` |
| RagAgent.ContextEmpty | rag_agent.py:68-108 | the context is empty exactly when the query is shorter than 3 characters, the search raised, or there are no hits |
| RagAgent.ContextHoldsHits | rag_agent.py:79-104 | the context starts with the count line and holds the block of hit `k` (numbered from 1) at its offset, directly followed by the next after one newline |
| RagAgent.BlockShowsText | rag_agent.py:97-102 | a block ends with the hit's text, or its first 800 characters and `...` when longer |
| RagAgent.Enhance | rag_agent.py:129-155 | the message comes back unchanged when the query raises or the context is empty, and otherwise wrapped in the template |
| RagAgent.TemplateShape | rag_agent.py:143-149 | the template starts with the context banner and ends with the current-message banner and the message |
| RagAgent.EnhancedShape | rag_agent.py:139-151 | an enhanced message starts with the banner and ends with the original message |
| RagAgent.ShortMessageUnchanged | rag_agent.py:134-140 | a message shorter than 3 characters with no history comes back unchanged |
| RagAgent.LoadHistory | rag_agent.py:177-188 | the history loop returns `History(lines, decode)` |
| RagAgent.HistoryFromMessages | rag_agent.py:181-186 | every history element is the `message` of a `message` event of some line, and there are no more than lines |
| RagAgent.HistoryStopsAtBadLine | rag_agent.py:179-188 | an undecodable line ends the reading; nothing after it is kept |
| RagAgent.GetResponseWithRag | rag_agent.py:158-191 | the message is enhanced with the transcript's history, or with none when there is no transcript |
| RagQuery.HeaderIcon | rag_query.py:24-35 | every header starts with a newline and the icon of the type |
| RagQuery.HeaderName | rag_query.py:24-35 | a session header ends with its chunk index, a skill header with `skill_name`, and any other header with the source |
| RagQuery.SkillNameFallback | rag_query.py:29-31 | a skill without `skill_name` is named by its source |
| RagQuery.Info | rag_query.py:43-49 | info holds `indexed <first 10 of ingested_at>` exactly when that key is present, and `chunk k+1/total` exactly when both chunk keys are; it raises `TypeError` when a present value has the wrong kind |
| RagQuery.InfoStr | rag_query.py:51 | the info string is empty exactly when info is |
| RagQuery.InfoStrHolds | rag_query.py:51 | a non-empty info string is ` (` … `)` and holds every info part at its offset |
| RagQuery.FormattedResult | rag_query.py:15-53 | the result starts with the header and ends with a newline and the text cut to 1000 characters; it raises exactly when the info does |
| RagQuery.FormatResult | rag_query.py:15-53 | the method builds its info list by appends and returns `FormattedResult` |
| RagQuery.ResultWithoutInfo | rag_query.py:43-53 | without info keys the result is the header, a newline and the text |
| RagQuery.ResultWithInfo | rag_query.py:43-53 | with both kinds of info the result is `header (indexed d, chunk k+1/n)\ntext` |
| RagQuery.SkipAndQuit | rag_query.py:119-126 | a line is skipped exactly when it is blank, and quits exactly when its stripped lower-case form is a quit word |
| RagQuery.QuitLine | rag_query.py:124-126 | `q`, `quit` and `exit`, stripped and in any case, end the loop |
| RagQuery.QuitCommand | rag_query.py:119-126 | a stripped quit word quits |
| RagQuery.QuitWordsAnyCase | rag_query.py:124-126 | a quit word quits in lower and upper case |
| RagQuery.LongNotQuit | rag_query.py:124 | no line longer than 4 characters is a quit word |
| RagQuery.SearchQuery | rag_query.py:119-135 | a search query is non-empty, without outer whitespace, and a suffix of the stripped line |
| RagQuery.SearchFilter | rag_query.py:129-135 | a filtered search comes from a `type:` line and has a shorter query; an unfiltered one searches the whole stripped line |
| RagQuery.FilteredCommand | rag_query.py:130-135 | a `type:` line with two parts filters on the first part with `type:` removed, and searches the rest |
| RagQuery.TypeFilterParsed | rag_query.py:130-135 | `type:<word> <rest>` searches `rest` with the filter `word` |
| RagQuery.UnfilteredCommand | rag_query.py:130-132 | a `type:` line with one part is searched as it is, without a filter |
| RagQuery.TypeWordAlone | rag_query.py:130-132 | `type:<word>` alone is searched as it is, without a filter |
| RagQuery.Commands | rag_query.py:117-135 | one command per input line |
| RagQuery.CommandsAt | rag_query.py:119-135 | command `i` is the parse of line `i` |
| RagQuery.InteractiveSearch | rag_query.py:104-154 | the loop issues `Searches(lines)`: the searches of the lines before the first quit, in order |
| RagQuery.IssuedNext | rag_query.py:121-138 | a quit ends the searches, a skip issues nothing, and a search is issued before the rest |
| RagQuery.IssuedSearches | rag_query.py:121-138 | only searches are issued |
| RagQuery.QuitEndsSession | rag_query.py:124-126 | what follows a quit is never searched |
| RagQuery.SkipsIgnored | rag_query.py:121-122 | a blank line changes nothing |
| RagQuery.QuitLineEndsSession | rag_query.py:119-126 | a line holding a quit word ends the session there |
| RagQueryWrapper.Searched | rag_query_wrapper.py:41-68 | the query is kept and `count` is the number of items; there is one item per hit, in order, and no error; a failed search gives count 0, no items and the message |
| RagQueryWrapper.ItemDefaults | rag_query_wrapper.py:47-54 | each item field is the hit's value, or `unknown`, `unknown`, 0 and `''` when it is missing |
| RagQueryWrapper.SearchKnowledge | rag_query_wrapper.py:24-68 | the projection loop returns `Searched(query, outcome)` |
| RagQueryWrapper.FormatForAi | rag_query_wrapper.py:71-106 | the formatting loop returns `AiText(results)` |
| RagQueryWrapper.AiTextEmpty | rag_query_wrapper.py:81-82 | the text is empty exactly when `count` is 0 |
| RagQueryWrapper.AiTextHoldsItems | rag_query_wrapper.py:84-106 | the text starts with the count line and holds the block of every item at its offset, each directly followed by the next after one newline |
| RagQueryWrapper.HeaderNames | rag_query_wrapper.py:91-98 | session, workspace and skill headers name the source; any other header names the type and does not depend on the source |
| RagQueryWrapper.BlockShowsText | rag_query_wrapper.py:101-104 | a block is `\n<header>\n` followed by the text, or by its first 700 characters and `...` when longer |
| RagQueryWrapper.SearchedTextEmpty | rag_query_wrapper.py:41-82 | formatting a search is empty exactly when the search raised or found nothing |
| RagQueryQuick.SearchContext | rag_query_quick.py:19-77 | the formatting loop returns `ContextText(outcome)` |
| RagQueryQuick.AnswerKinds | rag_query_quick.py:42-77 | the answer is never empty; it is the no-context sentence exactly when there are no hits, starts with `❌` exactly when the search raised, and with `🔍` exactly when there are hits |
| RagQueryQuick.ErrorCarriesMessage | rag_query_quick.py:76-77 | an error answer is `❌ RAG error: ` followed by the message |
| RagQueryQuick.ContextHoldsHits | rag_query_quick.py:49-74 | the answer starts with `🔍 Found N relevant items:\n` and holds the block of every hit at its offset, each directly followed by the next after one newline |
| RagQueryQuick.HeaderNames | rag_query_quick.py:57-65 | workspace and skill headers name the source; the others name the hit's number and do not depend on the source |
| RagQueryQuick.BlockShowsText | rag_query_quick.py:67-72 | a block ends with the text, or its first 600 characters and `...` when longer |
| MoltbookPost.FirstHeading | scripts/moltbook_post.py:110-113 | the first line starting with `#`, with none before it, or none at all |
| MoltbookPost.HeadingTitle | scripts/moltbook_post.py:112 | a title has no leading or trailing whitespace |
| MoltbookPost.FirstHeadingAt | scripts/moltbook_post.py:110-113 | a heading preceded only by non-heading lines is the one the loop stops at |
| MoltbookPost.TitleFromFirstHeading | scripts/moltbook_post.py:107-113 | the title comes from the first heading line |
| MoltbookPost.TitleDefault | scripts/moltbook_post.py:108 | without a heading line the title is `RAG Skill Announcement` |
| MoltbookPost.HeadedPost | scripts/moltbook_post.py:107-119 | a post opening with a heading line has that heading as title and the rest, stripped, as body |
| MoltbookPost.BodyUnchanged | scripts/moltbook_post.py:116-119 | a post not starting with `#`, or of one line, keeps its body as it is |
| MoltbookPost.PayloadFields | scripts/moltbook_post.py:52-59 | the payload always has `submolt`, `title` and `content`, and has `url` exactly when a non-empty url is given |
| MoltbookPost.CreatePost | scripts/moltbook_post.py:38-93 | without a key: no request and false; otherwise the `/posts` request with the bearer header, the payload and a 10-second timeout, and `Outcome(reply)` |
| MoltbookPost.PostedIffCreated | scripts/moltbook_post.py:69-80 | the result is true exactly when the status is 201 and the body can be read |
| MoltbookPost.OutcomeCases | scripts/moltbook_post.py:69-93 | a network error and any status other than 201 or 429 give false; 429 never gives true; an exception escapes only while a 201 or 429 body is read |
| MoltbookPost.PostFromFile | scripts/moltbook_post.py:96-121 | a missing file, or a missing key, gives false without a request; otherwise the post of the file's title and body |

## Left out

- The vector store is left out: embeddings, similarity ranking and `collection.query`. `RAGSystem.search` (rag_system.py:143-178), with its floating-point `score`, is not modelled. A store delete that raises, where `delete_document` returns False (rag_system.py:185-187), is not modelled either: `RagStore.RagSystem.DeleteDocument` always succeeds. Callers get the search as a `SearchOutcome` parameter, which also absorbs `n_results`, the collection name and the filters.
- `reset_collection` and `close` (rag_system.py:237-245) are not modelled: they delete everything through the store's own filter semantics, or do nothing.
- The `where` filters of the store are not modelled in general. `RagStore.RagSystem.DeleteByFilter` handles a filter of one key and one value.
- RagStore.RagSystem.Insert: an add with a duplicate id inside one call is modelled as an error that changes nothing. Ids already stored are skipped. The vector store's own reaction to either case is not part of this model.
- RagStore.RagSystem.GetStats: the sample is taken as the first 10 entries in storage order. The store's actual choice for `get(limit=10)` is not part of this model.
- md5 is an uninterpreted function `digest`. Only the fact that equal keys give equal ids follows from it.
- The clock is a parameter `now`: `datetime.now()` for `ingested_at`, a missing `date`, and the collection's `created` time.
- `json.loads` is a parameter `decode` that gives a value or `None` for text that is not JSON.
- File and OS access is left out: `open`, `read_text`, `stat`, `glob`/`rglob`, `Path.exists`, `mkdir`, and the skip lists of `ingest_workspace`. A file is given as its text, or its lines; a failed `stat` is `None`. `read_file_safe` (ingest_docs.py:19-26) is not modelled.
- The top-level loops of `ingest_workspace` and `ingest_skills` (ingest_docs.py:71-249) are modelled only per file: `WorkspaceRecords` and `SkillRecords`. The directory walk, the 100-file limit and the printed summary belong to the file system and console.
- `ingest_sessions` (ingest_sessions.py:188 onwards) is not modelled. It is the directory walk that calls the modelled functions, plus printing.
- `load_api_key` (scripts/moltbook_post.py:21-35) is not modelled: it reads the environment and a credentials file. The key is a parameter.
- The HTTP request in `create_post` is not modelled; it is abstracted as the `Reply` it gives. A body that is not JSON is taken to raise `requests`' JSON error, which is a `RequestException` from requests 2.27 on, so it gives false.
- Printing is not modelled anywhere, nor are the command-line `__main__` blocks with `argparse`. This includes the verbose output of `rag_query.search`, whose result is the store's search.
- `rag_manage.py` and `rag_context.py` are not part of this model. They are command-line plumbing around the modelled functions.
- RagQuery.InteractiveSearch: the input is a finite list of lines, so the model stops at its end. In the code, an end of input raises `EOFError`; the loop's `except Exception` catches it and asks again, so the real loop never ends. A `KeyboardInterrupt` is not modelled.
- IngestSessions.ChunkMessages: a window whose first message has neither a truthy `sessionKey` nor a truthy `id` falls back to the undefined name `session_key` (ingest_sessions.py:171). This is modelled as `Err(NameError)`. The model does not choose a value for it.
- Python's `str()` of a JSON value follows `repr` for strings, numbers, booleans, `None`, lists and dicts. Floats are not modelled: numbers are integers.
- PyData.ReprChar: `repr`'s escaping of a string is approximated. It escapes the C0 and C1 controls, DEL, the no-break space, the soft hyphen and the other non-ASCII whitespace. It writes other format characters (such as U+200B and U+FEFF), private-use and unassigned characters as they are, and never uses the 8-digit `\U` form, where Python escapes every character it does not count as printable.
- `lower` and `upper` change ASCII letters only; full Unicode case mapping is not modelled. The whitespace test of `strip` is the set of characters Python's `str.isspace` accepts.
