/**
 * The agent wrapper: the query taken from a conversation, the context block built
 * from the search hits, the message template that prepends it, and the conversation
 * history read from a session transcript.
 */
module RagAgent {
  import opened PyStr
  import opened PyData

  // ---------------------------------------------------------------------------
  // The user query

  /** Whether a message ends the reverse scan: a non-object raises, a user message with string or list content answers. */
  predicate Decides(m: Json) {
    !m.JObj? || (Get(m.members, "role") == JStr("user")
                 && (GetOr(m.members, "content", JStr("")).JStr? || GetOr(m.members, "content", JStr("")).JArr?))
  }

  /** The texts of the `text` items of a content list (any value; the join rejects non-strings). */
  function TextItems(items: seq<Json>): seq<Json> {
    if items == [] then []
    else
      var item := items[|items| - 1];
      TextItems(items[..|items| - 1])
        + (if item.JObj? && Get(item.members, "type") == JStr("text") then [GetOr(item.members, "text", JStr(""))] else [])
  }

  /** The answer of a deciding message. */
  function Answer(m: Json): Result<string>
    requires Decides(m)
  {
    if !m.JObj? then Err(AttributeError)
    else
      var content := GetOr(m.members, "content", JStr(""));
      if content.JStr? then Ok(content.s) else JoinValues(" ", TextItems(content.items))
  }

  /** The index of the last element of `s` that satisfies `p`, if any. */
  function LastIndex<T>(s: seq<T>, p: T -> bool): (r: Option<nat>)
    ensures r.Some? ==> r.value < |s| && p(s[r.value]) && forall j :: r.value < j < |s| ==> !p(s[j])
    ensures r.None? ==> forall j :: 0 <= j < |s| ==> !p(s[j])
  {
    if s == [] then None
    else if p(s[|s| - 1]) then Some(|s| - 1)
    else
      var r := LastIndex(s[..|s| - 1], p);
      assert forall j :: 0 <= j < |s| - 1 ==> s[..|s| - 1][j] == s[j];
      r
  }

  /** An element that satisfies `p` with none after it is the last one that does. */
  lemma LastIndexIs<T>(s: seq<T>, p: T -> bool, i: nat)
    requires i < |s| && p(s[i]) && forall j :: i < j < |s| ==> !p(s[j])
    ensures LastIndex(s, p) == Some(i)
  {
  }

  /** What `extract_user_query` returns: the answer of the last deciding message, or the empty string. */
  function UserQuery(msgs: seq<Json>): Result<string> {
    match LastIndex(msgs, Decides)
    case None => Ok("")
    case Some(i) => Answer(msgs[i])
  }

  /** The text items of a content list, by the inner loop of `extract_user_query`. */
  method CollectText(items: seq<Json>) returns (parts: seq<Json>)
    ensures parts == TextItems(items)
  {
    parts := [];
    var j := 0;
    while j < |items|
      invariant 0 <= j <= |items|
      invariant parts == TextItems(items[..j])
    {
      assert items[..j + 1][..j] == items[..j];
      var item := items[j];
      if item.JObj? && Get(item.members, "type") == JStr("text") {
        parts := parts + [GetOr(item.members, "text", JStr(""))];
      }
      j := j + 1;
    }
    assert items[..j] == items;
  }

  /** `extract_user_query`. */
  method ExtractUserQuery(messages: seq<Json>) returns (r: Result<string>)
    ensures r == UserQuery(messages)
  {
    var k := |messages|;
    while k > 0
      invariant 0 <= k <= |messages|
      invariant forall j :: k <= j < |messages| ==> !Decides(messages[j])
    {
      var msg := messages[k - 1];
      if Decides(msg) {
        LastIndexIs(messages, Decides, k - 1);
      }
      if !msg.JObj? {
        return Err(AttributeError);
      }
      var role := Get(msg.members, "role");
      if role == JStr("user") {
        var content := GetOr(msg.members, "content", JStr(""));
        if content.JStr? {
          return Ok(content.s);
        } else if content.JArr? {
          var textParts := CollectText(content.items);
          return JoinValues(" ", textParts);
        }
      }
      k := k - 1;
    }
    return Ok("");
  }

  /** Messages before a deciding one do not matter; without one in `b`, only `a` does. */
  lemma UserQueryConcat(a: seq<Json>, b: seq<Json>)
    ensures (exists i :: 0 <= i < |b| && Decides(b[i])) ==> UserQuery(a + b) == UserQuery(b)
    ensures (forall i :: 0 <= i < |b| ==> !Decides(b[i])) ==> UserQuery(a + b) == UserQuery(a)
  {
    match LastIndex(b, Decides)
    case Some(r) =>
      LastInSecond(a, b, Decides);
      assert (a + b)[|a| + r] == b[r];
    case None =>
      LastInFirst(a, b, Decides);
      if LastIndex(a, Decides).Some? {
        assert (a + b)[LastIndex(a, Decides).value] == a[LastIndex(a, Decides).value];
      }
  }

  /** The last match in `a + b` is that of `b`, when `b` has one. */
  lemma LastInSecond<T>(a: seq<T>, b: seq<T>, p: T -> bool)
    requires LastIndex(b, p).Some?
    ensures LastIndex(a + b, p) == Some(|a| + LastIndex(b, p).value)
  {
    var s, r := a + b, LastIndex(b, p).value;
    forall j | |a| + r < j < |s| ensures !p(s[j]) {
      assert s[j] == b[j - |a|];
    }
    assert s[|a| + r] == b[r];
    LastIndexIs(s, p, |a| + r);
  }

  /** Without a match in `b`, the last match in `a + b` is that of `a`. */
  lemma LastInFirst<T>(a: seq<T>, b: seq<T>, p: T -> bool)
    requires LastIndex(b, p).None?
    ensures LastIndex(a + b, p) == LastIndex(a, p)
  {
    var s := a + b;
    forall j | |a| <= j < |s| ensures !p(s[j]) {
      assert s[j] == b[j - |a|];
    }
    match LastIndex(a, p)
    case Some(r) =>
      assert s[r] == a[r];
      forall j | r < j < |a| ensures !p(s[j]) {
        assert s[j] == a[j];
      }
      LastIndexIs(s, p, r);
    case None =>
      forall j | 0 <= j < |a| ensures !p(s[j]) {
        assert s[j] == a[j];
      }
  }

  /** The last user message with string content is the query, when every later message is an object that does not decide. */
  lemma LastUserMessage(msgs: seq<Json>, i: nat, text: string)
    requires i < |msgs| && msgs[i].JObj? && Get(msgs[i].members, "role") == JStr("user")
    requires GetOr(msgs[i].members, "content", JStr("")) == JStr(text)
    requires forall j :: i < j < |msgs| ==> !Decides(msgs[j])
    ensures UserQuery(msgs) == Ok(text)
  {
    assert Decides(msgs[i]);
    LastIndexIs(msgs, Decides, i);
  }

  /** With no user message whose content is a string or a list, and nothing raising, the query is empty. */
  lemma NoUserMessage(msgs: seq<Json>)
    requires forall j :: 0 <= j < |msgs| ==> !Decides(msgs[j])
    ensures UserQuery(msgs) == Ok("")
  {
  }

  /** The message object `enhance_message_with_rag` puts in front of the history. */
  function CurrentMessage(message: string): Json {
    JObj([("role", JStr("user")), ("content", JStr(message))])
  }

  /**
   * The query of the enhanced message: a deciding message in the history wins over the
   * current message, which is placed first and so scanned last.
   */
  lemma HistoryTakesPrecedence(message: string, history: seq<Json>)
    ensures (exists i :: 0 <= i < |history| && Decides(history[i]))
            ==> UserQuery([CurrentMessage(message)] + history) == UserQuery(history)
    ensures (forall i :: 0 <= i < |history| ==> !Decides(history[i]))
            ==> UserQuery([CurrentMessage(message)] + history) == Ok(message)
  {
    UserQueryConcat([CurrentMessage(message)], history);
    var ps := CurrentMessage(message).members;
    assert ps[1..] == [("content", JStr(message))];
    assert Lookup(ps, "content") == Lookup(ps[1..], "content");
    assert Decides(CurrentMessage(message));
    LastIndexIs([CurrentMessage(message)], Decides, 0);
  }

  // ---------------------------------------------------------------------------
  // The context block

  /** The header of hit number `i` (from 1), chosen by its type. */
  function ContextHeader(i: nat, docType: MetaValue, source: MetaValue): string {
    if docType == MStr("session") then "[Session Reference " + NatToString(i) + "]"
    else if docType == MStr("workspace") then "[Code/Docs " + NatToString(i) + ": " + Render(source) + "]"
    else if docType == MStr("skill") then "[Skill Reference " + NatToString(i) + ": " + Render(source) + "]"
    else "[Reference " + NatToString(i) + "]"
  }

  /** The part of hit number `i`: its header, then its text cut to 800 characters plus `...`. */
  function ContextBlock(i: nat, h: Hit): string {
    var m := h.metadata;
    ContextHeader(i, MetaGet(m, "type", MStr("unknown")), MetaGet(m, "source", MStr("unknown")))
      + "\n" + Truncate(h.text, 800) + "\n"
  }

  /** The parts of the hits, numbered from `first`. */
  function ContextBlocks(hits: seq<Hit>, first: nat): seq<string> {
    MapNumbered(hits, first, ContextBlock)
  }

  function CountLine(n: nat): string {
    "Found " + NatToString(n) + " relevant context items:\n"
  }

  /**
   * What `search_relevant_context` returns: nothing for a query shorter than three
   * characters, a failed search or no hits; otherwise the count line and the parts,
   * joined by newlines.
   */
  function RelevantContext(query: string, outcome: SearchOutcome): string {
    if query == "" || |query| < 3 then ""
    else match outcome
      case Failed(_) => ""
      case Found(hits) =>
        if hits == [] then "" else Join("\n", [CountLine(|hits|)] + ContextBlocks(hits, 1))
  }

  /** `search_relevant_context`, given what the search gives. */
  method SearchRelevantContext(query: string, outcome: SearchOutcome) returns (context: string)
    ensures context == RelevantContext(query, outcome)
  {
    if query == "" || |query| < 3 {
      return "";
    }
    if outcome.Failed? {
      return "";
    }
    var results := outcome.hits;
    if results == [] {
      return "";
    }
    var contextParts := [CountLine(|results|)];
    var k := 0;
    while k < |results|
      invariant 0 <= k <= |results|
      invariant contextParts == [CountLine(|results|)] + ContextBlocks(results[..k], 1)
    {
      assert results[..k + 1][..k] == results[..k];
      var i := k + 1;
      var metadata := results[k].metadata;
      var docType := MetaGet(metadata, "type", MStr("unknown"));
      var source := MetaGet(metadata, "source", MStr("unknown"));
      var header := ContextHeader(i, docType, source);
      var text := results[k].text;
      if |text| > 800 {
        text := text[..800] + "...";
      }
      contextParts := contextParts + [header + "\n" + text + "\n"];
      k := k + 1;
    }
    assert results[..k] == results;
    return Join("\n", contextParts);
  }

  /** The context is empty exactly for a short query, a failed search or no hits. */
  lemma ContextEmpty(query: string, outcome: SearchOutcome)
    ensures RelevantContext(query, outcome) == ""
            <==> |query| < 3 || outcome.Failed? || outcome.hits == []
  {
    if |query| >= 3 && outcome.Found? && outcome.hits != [] {
      var xs := [CountLine(|outcome.hits|)] + ContextBlocks(outcome.hits, 1);
      JoinFirst("\n", xs);
    }
  }

  /** The context starts with the count line and holds the part of every hit, in order, with the hit's text cut to 800 characters. */
  lemma ContextHoldsHits(query: string, hits: seq<Hit>, k: nat)
    requires |query| >= 3 && k < |hits|
    ensures var c := RelevantContext(query, Found(hits));
      var xs := [CountLine(|hits|)] + ContextBlocks(hits, 1);
      StartsWith(c, CountLine(|hits|)) && OccursAt(c, ContextBlock(k + 1, hits[k]), JoinOffset("\n", xs, k + 1))
      && (k + 1 < |hits| ==> JoinOffset("\n", xs, k + 2) == JoinOffset("\n", xs, k + 1) + |ContextBlock(k + 1, hits[k])| + 1)
  {
    JoinHoldsParts("\n", CountLine(|hits|), ContextBlocks(hits, 1), k);
    if k + 1 < |hits| {
      JoinPartsAdjacent("\n", CountLine(|hits|), ContextBlocks(hits, 1), k);
    }
  }

  /** A part shows the hit's text whole when it has at most 800 characters, else its first 800 and `...`. */
  lemma BlockShowsText(i: nat, h: Hit)
    ensures |h.text| <= 800 ==> EndsWith(ContextBlock(i, h), h.text + "\n")
    ensures |h.text| > 800 ==> EndsWith(ContextBlock(i, h), h.text[..800] + "...\n")
  {
    var m := h.metadata;
    var head := ContextHeader(i, MetaGet(m, "type", MStr("unknown")), MetaGet(m, "source", MStr("unknown"))) + "\n";
    assert ContextBlock(i, h) == head + (Truncate(h.text, 800) + "\n");
    EndsWithConcat(head, Truncate(h.text, 800) + "\n");
    if |h.text| > 800 {
      assert Truncate(h.text, 800) + "\n" == h.text[..800] + "...\n";
    }
  }

  // ---------------------------------------------------------------------------
  // The enhanced message

  /** The template that wraps a non-empty context and the message. */
  function Template(context: string, message: string): string {
    "[RAG CONTEXT - Retrieved from knowledge base:]\n" + context + "\n\n---\n\n[CURRENT USER MESSAGE:]\n" + message
  }

  /**
   * `enhance_message_with_rag`, given what the search gives: the message unchanged when
   * the scan raises or the context is empty, else the template around both.
   */
  function Enhance(message: string, history: seq<Json>, outcome: SearchOutcome): (r: string)
    ensures var q := UserQuery([CurrentMessage(message)] + history);
      (q.Err? || RelevantContext(q.value, outcome) == "") ==> r == message
    ensures var q := UserQuery([CurrentMessage(message)] + history);
      q.Ok? && RelevantContext(q.value, outcome) != "" ==> r == Template(RelevantContext(q.value, outcome), message)
  {
    match UserQuery([CurrentMessage(message)] + history)
    case Err(_) => message
    case Ok(query) =>
      var context := RelevantContext(query, outcome);
      if context == "" then message else Template(context, message)
  }

  /** The template begins with the context banner and ends with the message after its banner. */
  lemma TemplateShape(context: string, message: string)
    ensures StartsWith(Template(context, message), "[RAG CONTEXT - Retrieved from knowledge base:]\n")
    ensures EndsWith(Template(context, message), "\n\n---\n\n[CURRENT USER MESSAGE:]\n" + message)
  {
    var banner, tail := "[RAG CONTEXT - Retrieved from knowledge base:]\n", "\n\n---\n\n[CURRENT USER MESSAGE:]\n";
    assert Template(context, message) == banner + (context + tail + message);
    StartsWithConcat(banner, context + tail + message);
    assert Template(context, message) == (banner + context) + (tail + message);
    EndsWithConcat(banner + context, tail + message);
  }

  /** An enhanced message begins with the context banner and ends with the message itself. */
  lemma EnhancedShape(message: string, history: seq<Json>, outcome: SearchOutcome)
    requires Enhance(message, history, outcome) != message
    ensures StartsWith(Enhance(message, history, outcome), "[RAG CONTEXT - Retrieved from knowledge base:]\n")
    ensures EndsWith(Enhance(message, history, outcome), "\n\n---\n\n[CURRENT USER MESSAGE:]\n" + message)
  {
    var q := UserQuery([CurrentMessage(message)] + history);
    TemplateShape(RelevantContext(q.value, outcome), message);
  }

  /** A query of the empty history is the current message, so a short message is never enhanced. */
  lemma ShortMessageUnchanged(message: string, outcome: SearchOutcome)
    requires |message| < 3
    ensures Enhance(message, [], outcome) == message
  {
    HistoryTakesPrecedence(message, []);
  }

  // ---------------------------------------------------------------------------
  // The conversation history

  /** What one line of the transcript does to the history: nothing, a message appended, or the end of reading. */
  datatype HistoryStep = Pass | Append(message: Json) | Stop

  /**
   * One line: a blank line is passed over; an undecodable line or a non-object event
   * raises, and the bare `except` ends the reading; a `message` event adds its `message`.
   */
  function HistoryLine(line: string, decode: string -> Option<Json>): HistoryStep {
    if IsBlank(line) then Pass
    else match decode(line)
      case None => Stop
      case Some(event) =>
        if !event.JObj? then Stop
        else if Get(event.members, "type") == JStr("message") then Append(GetOr(event.members, "message", JObj([])))
        else Pass
  }

  function History(lines: seq<string>, decode: string -> Option<Json>): seq<Json> {
    if lines == [] then []
    else match HistoryLine(lines[0], decode)
      case Pass => History(lines[1..], decode)
      case Append(m) => [m] + History(lines[1..], decode)
      case Stop => []
  }

  /** The history-reading loop of `get_response_with_rag`. */
  method LoadHistory(lines: seq<string>, decode: string -> Option<Json>) returns (history: seq<Json>)
    ensures history == History(lines, decode)
  {
    history := [];
    var k := 0;
    while k < |lines|
      invariant 0 <= k <= |lines|
      invariant history + History(lines[k..], decode) == History(lines, decode)
    {
      assert lines[k..][0] == lines[k] && lines[k..][1..] == lines[k + 1..];
      var line := lines[k];
      if !IsBlank(line) {
        var event := decode(line);
        if event.None? || !event.value.JObj? {
          break;
        }
        if Get(event.value.members, "type") == JStr("message") {
          history := history + [GetOr(event.value.members, "message", JObj([]))];
        }
      }
      k := k + 1;
    }
    if k == |lines| {
      assert lines[k..] == [];
    }
  }

  /** Every history element is the `message` of a `message` event of some line. */
  lemma {:induction false} HistoryFromMessages(lines: seq<string>, decode: string -> Option<Json>)
    ensures |History(lines, decode)| <= |lines|
    ensures forall h :: h in History(lines, decode) ==>
      exists i :: 0 <= i < |lines| && HistoryLine(lines[i], decode) == Append(h)
  {
    if lines != [] {
      HistoryFromMessages(lines[1..], decode);
      forall h | h in History(lines[1..], decode)
        ensures exists i :: 0 <= i < |lines| && HistoryLine(lines[i], decode) == Append(h)
      {
        var i :| 0 <= i < |lines[1..]| && HistoryLine(lines[1..][i], decode) == Append(h);
        assert lines[i + 1] == lines[1..][i];
      }
    }
  }

  /** A line that does not decode ends the history: nothing after it is read. */
  lemma {:induction false} HistoryStopsAtBadLine(a: seq<string>, bad: string, b: seq<string>, decode: string -> Option<Json>)
    requires !IsBlank(bad) && decode(bad).None?
    requires forall i :: 0 <= i < |a| ==> !HistoryLine(a[i], decode).Stop?
    ensures History(a + [bad] + b, decode) == History(a, decode)
  {
    if a == [] {
      assert a + [bad] + b == [bad] + b;
    } else {
      assert (a + [bad] + b)[0] == a[0] && (a + [bad] + b)[1..] == a[1..] + [bad] + b;
      assert forall i :: 0 <= i < |a[1..]| ==> a[1..][i] == a[i + 1];
      HistoryStopsAtBadLine(a[1..], bad, b, decode);
    }
  }

  /** `get_response_with_rag`: the transcript's history (none without a transcript) and the enhanced message. */
  method GetResponseWithRag(userMessage: string, transcript: Option<seq<string>>, decode: string -> Option<Json>,
                            outcome: SearchOutcome) returns (r: string)
    ensures transcript.None? ==> r == Enhance(userMessage, [], outcome)
    ensures transcript.Some? ==> r == Enhance(userMessage, History(transcript.value, decode), outcome)
  {
    var conversationHistory: seq<Json> := [];
    if transcript.Some? {
      conversationHistory := LoadHistory(transcript.value, decode);
    }
    return Enhance(userMessage, conversationHistory, outcome);
  }
}
