/**
 * The search front end: how one search hit is shown (`format_result`) and how a
 * line typed in interactive mode becomes a search, a `type:` filtered search or
 * the end of the session.
 */
module RagQuery {
  import opened PyStr
  import opened PyData

  // ---------------------------------------------------------------------------
  // One hit as shown to the user

  /** The icon that opens the header of a hit, chosen by its document type. */
  function Icon(docType: MetaValue): char {
    if docType == MStr("session") then '\U{1F4C4}'
    else if docType == MStr("workspace") then '\U{1F4C1}'
    else if docType == MStr("skill") then '\U{1F4DC}'
    else if docType == MStr("memory") then '\U{1F9E0}'
    else '\U{1F539}'
  }

  function DocType(m: Metadata): MetaValue {
    MetaGet(m, "type", MStr("unknown"))
  }

  function Source(m: Metadata): MetaValue {
    MetaGet(m, "source", MStr("?"))
  }

  /** The header line of a hit: a newline, the icon of its type, and what it names. */
  function Header(m: Metadata): string {
    var docType, source := DocType(m), Source(m);
    if docType == MStr("session") then
      "\n\U{1F4C4} Session " + Render(source) + " (chunk " + Render(MetaGet(m, "chunk_index", MStr("?"))) + ")"
    else if docType == MStr("workspace") then "\n\U{1F4C1} " + Render(source)
    else if docType == MStr("skill") then "\n\U{1F4DC} Skill: " + Render(MetaGet(m, "skill_name", source))
    else if docType == MStr("memory") then "\n\U{1F9E0} Memory: " + Render(source)
    else "\n\U{1F539} " + Render(docType) + ": " + Render(source)
  }

  /** Every header opens with a newline and the icon of the document's type. */
  lemma HeaderIcon(m: Metadata)
    ensures |Header(m)| >= 2 && Header(m)[0] == '\n' && Header(m)[1] == Icon(DocType(m))
  {
  }

  /**
   * Every header ends with the name it shows: the source, the skill's name for a
   * skill, or the chunk index in parentheses for a session.
   */
  lemma HeaderName(m: Metadata)
    ensures DocType(m) == MStr("session") ==>
      EndsWith(Header(m), " (chunk " + Render(MetaGet(m, "chunk_index", MStr("?"))) + ")")
    ensures DocType(m) == MStr("skill") ==> EndsWith(Header(m), Render(MetaGet(m, "skill_name", Source(m))))
    ensures DocType(m) != MStr("session") && DocType(m) != MStr("skill") ==> EndsWith(Header(m), Render(Source(m)))
  {
    var t, src := DocType(m), Source(m);
    if t == MStr("session") {
      var tail := " (chunk " + Render(MetaGet(m, "chunk_index", MStr("?"))) + ")";
      assert Header(m) == ("\n\U{1F4C4} Session " + Render(src)) + tail;
      EndsWithConcat("\n\U{1F4C4} Session " + Render(src), tail);
    } else if t == MStr("workspace") {
      EndsWithConcat("\n\U{1F4C1} ", Render(src));
    } else if t == MStr("skill") {
      EndsWithConcat("\n\U{1F4DC} Skill: ", Render(MetaGet(m, "skill_name", src)));
    } else if t == MStr("memory") {
      EndsWithConcat("\n\U{1F9E0} Memory: ", Render(src));
    } else {
      EndsWithConcat("\n\U{1F539} " + Render(t) + ": ", Render(src));
    }
  }

  /** A skill without a `skill_name` is shown under its source. */
  lemma SkillNameFallback(m: Metadata)
    requires DocType(m) == MStr("skill") && "skill_name" !in m
    ensures Header(m) == "\n\U{1F4DC} Skill: " + Render(Source(m))
    ensures Header(m) == Header(m["skill_name" := Source(m)])
  {
    var m' := m["skill_name" := Source(m)];
    assert DocType(m') == DocType(m) && Source(m') == Source(m);
  }

  predicate BothChunkKeys(m: Metadata) {
    "chunk_index" in m && "total_chunks" in m
  }

  /**
   * The cases in which building the info list raises a `TypeError`: slicing an
   * integer `ingested_at`, or adding one to a string `chunk_index`.
   */
  predicate InfoRaises(m: Metadata) {
    ("ingested_at" in m && m["ingested_at"].MInt?) || (BothChunkKeys(m) && m["chunk_index"].MStr?)
  }

  /**
   * The info list: `indexed <date>` exactly when `ingested_at` is present, then
   * `chunk <k+1>/<total>` exactly when both chunk keys are present.
   */
  function Info(m: Metadata): (r: Result<seq<string>>)
    ensures r.Err? <==> InfoRaises(m)
    ensures r.Err? ==> r.error == TypeError
    ensures r.Ok? ==> |r.value| == (if "ingested_at" in m then 1 else 0) + (if BothChunkKeys(m) then 1 else 0)
    ensures r.Ok? && "ingested_at" in m ==> r.value[0] == "indexed " + Take(m["ingested_at"].s, 10)
    ensures r.Ok? && BothChunkKeys(m) ==>
      r.value[|r.value| - 1] == "chunk " + IntToString(m["chunk_index"].i + 1) + "/" + Render(m["total_chunks"])
  {
    var dated: Result<seq<string>> :=
      if "ingested_at" !in m then Ok([])
      else match m["ingested_at"]
        case MStr(s) => Ok(["indexed " + Take(s, 10)])
        case MInt(_) => Err(TypeError);
    if dated.Err? then dated
    else if !BothChunkKeys(m) then dated
    else match m["chunk_index"]
      case MStr(_) => Err(TypeError)
      case MInt(i) => Ok(dated.value + ["chunk " + IntToString(i + 1) + "/" + Render(m["total_chunks"])])
  }

  /** ` (a, b)` for a non-empty info list, nothing for an empty one. */
  function InfoStr(info: seq<string>): (r: string)
    ensures r == "" <==> info == []
  {
    if info == [] then "" else " (" + Join(", ", info) + ")"
  }

  /** Each info entry sits in the info string in order, after the opening parenthesis. */
  lemma InfoStrHolds(info: seq<string>, k: nat)
    requires k < |info|
    ensures var r := InfoStr(info);
      StartsWith(r, " (") && EndsWith(r, ")") && OccursAt(r, info[k], 2 + JoinOffset(", ", info, k))
  {
    JoinAt(", ", info, k);
    OccursShift(" (", Join(", ", info), ")", info[k], JoinOffset(", ", info, k));
    StartsWithConcat(" (", Join(", ", info) + ")");
    EndsWithConcat(" (" + Join(", ", info), ")");
    assert InfoStr(info) == " (" + (Join(", ", info) + ")");
  }

  /** What `format_result` returns for a hit, or the exception it raises. */
  function FormattedResult(h: Hit): (r: Result<string>)
    ensures r.Err? <==> InfoRaises(h.metadata)
    ensures r.Ok? ==> StartsWith(r.value, Header(h.metadata))
                      && EndsWith(r.value, "\n" + Truncate(h.text, 1000))
  {
    match Info(h.metadata)
    case Err(e) => Err(e)
    case Ok(info) =>
      var r := Header(h.metadata) + InfoStr(info) + "\n" + Truncate(h.text, 1000);
      assert r == Header(h.metadata) + InfoStr(info) + ("\n" + Truncate(h.text, 1000));
      Ok(r)
  }

  /** `format_result(result, index)`; the index is not used by the source. */
  method FormatResult(result: Hit, index: int) returns (r: Result<string>)
    ensures r == FormattedResult(result)
  {
    var metadata := result.metadata;
    var docType := MetaGet(metadata, "type", MStr("unknown"));
    var source := MetaGet(metadata, "source", MStr("?"));
    var header: string;
    if docType == MStr("session") {
      var chunkIdx := MetaGet(metadata, "chunk_index", MStr("?"));
      header := "\n\U{1F4C4} Session " + Render(source) + " (chunk " + Render(chunkIdx) + ")";
    } else if docType == MStr("workspace") {
      header := "\n\U{1F4C1} " + Render(source);
    } else if docType == MStr("skill") {
      var skillName := MetaGet(metadata, "skill_name", source);
      header := "\n\U{1F4DC} Skill: " + Render(skillName);
    } else if docType == MStr("memory") {
      header := "\n\U{1F9E0} Memory: " + Render(source);
    } else {
      header := "\n\U{1F539} " + Render(docType) + ": " + Render(source);
    }
    var text := result.text;
    if |text| > 1000 {
      text := text[..1000] + "...";
    }
    var info: seq<string> := [];
    if "ingested_at" in metadata {
      if metadata["ingested_at"].MInt? {
        return Err(TypeError);
      }
      info := info + ["indexed " + Take(metadata["ingested_at"].s, 10)];
      assert info == ["indexed " + Take(metadata["ingested_at"].s, 10)];
    }
    if "chunk_index" in metadata && "total_chunks" in metadata {
      if metadata["chunk_index"].MStr? {
        return Err(TypeError);
      }
      info := info + ["chunk " + IntToString(metadata["chunk_index"].i + 1) + "/" + Render(metadata["total_chunks"])];
    }
    assert Info(metadata) == Ok(info);
    var infoStr := if info != [] then " (" + Join(", ", info) + ")" else "";
    return Ok(header + infoStr + "\n" + text);
  }

  /** A hit with no date and no chunk numbering is its header, a newline and its text. */
  lemma ResultWithoutInfo(h: Hit)
    requires "ingested_at" !in h.metadata && !BothChunkKeys(h.metadata)
    ensures FormattedResult(h) == Ok(Header(h.metadata) + "\n" + Truncate(h.text, 1000))
  {
    assert Info(h.metadata) == Ok([]);
    assert Header(h.metadata) + InfoStr([]) == Header(h.metadata);
  }

  lemma Parenthesized(header: string, a: string, b: string, text: string)
    ensures header + (" (" + (a + ", " + b) + ")") + "\n" + text == header + " (" + a + ", " + b + ")\n" + text
  {
  }

  /** A dated, numbered hit shows both entries, the date first. */
  lemma ResultWithInfo(h: Hit, date: string, index: int, total: MetaValue)
    requires "ingested_at" in h.metadata && h.metadata["ingested_at"] == MStr(date)
    requires "chunk_index" in h.metadata && h.metadata["chunk_index"] == MInt(index)
    requires "total_chunks" in h.metadata && h.metadata["total_chunks"] == total
    ensures var info := ["indexed " + Take(date, 10), "chunk " + IntToString(index + 1) + "/" + Render(total)];
      FormattedResult(h) == Ok(Header(h.metadata) + " (" + info[0] + ", " + info[1] + ")\n" + Truncate(h.text, 1000))
  {
    var m := h.metadata;
    var info := ["indexed " + Take(date, 10), "chunk " + IntToString(index + 1) + "/" + Render(total)];
    assert [info[0]] + [info[1]] == info;
    assert Info(m) == Ok(info);
    assert Join(", ", info) == info[0] + ", " + info[1] by {
      assert info[1..] == [info[1]];
    }
    Parenthesized(Header(m), info[0], info[1], Truncate(h.text, 1000));
  }

  // ---------------------------------------------------------------------------
  // A line typed in interactive mode

  /** What one input line asks for: nothing, the end of the session, or a search with an optional type filter. */
  datatype Command = Skip | Quit | Search(query: string, typeFilter: Option<string>)

  predicate IsQuitWord(s: string) {
    |s| <= 4 && (s == "quit" || s == "exit" || s == "q")
  }

  /**
   * The interactive loop's reading of a line: stripped; blank lines are skipped;
   * `quit`, `exit` and `q` in any case end the session; a `type:` word followed by
   * more text filters the search of that text by the type the word names.
   */
  function ParseCommand(line: string): Command {
    var query := Strip(line);
    if query == "" then Skip
    else if IsQuitWord(Lower(query)) then Quit
    else if StartsWith(query, "type:") then
      var parts := SplitOnce(query);
      if |parts| > 1 then Search(parts[1], Some(ReplaceAll(parts[0], "type:", "")))
      else Search(query, None)
    else Search(query, None)
  }

  /** Blank lines and only they are skipped; the quit words, in any case, and only they end the session. */
  lemma SkipAndQuit(line: string)
    ensures ParseCommand(line) == Skip <==> IsBlank(line)
    ensures ParseCommand(line) == Quit <==> !IsBlank(line) && IsQuitWord(Lower(Strip(line)))
  {
  }

  /** A search is for a non-empty, trimmed tail of the stripped line. */
  lemma SearchQuery(line: string)
    ensures var c := ParseCommand(line);
      c.Search? ==> c.query != [] && !IsSpace(c.query[0]) && !IsSpace(c.query[|c.query| - 1])
                    && EndsWith(Strip(line), c.query)
  {
    var query := Strip(line);
    if query != [] && !IsQuitWord(Lower(query)) && StartsWith(query, "type:") {
      var parts := SplitOnce(query);
      SplitOnceRestPart(query);
      if |parts| > 1 {
        assert parts[1][|parts[1]| - 1] == query[|query| - 1];
      }
    } else if query != [] {
      assert query[|query| - |query|..] == query;
    }
  }

  /** The query is the whole stripped line unless a `type:` filter was split off its front. */
  lemma SearchFilter(line: string)
    ensures var c := ParseCommand(line);
      c.Search? && c.typeFilter.Some? ==> StartsWith(Strip(line), "type:") && |c.query| < |Strip(line)|
    ensures var c := ParseCommand(line);
      c.Search? && c.typeFilter.None? ==> c.query == Strip(line)
  {
  }

  /** A line whose stripped, lower-cased text is a quit word ends the session. */
  lemma QuitLine(line: string)
    requires IsQuitWord(Lower(Strip(line)))
    ensures ParseCommand(line) == Quit
  {
    assert |Lower(Strip(line))| > 0;
  }

  /** A line with no whitespace around it that lower-cases to a quit word ends the session. */
  lemma QuitCommand(line: string)
    requires line != [] && !IsSpace(line[0]) && !IsSpace(line[|line| - 1]) && IsQuitWord(Lower(line))
    ensures ParseCommand(line) == Quit
  {
    StripClean(line);
  }

  /** Each quit word ends the session, typed in lower or in upper case. */
  lemma QuitWordsAnyCase(w: string)
    requires IsQuitWord(w)
    ensures ParseCommand(w) == Quit && ParseCommand(Upper(w)) == Quit
  {
    var u := Upper(w);
    assert Lower(u) == w by {
      assert |Lower(u)| == |w|;
      forall i | 0 <= i < |w| ensures Lower(u)[i] == w[i] {
        assert u[i] == UpperChar(w[i]);
      }
    }
    assert Lower(w) == w;
    assert u[0] == UpperChar(w[0]) && u[|u| - 1] == UpperChar(w[|w| - 1]);
    QuitCommand(w);
    QuitCommand(u);
  }

  /** No string longer than four characters lower-cases to a quit word. */
  lemma LongNotQuit(line: string)
    requires |line| > 4
    ensures !IsQuitWord(Lower(line))
  {
    assert |Lower(line)| == |line|;
  }

  lemma TypePrefix(tail: string)
    ensures StartsWith("type:" + tail, "type:")
  {
    assert ("type:" + tail)[..5] == "type:";
  }

  lemma TypeLinePrefix(word: string, rest: string)
    ensures StartsWith("type:" + word + " " + rest, "type:")
  {
    assert ("type:" + word + " " + rest)[..5] == "type:";
  }

  /** A trimmed `type:` line that splits in two is a filtered search for its second part. */
  lemma FilteredCommand(line: string, first: string, rest: string)
    requires Strip(line) == line && line != [] && !IsQuitWord(Lower(line)) && StartsWith(line, "type:")
    requires SplitOnce(line) == [first, rest]
    ensures ParseCommand(line) == Search(rest, Some(ReplaceAll(first, "type:", "")))
  {
  }

  /** A word of no whitespace after `type:` leaves the whole first word free of whitespace. */
  lemma TypedWord(word: string)
    requires forall j :: 0 <= j < |word| ==> !IsSpace(word[j])
    ensures var first := "type:" + word; forall j :: 0 <= j < |first| ==> !IsSpace(first[j])
  {
    var first := "type:" + word;
    forall j | 0 <= j < |first| ensures !IsSpace(first[j]) {
      if j >= 5 { assert first[j] == word[j - 5]; }
    }
  }

  /** A line that starts with a non-space word and ends in a non-space rest is already stripped. */
  lemma StrippedLine(first: string, rest: string)
    requires first != [] && !IsSpace(first[0]) && rest != [] && !IsSpace(rest[|rest| - 1])
    ensures Strip(first + " " + rest) == first + " " + rest
  {
    var line := first + " " + rest;
    assert line[0] == first[0] && line[|line| - 1] == rest[|rest| - 1];
    StripClean(line);
  }

  /** `type:<word> <rest>` searches for the rest, filtered by the word. */
  lemma TypeFilterParsed(word: string, rest: string)
    requires forall j :: 0 <= j < |word| ==> !IsSpace(word[j])
    requires !Contains(word, "type:")
    requires rest != [] && !IsSpace(rest[0]) && !IsSpace(rest[|rest| - 1])
    ensures ParseCommand("type:" + word + " " + rest) == Search(rest, Some(word))
  {
    var first := "type:" + word;
    var line := first + " " + rest;
    TypedWord(word);
    StrippedLine(first, rest);
    LongNotQuit(line);
    TypeLinePrefix(word, rest);
    SplitOnceWordRest(first, rest);
    SplitLeadingSeparator(word, "type:");
    FilteredCommand(line, first, rest);
  }

  /** A trimmed `type:` line of one word is searched for as it is, without a filter. */
  lemma UnfilteredCommand(line: string)
    requires Strip(line) == line && line != [] && !IsQuitWord(Lower(line)) && StartsWith(line, "type:")
    requires SplitOnce(line) == [line]
    ensures ParseCommand(line) == Search(line, None)
  {
  }

  /** A `type:` word with nothing after it is searched for as it is, without a filter. */
  lemma TypeWordAlone(word: string)
    requires forall j :: 0 <= j < |word| ==> !IsSpace(word[j])
    ensures ParseCommand("type:" + word) == Search("type:" + word, None)
  {
    var line := "type:" + word;
    assert Strip(line) == line by {
      assert line[0] == 't' && !IsSpace(line[|line| - 1]) by {
        if word != [] { assert line[|line| - 1] == word[|word| - 1]; }
      }
      StripClean(line);
    }
    LongNotQuit(line);
    TypePrefix(word);
    TypedWord(word);
    SplitOnceWord(line);
    UnfilteredCommand(line);
  }

  // ---------------------------------------------------------------------------
  // The interactive session

  /** The commands the input lines ask for, one per line. */
  function Commands(lines: seq<string>): (r: seq<Command>)
    ensures |r| == |lines|
  {
    if lines == [] then [] else Commands(lines[..|lines| - 1]) + [ParseCommand(lines[|lines| - 1])]
  }

  /** Command `i` is what line `i` asks for. */
  lemma {:induction false} CommandsAt(lines: seq<string>, i: nat)
    requires i < |lines|
    ensures Commands(lines)[i] == ParseCommand(lines[i])
  {
    if i < |lines| - 1 {
      CommandsAt(lines[..|lines| - 1], i);
    }
  }

  /** The commands of the first `k` lines are the first `k` commands. */
  lemma {:induction false} CommandsPrefix(lines: seq<string>, k: nat)
    requires k <= |lines|
    ensures Commands(lines[..k]) == Commands(lines)[..k]
  {
    if k < |lines| {
      var init := lines[..|lines| - 1];
      assert init[..k] == lines[..k];
      CommandsPrefix(init, k);
    } else {
      assert lines[..k] == lines;
    }
  }

  /** The searches a run of commands issues, in order, up to the first quit. */
  function Issued(commands: seq<Command>): seq<Command> {
    if commands == [] then []
    else match commands[0]
      case Skip => Issued(commands[1..])
      case Quit => []
      case Search(q, f) => [Search(q, f)] + Issued(commands[1..])
  }

  /** The searches an interactive session issues for the given input lines. */
  function Searches(lines: seq<string>): seq<Command> {
    Issued(Commands(lines))
  }

  /** The reading loop of `interactive_search`, without the store and the console. */
  method InteractiveSearch(lines: seq<string>) returns (searches: seq<Command>)
    ensures searches == Searches(lines)
  {
    ghost var commands := Commands(lines);
    searches := [];
    var k := 0;
    while k < |lines|
      invariant 0 <= k <= |lines|
      invariant Issued(commands) == searches + Issued(commands[k..])
    {
      var command := ParseCommand(lines[k]);
      CommandsAt(lines, k);
      IssuedNext(commands, k);
      if command == Quit {
        assert Issued(commands) == searches by {
          assert searches + [] == searches;
        }
        return;
      }
      if command.Search? {
        searches := searches + [command];
      }
      k := k + 1;
    }
  }

  lemma IssuedNext(commands: seq<Command>, k: nat)
    requires k < |commands|
    ensures commands[k] == Quit ==> Issued(commands[k..]) == []
    ensures commands[k] == Skip ==> Issued(commands[k..]) == Issued(commands[k + 1..])
    ensures commands[k].Search? ==> Issued(commands[k..]) == [commands[k]] + Issued(commands[k + 1..])
  {
    assert commands[k..][0] == commands[k] && commands[k..][1..] == commands[k + 1..];
  }

  /** Every issued command is a search, and each search command before the first quit is issued. */
  lemma {:induction false} IssuedSearches(commands: seq<Command>)
    ensures forall k :: 0 <= k < |Issued(commands)| ==> Issued(commands)[k].Search?
  {
    if commands != [] {
      IssuedSearches(commands[1..]);
    }
  }

  /** Nothing asked for after a quit is searched for. */
  lemma {:induction false} QuitEndsSession(commands: seq<Command>, k: nat)
    requires k < |commands| && commands[k] == Quit
    ensures Issued(commands) == Issued(commands[..k])
  {
    if k > 0 {
      assert commands[1..][..k - 1] == commands[..k][1..];
      QuitEndsSession(commands[1..], k - 1);
    }
  }

  /** Skipped lines issue no search and change nothing around them. */
  lemma {:induction false} SkipsIgnored(before: seq<Command>, after: seq<Command>)
    ensures Issued(before + [Skip] + after) == Issued(before + after)
  {
    if before == [] {
      assert ([Skip] + after)[0] == Skip && ([Skip] + after)[1..] == after;
      assert before + [Skip] + after == [Skip] + after && before + after == after;
    } else {
      assert (before + [Skip] + after)[1..] == before[1..] + [Skip] + after;
      assert (before + after)[1..] == before[1..] + after;
      SkipsIgnored(before[1..], after);
    }
  }

  /** A session that types a quit word sends none of the lines after it. */
  lemma QuitLineEndsSession(lines: seq<string>, k: nat)
    requires k < |lines| && IsQuitWord(Lower(Strip(lines[k])))
    ensures Searches(lines) == Searches(lines[..k])
  {
    QuitLine(lines[k]);
    CommandsAt(lines, k);
    QuitEndsSession(Commands(lines), k);
    CommandsPrefix(lines, k);
  }
}
