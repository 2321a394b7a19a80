/**
 * Session ingestion: reading a session transcript (one JSON event per line) down
 * to its messages, rendering message content as text, summarising a session and
 * cutting its messages into overlapping windows that become store documents.
 */
module IngestSessions {
  import opened PyStr
  import opened PyData

  /** A message record: `role` and `content` from the event's `message`, the rest from the event. */
  datatype Message = Message(role: Json, content: Json, timestamp: Json, id: Json, sessionKey: Json)

  // ---------------------------------------------------------------------------
  // Reading a transcript

  /** What one line of a transcript does: nothing, a message record, or the end of reading. */
  datatype LineOutcome = Skip | Keep(message: Message) | Halt

  /**
   * One line, given the JSON decoder: blank and undecodable lines are skipped; an
   * event that is not an object, or a `message` event whose `message` is not an object,
   * raises `AttributeError`, which ends the reading of the whole file; only events of
   * type `message` give a record.
   */
  function ClassifyLine(line: string, decode: string -> Option<Json>): LineOutcome {
    var t := Strip(line);
    if t == "" then Skip
    else match decode(t)
      case None => Skip
      case Some(event) =>
        if !event.JObj? then Halt
        else if Get(event.members, "type") != JStr("message") then Skip
        else
          var msg := GetOr(event.members, "message", JObj([]));
          if !msg.JObj? then Halt
          else Keep(Message(Get(msg.members, "role"), Get(msg.members, "content"),
                            Get(event.members, "timestamp"), Get(event.members, "id"),
                            Get(event.members, "sessionKey")))
  }

  /** `ClassifyLine` with the decoder fixed. */
  function Classifier(decode: string -> Option<Json>): string -> LineOutcome {
    line => ClassifyLine(line, decode)
  }

  /** The records a classification of `lines` keeps: those of the lines before the first halting line, in order. */
  function Collect(lines: seq<string>, classify: string -> LineOutcome): seq<Message> {
    if lines == [] then []
    else match classify(lines[0])
      case Skip => Collect(lines[1..], classify)
      case Keep(m) => [m] + Collect(lines[1..], classify)
      case Halt => []
  }

  predicate HaltsBy(lines: seq<string>, classify: string -> LineOutcome) {
    exists i :: 0 <= i < |lines| && classify(lines[i]).Halt?
  }

  /** The records read from `lines`. */
  function Parse(lines: seq<string>, decode: string -> Option<Json>): seq<Message> {
    Collect(lines, Classifier(decode))
  }

  /** Whether some line ends the reading. */
  predicate Halts(lines: seq<string>, decode: string -> Option<Json>) {
    HaltsBy(lines, Classifier(decode))
  }

  /** How `Collect` proceeds at line `k`. */
  lemma CollectAt(lines: seq<string>, k: nat, classify: string -> LineOutcome)
    requires k < |lines|
    ensures Collect(lines[k..], classify) == match classify(lines[k])
      case Skip => Collect(lines[k + 1..], classify)
      case Keep(m) => [m] + Collect(lines[k + 1..], classify)
      case Halt => []
  {
    assert lines[k..][0] == lines[k] && lines[k..][1..] == lines[k + 1..];
  }

  /**
   * The body of the loop of `parse_jsonl` for line number `lineNum`. The session
   * header on line 1 is skipped by its own test; with or without it such a line
   * gives no record.
   */
  method ReadLine(raw: string, lineNum: nat, decode: string -> Option<Json>) returns (outcome: LineOutcome)
    ensures outcome == ClassifyLine(raw, decode)
  {
    var line := Strip(raw);
    if line == "" {
      return Skip;
    }
    var decoded := decode(line);
    if decoded.None? {
      return Skip;
    }
    var event := decoded.value;
    if !event.JObj? {
      return Halt;
    }
    if lineNum == 1 && Get(event.members, "type") == JStr("session") {
      return Skip;
    }
    if Get(event.members, "type") == JStr("message") {
      var msgObj := GetOr(event.members, "message", JObj([]));
      if !msgObj.JObj? {
        return Halt;
      }
      return Keep(Message(Get(msgObj.members, "role"), Get(msgObj.members, "content"),
                          Get(event.members, "timestamp"), Get(event.members, "id"),
                          Get(event.members, "sessionKey")));
    }
    return Skip;
  }

  /** `parse_jsonl` over the lines of a file. */
  method ParseJsonl(lines: seq<string>, decode: string -> Option<Json>) returns (messages: seq<Message>)
    ensures messages == Parse(lines, decode)
  {
    ghost var classify := Classifier(decode);
    messages := [];
    var k := 0;
    assert lines[0..] == lines;
    while k < |lines|
      invariant 0 <= k <= |lines|
      invariant messages + Collect(lines[k..], classify) == Collect(lines, classify)
    {
      var outcome := ReadLine(lines[k], k + 1, decode);
      CollectStep(lines, k, classify, messages, outcome);
      if outcome.Halt? {
        break;
      }
      if outcome.Keep? {
        messages := messages + [outcome.message];
      }
      k := k + 1;
    }
    if k == |lines| {
      assert lines[k..] == [];
    }
  }

  /** One step of the loop of `parse_jsonl`: what line `k` does to the records read so far. */
  lemma CollectStep(lines: seq<string>, k: nat, classify: string -> LineOutcome, messages: seq<Message>, outcome: LineOutcome)
    requires k < |lines| && classify(lines[k]) == outcome
    requires messages + Collect(lines[k..], classify) == Collect(lines, classify)
    ensures outcome.Halt? ==> messages == Collect(lines, classify)
    ensures outcome.Skip? ==> messages + Collect(lines[k + 1..], classify) == Collect(lines, classify)
    ensures outcome.Keep? ==> (messages + [outcome.message]) + Collect(lines[k + 1..], classify) == Collect(lines, classify)
  {
    CollectAt(lines, k, classify);
    if outcome.Keep? {
      assert messages + [outcome.message] + Collect(lines[k + 1..], classify)
          == messages + ([outcome.message] + Collect(lines[k + 1..], classify));
    } else if outcome.Halt? {
      assert messages + [] == messages;
    }
  }

  /** When the first line does not halt, the lines halt exactly when the rest do. */
  lemma HaltsTail(a: seq<string>, classify: string -> LineOutcome)
    requires a != [] && !classify(a[0]).Halt?
    ensures HaltsBy(a, classify) <==> HaltsBy(a[1..], classify)
  {
    if HaltsBy(a[1..], classify) {
      var i :| 0 <= i < |a[1..]| && classify(a[1..][i]).Halt?;
      assert a[i + 1] == a[1..][i];
    }
    if HaltsBy(a, classify) {
      var i :| 0 <= i < |a| && classify(a[i]).Halt?;
      assert i > 0 && a[1..][i - 1] == a[i];
    }
  }

  lemma {:induction false} CollectConcat(a: seq<string>, b: seq<string>, classify: string -> LineOutcome)
    ensures Collect(a + b, classify)
            == if HaltsBy(a, classify) then Collect(a, classify) else Collect(a, classify) + Collect(b, classify)
  {
    if a == [] {
      assert a + b == b;
    } else {
      assert (a + b)[0] == a[0] && (a + b)[1..] == a[1..] + b;
      CollectConcat(a[1..], b, classify);
      if classify(a[0]).Halt? {
        assert HaltsBy(a, classify);
      } else {
        HaltsTail(a, classify);
      }
    }
  }

  /** Reading a file in two parts: the second counts only when the first did not halt. */
  lemma ParseConcat(a: seq<string>, b: seq<string>, decode: string -> Option<Json>)
    ensures Parse(a + b, decode) == if Halts(a, decode) then Parse(a, decode) else Parse(a, decode) + Parse(b, decode)
  {
    CollectConcat(a, b, Classifier(decode));
  }

  lemma CollectDropSkipped(a: seq<string>, line: string, b: seq<string>, classify: string -> LineOutcome)
    requires classify(line).Skip?
    ensures Collect(a + [line] + b, classify) == Collect(a + b, classify)
  {
    CollectConcat(a, [line] + b, classify);
    CollectConcat(a, b, classify);
    assert ([line] + b)[0] == line && ([line] + b)[1..] == b;
    assert a + [line] + b == a + ([line] + b);
  }

  /** A blank or undecodable line, or an event of another type, can be dropped without changing the records. */
  lemma DropSkippedLine(a: seq<string>, line: string, b: seq<string>, decode: string -> Option<Json>)
    requires ClassifyLine(line, decode).Skip?
    ensures Parse(a + [line] + b, decode) == Parse(a + b, decode)
  {
    assert Classifier(decode)(line).Skip?;
    CollectDropSkipped(a, line, b, Classifier(decode));
  }

  lemma CollectHalting(a: seq<string>, line: string, b: seq<string>, classify: string -> LineOutcome)
    requires classify(line).Halt?
    ensures Collect(a + [line] + b, classify) == Collect(a, classify)
  {
    CollectConcat(a, [line] + b, classify);
    assert ([line] + b)[0] == line;
    assert a + [line] + b == a + ([line] + b);
  }

  /** A halting line ends the reading: nothing after it is read. */
  lemma HaltingLine(a: seq<string>, line: string, b: seq<string>, decode: string -> Option<Json>)
    requires ClassifyLine(line, decode).Halt?
    ensures Parse(a + [line] + b, decode) == Parse(a, decode)
  {
    assert Classifier(decode)(line).Halt?;
    CollectHalting(a, line, b, Classifier(decode));
  }

  /** A line is skipped when it is blank, does not decode, or holds an object event of a type other than `message` (such as the `session` header). */
  lemma SkippedLines(line: string, decode: string -> Option<Json>)
    ensures IsBlank(line) ==> ClassifyLine(line, decode).Skip?
    ensures !IsBlank(line) && decode(Strip(line)).None? ==> ClassifyLine(line, decode).Skip?
    ensures (!IsBlank(line) && decode(Strip(line)).Some? && decode(Strip(line)).value.JObj?
             && Get(decode(Strip(line)).value.members, "type") != JStr("message"))
            ==> ClassifyLine(line, decode).Skip?
  {
  }

  /**
   * A line gives a record exactly when it holds a `message` event whose `message` is
   * an object; the record takes role and content from that message and timestamp,
   * id and session key from the event.
   */
  lemma KeptLine(line: string, decode: string -> Option<Json>)
    ensures var e := decode(Strip(line));
      ClassifyLine(line, decode).Keep? <==>
        Strip(line) != "" && e.Some? && e.value.JObj? && Get(e.value.members, "type") == JStr("message")
        && GetOr(e.value.members, "message", JObj([])).JObj?
    ensures ClassifyLine(line, decode).Keep? ==>
      var ev := decode(Strip(line)).value.members;
      var msg := GetOr(ev, "message", JObj([])).members;
      ClassifyLine(line, decode).message
        == Message(Get(msg, "role"), Get(msg, "content"), Get(ev, "timestamp"), Get(ev, "id"), Get(ev, "sessionKey"))
  {
  }

  /** Every record kept comes from a line the classification keeps it for. */
  lemma {:induction false} CollectFrom(lines: seq<string>, classify: string -> LineOutcome)
    ensures forall i :: 0 <= i < |Collect(lines, classify)| ==>
              exists j :: 0 <= j < |lines| && classify(lines[j]) == Keep(Collect(lines, classify)[i])
  {
    if lines != [] {
      CollectFrom(lines[1..], classify);
      var r, tail := Collect(lines, classify), Collect(lines[1..], classify);
      assert classify(lines[0]).Skip? ==> r == tail;
      assert classify(lines[0]).Keep? ==> r == [classify(lines[0]).message] + tail;
      assert classify(lines[0]).Halt? ==> r == [];
      forall i | 0 <= i < |r|
        ensures exists j :: 0 <= j < |lines| && classify(lines[j]) == Keep(r[i])
      {
        if classify(lines[0]).Keep? && i == 0 {
          assert classify(lines[0]) == Keep(r[0]);
        } else {
          var i' := if classify(lines[0]).Keep? then i - 1 else i;
          assert r[i] == tail[i'];
          var j :| 0 <= j < |lines[1..]| && classify(lines[1..][j]) == Keep(tail[i']);
          assert lines[1..][j] == lines[j + 1];
        }
      }
    } else {
      assert Collect(lines, classify) == [];
    }
  }

  /** Every record read comes from a line holding a `message` event (so never from a `session` header). */
  lemma ParsedFromMessages(lines: seq<string>, decode: string -> Option<Json>)
    ensures forall m :: m in Parse(lines, decode) ==>
              exists j :: 0 <= j < |lines| && ClassifyLine(lines[j], decode) == Keep(m)
  {
    CollectFrom(lines, Classifier(decode));
    forall m | m in Parse(lines, decode)
      ensures exists j :: 0 <= j < |lines| && ClassifyLine(lines[j], decode) == Keep(m)
    {
      var i :| 0 <= i < |Parse(lines, decode)| && Parse(lines, decode)[i] == m;
      var j :| 0 <= j < |lines| && Classifier(decode)(lines[j]) == Keep(m);
    }
  }

  lemma {:induction false} CollectLength(lines: seq<string>, classify: string -> LineOutcome)
    ensures |Collect(lines, classify)| <= |lines|
  {
    if lines != [] {
      CollectLength(lines[1..], classify);
    }
  }

  /** No more records than lines. */
  lemma ParseLength(lines: seq<string>, decode: string -> Option<Json>)
    ensures |Parse(lines, decode)| <= |lines|
  {
    CollectLength(lines, Classifier(decode));
  }

  // ---------------------------------------------------------------------------
  // Session key and summary

  /** `extract_session_key`: every `.jsonl` in the file name removed. */
  function SessionKey(fileName: string): string {
    ReplaceAll(fileName, ".jsonl", "")
  }

  /** A dot-free name gets its `.jsonl` extension removed and nothing else. */
  lemma SessionKeyOfName(name: string)
    requires '.' !in name
    ensures SessionKey(name + ".jsonl") == name
  {
    var s := name + ".jsonl";
    assert OccursAt(s, ".jsonl", |name|) by { assert s[|name|..|name| + 6] == ".jsonl"; }
    forall j | 0 <= j < |name| ensures !OccursAt(s, ".jsonl", j) {
      assert s[j] == name[j] != '.';
    }
    var i := Find(s, ".jsonl");
    assert i == |name|;
    assert s[..i] == name && s[i + 6..] == "";
    assert FindFrom("", ".jsonl", 0) == -1;
    assert ReplaceAll("", ".jsonl", "") == "";
    assert name + "" + "" == name;
  }

  /** Whether some message has the role `role` (the `any(...)` of the summary). */
  function AnyRole(ms: seq<Message>, role: string): (b: bool)
    ensures b <==> exists i :: 0 <= i < |ms| && ms[i].role == JStr(role)
  {
    if ms == [] then false
    else if ms[0].role == JStr(role) then true
    else
      var b := AnyRole(ms[1..], role);
      assert b ==> exists i :: 0 <= i < |ms| && ms[i].role == JStr(role) by {
        if b {
          var i :| 0 <= i < |ms[1..]| && ms[1..][i].role == JStr(role);
          assert ms[i + 1] == ms[1..][i];
        }
      }
      assert (exists i :: 0 <= i < |ms| && ms[i].role == JStr(role)) ==> b by {
        if exists i :: 0 <= i < |ms| && ms[i].role == JStr(role) {
          var i :| 0 <= i < |ms| && ms[i].role == JStr(role);
          assert i > 0 && ms[1..][i - 1] == ms[i];
        }
      }
      b
  }

  datatype SessionSummary = SessionSummary(startTime: Json, endTime: Json, totalMessages: nat,
                                           hasSystem: bool, hasUser: bool, hasAssistant: bool)

  /**
   * `extract_session_metadata`: nothing (an empty dict) for no messages; otherwise
   * the first and last timestamps, the count, and which roles occur.
   */
  function SessionMetadata(ms: seq<Message>, sessionKey: string): (r: Option<SessionSummary>)
    ensures r.None? <==> ms == []
    ensures r.Some? ==>
      r.value.startTime == ms[0].timestamp && r.value.endTime == ms[|ms| - 1].timestamp
      && r.value.totalMessages == |ms|
      && (r.value.hasSystem <==> exists i :: 0 <= i < |ms| && ms[i].role == JStr("system"))
      && (r.value.hasUser <==> exists i :: 0 <= i < |ms| && ms[i].role == JStr("user"))
      && (r.value.hasAssistant <==> exists i :: 0 <= i < |ms| && ms[i].role == JStr("assistant"))
  {
    if ms == [] then None
    else Some(SessionSummary(ms[0].timestamp, ms[|ms| - 1].timestamp, |ms|,
                             AnyRole(ms, "system"), AnyRole(ms, "user"), AnyRole(ms, "assistant")))
  }

  // ---------------------------------------------------------------------------
  // Rendering message content

  /**
   * The text one content item adds: nothing for a non-object, a `thinking` item or an
   * item of another type; the `text` value of a text item (any JSON value; the join
   * rejects non-strings); a tool call with its arguments cut to 100 characters; a tool
   * result stripped and cut to 500 characters plus `...`.
   */
  function ItemPart(item: Json): Option<Json> {
    if !item.JObj? then None
    else
      var ps := item.members;
      var itemType := GetOr(ps, "type", JStr(""));
      if itemType == JStr("text") then Some(GetOr(ps, "text", JStr("")))
      else if itemType == JStr("toolCall") then
        Some(JStr("[Tool: " + ToStr(GetOr(ps, "name", JStr("unknown"))) + "("
                  + Take(ToStr(GetOr(ps, "arguments", JStr(""))), 100) + ")]"))
      else if itemType == JStr("toolResult") then
        Some(JStr("[Tool Result: " + Truncate(Strip(ToStr(GetOr(ps, "text", GetOr(ps, "result", JStr(""))))), 500) + "]"))
      else None
  }

  /** What `part` gives for the items, in order, leaving out the items it gives nothing for. */
  function Gather(items: seq<Json>, part: Json -> Option<Json>): seq<Json> {
    if items == [] then []
    else
      var last := part(items[|items| - 1]);
      Gather(items[..|items| - 1], part) + (if last.Some? then [last.value] else [])
  }

  /** The texts the items of a content list add, in order. */
  function Parts(items: seq<Json>): seq<Json> {
    Gather(items, ItemPart)
  }

  /** What `format_content` gives for `content`. */
  function ContentText(content: Json): Result<string> {
    match content
    case JStr(s) => Ok(s)
    case JArr(items) => JoinValues("\n", Parts(items))
    case _ => Ok(Take(ToStr(content), 500))
  }

  /** `format_content`. */
  method FormatContent(content: Json) returns (r: Result<string>)
    ensures r == ContentText(content)
  {
    if content.JStr? {
      return Ok(content.s);
    }
    if content.JArr? {
      var items := content.items;
      var texts: seq<Json> := [];
      var k := 0;
      while k < |items|
        invariant 0 <= k <= |items|
        invariant texts == Gather(items[..k], ItemPart)
      {
        assert items[..k + 1][..k] == items[..k];
        var part := ItemPart(items[k]);
        if part.Some? {
          texts := texts + [part.value];
        }
        k := k + 1;
      }
      assert items[..k] == items;
      return JoinValues("\n", texts);
    }
    return Ok(Take(ToStr(content), 500));
  }

  lemma {:induction false} GatherSkip(a: seq<Json>, item: Json, b: seq<Json>, part: Json -> Option<Json>)
    requires part(item).None?
    ensures Gather(a + [item] + b, part) == Gather(a + b, part)
    decreases |b|
  {
    if b == [] {
      assert a + [item] + b == a + [item] && (a + [item])[..|a|] == a;
      assert a + b == a;
    } else {
      var n := |b|;
      assert (a + [item] + b)[..|a| + n] == a + [item] + b[..n - 1];
      assert (a + b)[..|a| + n - 1] == a + b[..n - 1];
      GatherSkip(a, item, b[..n - 1], part);
    }
  }

  /** Items that add nothing (non-objects, `thinking` items) can be left out. */
  lemma PartsSkip(a: seq<Json>, item: Json, b: seq<Json>)
    requires ItemPart(item).None?
    ensures Parts(a + [item] + b) == Parts(a + b)
  {
    GatherSkip(a, item, b, ItemPart);
  }

  /** The content item `{"type": "text", "text": t}`. */
  function TextItemOf(t: string): Json {
    JObj([("type", JStr("text")), ("text", JStr(t))])
  }

  /** A content list of text items renders as those texts joined by newlines. */
  lemma TextItemsJoined(texts: seq<string>, items: seq<Json>)
    requires |items| == |texts| && forall i :: 0 <= i < |texts| ==> items[i] == TextItemOf(texts[i])
    ensures ContentText(JArr(items)) == Ok(Join("\n", texts))
  {
    var values := seq(|texts|, i requires 0 <= i < |texts| => JStr(texts[i]));
    TextParts(texts, items, values);
    TextContent(texts, items, values);
  }

  lemma TextContent(texts: seq<string>, items: seq<Json>, values: seq<Json>)
    requires values == seq(|texts|, i requires 0 <= i < |texts| => JStr(texts[i]))
    requires Parts(items) == values
    ensures ContentText(JArr(items)) == Ok(Join("\n", texts))
  {
    TextValues(texts, values);
  }

  lemma TextParts(texts: seq<string>, items: seq<Json>, values: seq<Json>)
    requires |items| == |texts| && forall i :: 0 <= i < |texts| ==> items[i] == TextItemOf(texts[i])
    requires values == seq(|texts|, i requires 0 <= i < |texts| => JStr(texts[i]))
    ensures Parts(items) == values
  {
    forall i | 0 <= i < |texts| ensures ItemPart(items[i]) == Some(values[i]) {
      TextItem(texts[i]);
    }
    GatherAll(items, ItemPart, values);
  }

  lemma TextValues(texts: seq<string>, values: seq<Json>)
    requires values == seq(|texts|, i requires 0 <= i < |texts| => JStr(texts[i]))
    ensures StringsOf(values) == Some(texts)
  {
    assert StringsOf(values).value == texts;
  }

  lemma TextItem(t: string)
    ensures ItemPart(TextItemOf(t)) == Some(JStr(t))
  {
    var ps := [("type", JStr("text")), ("text", JStr(t))];
    assert ps[0].0 == "type" != "text" && ps[1..] == [("text", JStr(t))];
    assert Lookup(ps, "text") == Lookup(ps[1..], "text");
  }

  /** Items that each give a value gather to those values. */
  lemma {:induction false} GatherAll(items: seq<Json>, part: Json -> Option<Json>, values: seq<Json>)
    requires |items| == |values|
    requires forall i :: 0 <= i < |items| ==> part(items[i]) == Some(values[i])
    ensures Gather(items, part) == values
    decreases |items|
  {
    if items != [] {
      var n := |items|;
      GatherAll(items[..n - 1], part, values[..n - 1]);
      assert values == values[..n - 1] + [values[n - 1]];
    }
  }

  /**
   * A tool result is its `text` (or else its `result`) as a stripped string, cut to
   * 500 characters plus `...` when longer, between the fixed brackets.
   */
  lemma ToolResultBound(item: Json)
    requires item.JObj? && GetOr(item.members, "type", JStr("")) == JStr("toolResult")
    ensures var r := Strip(ToStr(GetOr(item.members, "text", GetOr(item.members, "result", JStr("")))));
      ItemPart(item) == Some(JStr("[Tool Result: " + (if |r| > 500 then r[..500] + "..." else r) + "]"))
    ensures ItemPart(item).Some? && ItemPart(item).value.JStr?
    ensures |ItemPart(item).value.s| <= |"[Tool Result: "| + 503 + 1
  {
    var r := Strip(ToStr(GetOr(item.members, "text", GetOr(item.members, "result", JStr("")))));
    TruncateBudget(r, 500);
  }

  /** Content that is neither a string nor a list renders as the first 500 characters of its `str`. */
  lemma OtherContent(content: Json)
    requires !content.JStr? && !content.JArr?
    ensures ContentText(content).Ok? && |ContentText(content).value| <= 500
    ensures StartsWith(ToStr(content), ContentText(content).value)
    ensures |ContentText(content).value| == if |ToStr(content)| < 500 then |ToStr(content)| else 500
    ensures content == JNull ==> ContentText(content) == Ok("None")
  {
  }

  // ---------------------------------------------------------------------------
  // Windows of messages

  /** The window starts `from, from + step, ...` below `n`. */
  function StartsFrom(from: nat, n: nat, step: nat): seq<nat>
    requires step > 0
    decreases n - from
  {
    if from >= n then [] else [from] + StartsFrom(from + step, n, step)
  }

  /** `range(0, n, step)` for a positive step. */
  function Starts(n: nat, step: nat): seq<nat>
    requires step > 0
  {
    StartsFrom(0, n, step)
  }

  lemma {:induction false} StartsFromAt(from: nat, n: nat, step: nat, k: nat)
    requires step > 0 && k < |StartsFrom(from, n, step)|
    ensures StartsFrom(from, n, step)[k] == from + k * step < n
    decreases n - from
  {
    if k > 0 {
      StartsFromAt(from + step, n, step, k - 1);
      assert (from + step) + (k - 1) * step == from + k * step;
    }
  }

  lemma {:induction false} StartsFromLength(from: nat, n: nat, step: nat)
    requires step > 0
    ensures from + |StartsFrom(from, n, step)| * step >= n
    decreases n - from
  {
    if from < n {
      StartsFromLength(from + step, n, step);
      var m := |StartsFrom(from + step, n, step)|;
      assert from + (m + 1) * step == (from + step) + m * step;
    }
  }

  /** The starts are the multiples of the step below `n`, and the next multiple is not below `n`. */
  lemma StartsShape(n: nat, step: nat)
    requires step > 0
    ensures forall k :: 0 <= k < |Starts(n, step)| ==> Starts(n, step)[k] == k * step < n
    ensures |Starts(n, step)| * step >= n
  {
    forall k | 0 <= k < |Starts(n, step)| ensures Starts(n, step)[k] == k * step < n {
      StartsFromAt(0, n, step, k);
    }
    StartsFromLength(0, n, step);
  }

  /** 45 messages with a window of 20 and an overlap of 5 start windows at 0, 15 and 30. */
  lemma StartsExample()
    ensures Starts(45, 20 - 5) == [0, 15, 30]
  {
    assert StartsFrom(45, 45, 15) == [];
    assert StartsFrom(30, 45, 15) == [30];
    assert StartsFrom(15, 45, 15) == [15, 30];
  }

  /** `messages[s:s + contextWindow]`. */
  function Window(messages: seq<Message>, s: nat, contextWindow: int): seq<Message> {
    Slice(messages, s, s + contextWindow)
  }

  /** A window holds at most `contextWindow` messages, starting with message `s`. */
  lemma WindowShape(messages: seq<Message>, s: nat, contextWindow: int)
    requires s < |messages| && contextWindow > 0
    ensures |Window(messages, s, contextWindow)| <= contextWindow
    ensures Window(messages, s, contextWindow) == messages[s..if s + contextWindow <= |messages| then s + contextWindow else |messages|]
  {
  }

  /**
   * Consecutive windows overlap: with `step = contextWindow - overlap`, the last `overlap`
   * messages of a full window are the first `overlap` messages of the next.
   */
  lemma WindowsOverlap(messages: seq<Message>, s: nat, contextWindow: int, overlap: int)
    requires 0 <= overlap < contextWindow && s + contextWindow <= |messages|
    ensures var step := contextWindow - overlap;
      Window(messages, s, contextWindow)[step..] == Window(messages, s + step, contextWindow)[..overlap]
  {
    var step := contextWindow - overlap;
    var n := |messages|;
    var hi := if s + step + contextWindow <= n then s + step + contextWindow else n;
    assert Window(messages, s, contextWindow) == messages[s..s + contextWindow];
    assert Window(messages, s + step, contextWindow) == messages[s + step..hi];
    assert messages[s..s + contextWindow][step..] == messages[s + step..s + contextWindow];
    assert messages[s + step..hi][..overlap] == messages[s + step..s + contextWindow];
  }

  /** With a non-negative overlap every message lies in some window: message `j` in the one starting at `j / step`. */
  lemma WindowsCover(n: nat, contextWindow: int, overlap: int, j: nat)
    requires 0 <= overlap < contextWindow && j < n
    ensures var step := contextWindow - overlap; var k := j / step;
      k < |Starts(n, step)| && Starts(n, step)[k] <= j < Starts(n, step)[k] + contextWindow
  {
    var step := contextWindow - overlap;
    StartsShape(n, step);
    var k := j / step;
    assert k * step <= j < k * step + step;
    var m := |Starts(n, step)|;
    assert k < m by {
      assert k * step < m * step;
    }
    assert Starts(n, step)[k] == k * step;
  }

  /** The line one message adds to its window's text: `ROLE: text`, or nothing when the text is blank. */
  function MessageLine(m: Message): Result<Option<string>> {
    match ContentText(m.content)
    case Err(e) => Err(e)
    case Ok(text) =>
      if IsBlank(text) then Ok(None)
      else if m.role.JStr? then Ok(Some(Upper(m.role.s) + ": " + text))
      else Err(AttributeError)
  }

  /** The lines of the messages `ms`, in order, or the first exception. */
  function WindowLines(ms: seq<Message>): Result<seq<string>> {
    if ms == [] then Ok([])
    else match WindowLines(ms[..|ms| - 1])
      case Err(e) => Err(e)
      case Ok(lines) =>
        match MessageLine(ms[|ms| - 1])
        case Err(e) => Err(e)
        case Ok(line) => Ok(lines + (if line.Some? then [line.value] else []))
  }

  /** A window's text: its lines joined by blank lines. */
  function WindowText(ms: seq<Message>): Result<string> {
    match WindowLines(ms)
    case Err(e) => Err(e)
    case Ok(lines) => Ok(Join("\n\n", lines))
  }

  lemma {:induction false} NoLinesWithoutMessages(ms: seq<Message>)
    requires WindowLines(ms).Ok? && WindowLines(ms).value != []
    ensures ms != []
  {
  }

  /**
   * `str(x or y or session_key)` for a window's first message: its `sessionKey`, else its
   * `id`; `session_key` is bound nowhere the function can see, so a third case raises `NameError`.
   */
  function WindowSource(first: Message): Result<string> {
    if Truthy(first.sessionKey) then Ok(ToStr(first.sessionKey))
    else if Truthy(first.id) then Ok(ToStr(first.id))
    else Err(NameError)
  }

  /** `str(timestamp or fallback)`. */
  function StampOr(ts: Json, fallback: string): string {
    if Truthy(ts) then ToStr(ts) else fallback
  }

  function WindowMetadata(w: seq<Message>, source: string, index: int, now: string): Metadata
    requires w != []
  {
    map["type" := MStr("session"), "source" := MStr(source), "chunk_index" := MInt(index),
        "chunk_start_time" := MStr(StampOr(w[0].timestamp, "")),
        "chunk_end_time" := MStr(StampOr(w[|w| - 1].timestamp, "")),
        "message_count" := MInt(|w|), "ingested_at" := MStr(now),
        "date" := MStr(StampOr(w[0].timestamp, now))]
  }

  /** The document of the window starting at `s`, nothing when its text is blank, or the exception it raises. */
  function WindowDoc(messages: seq<Message>, s: nat, contextWindow: int, step: nat, now: string): Result<Option<Doc>>
    requires step > 0
  {
    var w := Window(messages, s, contextWindow);
    match WindowLines(w)
    case Err(e) => Err(e)
    case Ok(lines) =>
      var text := Join("\n\n", lines);
      if IsBlank(text) then Ok(None)
      else
        NoLinesWithoutMessages(w);
        match WindowSource(w[0])
        case Err(e) => Err(e)
        case Ok(source) => Ok(Some(Doc(text, WindowMetadata(w, source, s / step, now), None)))
  }

  /** The documents `doc` gives for `starts`, in order, or the first exception. */
  function Docs(starts: seq<nat>, doc: nat -> Result<Option<Doc>>): Result<seq<Doc>> {
    if starts == [] then Ok([])
    else match Docs(starts[..|starts| - 1], doc)
      case Err(e) => Err(e)
      case Ok(docs) =>
        match doc(starts[|starts| - 1])
        case Err(e) => Err(e)
        case Ok(d) => Ok(docs + (if d.Some? then [d.value] else []))
  }

  /** `WindowDoc` with everything but the start fixed. */
  function WindowDocs(messages: seq<Message>, contextWindow: int, step: nat, now: string): nat -> Result<Option<Doc>>
    requires step > 0
  {
    (s: nat) => WindowDoc(messages, s, contextWindow, step, now)
  }

  /** The documents of the windows at `starts`, in order, or the first exception. */
  function DocsAt(messages: seq<Message>, starts: seq<nat>, contextWindow: int, step: nat, now: string): Result<seq<Doc>>
    requires step > 0
  {
    Docs(starts, WindowDocs(messages, contextWindow, step, now))
  }

  /** What `chunk_messages` returns: `range` rejects a zero step and is empty for a negative one. */
  function SessionChunks(messages: seq<Message>, contextWindow: int, overlap: int, now: string): Result<seq<Doc>> {
    var step := contextWindow - overlap;
    if step == 0 then Err(ValueError)
    else if step < 0 then Ok([])
    else DocsAt(messages, Starts(|messages|, step), contextWindow, step, now)
  }

  /** How `WindowLines` extends by one message. */
  lemma WindowLinesNext(w: seq<Message>, k: nat)
    requires k < |w|
    ensures WindowLines(w[..k + 1]) == match WindowLines(w[..k])
      case Err(e) => Err(e)
      case Ok(lines) =>
        match MessageLine(w[k])
        case Err(e) => Err(e)
        case Ok(line) => Ok(lines + (if line.Some? then [line.value] else []))
  {
    assert w[..k + 1][..k] == w[..k] && w[..k + 1][k] == w[k];
  }

  /** An exception in the first `k` messages of a window is the window's exception. */
  lemma {:induction false} ErrorsPropagate(w: seq<Message>, k: nat)
    requires k <= |w| && WindowLines(w[..k]).Err?
    ensures WindowLines(w) == WindowLines(w[..k])
    decreases |w| - k
  {
    if k < |w| {
      WindowLinesNext(w, k);
      ErrorsPropagate(w, k + 1);
    } else {
      assert w[..k] == w;
    }
  }

  /** The lines of one window, by the inner loop of `chunk_messages`. */
  method RenderWindow(w: seq<Message>) returns (r: Result<seq<string>>)
    ensures r == WindowLines(w)
  {
    var textParts: seq<string> := [];
    var k := 0;
    while k < |w|
      invariant 0 <= k <= |w|
      invariant WindowLines(w[..k]) == Ok(textParts)
    {
      WindowLinesNext(w, k);
      var text := FormatContent(w[k].content);
      if text.Err? {
        ErrorsPropagate(w, k + 1);
        return Err(text.error);
      }
      if !IsBlank(text.value) {
        if !w[k].role.JStr? {
          assert MessageLine(w[k]) == Err(AttributeError);
          ErrorsPropagate(w, k + 1);
          return Err(AttributeError);
        }
        assert MessageLine(w[k]) == Ok(Some(Upper(w[k].role.s) + ": " + text.value));
        textParts := textParts + [Upper(w[k].role.s) + ": " + text.value];
      } else {
        assert MessageLine(w[k]) == Ok(None);
        assert textParts + [] == textParts;
      }
      k := k + 1;
    }
    assert w[..k] == w;
    return Ok(textParts);
  }

  /** The document of the window starting at `start`: the body of the outer loop of `chunk_messages`. */
  method WindowChunk(messages: seq<Message>, start: nat, contextWindow: int, step: nat, now: string)
    returns (r: Result<Option<Doc>>)
    requires step > 0
    ensures r == WindowDoc(messages, start, contextWindow, step, now)
  {
    var w := Window(messages, start, contextWindow);
    var lines := RenderWindow(w);
    if lines.Err? {
      return Err(lines.error);
    }
    var chunkText := Join("\n\n", lines.value);
    if IsBlank(chunkText) {
      return Ok(None);
    }
    NoLinesWithoutMessages(w);
    var source := WindowSource(w[0]);
    if source.Err? {
      return Err(source.error);
    }
    return Ok(Some(Doc(chunkText, WindowMetadata(w, source.value, start / step, now), None)));
  }

  /** How `Docs` extends by one start. */
  lemma DocsNext(starts: seq<nat>, s: nat, doc: nat -> Result<Option<Doc>>)
    ensures Docs(starts + [s], doc) == match Docs(starts, doc)
      case Err(e) => Err(e)
      case Ok(docs) =>
        match doc(s)
        case Err(e) => Err(e)
        case Ok(d) => Ok(docs + (if d.Some? then [d.value] else []))
  {
    assert (starts + [s])[..|starts|] == starts;
  }

  /** An exception at one of the first `k` starts is the exception of all of them. */
  lemma {:induction false} DocsErrorsPropagate(starts: seq<nat>, k: nat, doc: nat -> Result<Option<Doc>>)
    requires k <= |starts| && Docs(starts[..k], doc).Err?
    ensures Docs(starts, doc) == Docs(starts[..k], doc)
    decreases |starts| - k
  {
    if k < |starts| {
      assert starts[..k + 1] == starts[..k] + [starts[k]];
      DocsNext(starts[..k], starts[k], doc);
      DocsErrorsPropagate(starts, k + 1, doc);
    } else {
      assert starts[..k] == starts;
    }
  }

  /** One more start of the outer loop of `chunk_messages`. */
  lemma StartsNext(done: seq<nat>, i: nat, n: nat, step: nat)
    requires step > 0 && i < n
    requires StartsFrom(0, n, step) == done + StartsFrom(i, n, step)
    ensures StartsFrom(0, n, step) == (done + [i]) + StartsFrom(i + step, n, step)
  {
    var later := StartsFrom(i + step, n, step);
    assert StartsFrom(i, n, step) == [i] + later;
    assert done + ([i] + later) == (done + [i]) + later;
  }

  /** One more window that raises nothing adds its document, if any. */
  lemma DocKept(done: seq<nat>, i: nat, doc: nat -> Result<Option<Doc>>, chunks: seq<Doc>)
    requires Docs(done, doc) == Ok(chunks) && doc(i).Ok?
    ensures Docs(done + [i], doc) == Ok(chunks + if doc(i).value.Some? then [doc(i).value.value] else [])
  {
    DocsNext(done, i, doc);
  }

  /** A window that raises: its exception is that of every longer run of starts. */
  lemma DocRaises(done: seq<nat>, i: nat, rest: seq<nat>, doc: nat -> Result<Option<Doc>>)
    requires Docs(done, doc).Ok? && doc(i).Err?
    ensures Docs(done + [i] + rest, doc) == Err(doc(i).error)
  {
    var all := done + [i] + rest;
    assert Docs(all[..|done| + 1], doc) == Err(doc(i).error) by {
      assert all[..|done| + 1] == done + [i];
      DocsNext(done, i, doc);
    }
    DocsErrorsPropagate(all, |done| + 1, doc);
  }

  /** `chunk_messages`. */
  method ChunkMessages(messages: seq<Message>, contextWindow: int, overlap: int, now: string)
    returns (r: Result<seq<Doc>>)
    ensures r == SessionChunks(messages, contextWindow, overlap, now)
  {
    var step := contextWindow - overlap;
    if step == 0 {
      return Err(ValueError);
    }
    if step < 0 {
      return Ok([]);
    }
    ghost var doc := WindowDocs(messages, contextWindow, step, now);
    var chunks: seq<Doc> := [];
    ghost var done: seq<nat> := [];
    var i: nat := 0;
    while i < |messages|
      invariant StartsFrom(0, |messages|, step) == done + StartsFrom(i, |messages|, step)
      invariant Docs(done, doc) == Ok(chunks)
      decreases |messages| - i
    {
      var d := WindowChunk(messages, i, contextWindow, step, now);
      assert doc(i) == d;
      StartsNext(done, i, |messages|, step);
      if d.Err? {
        DocRaises(done, i, StartsFrom(i + step, |messages|, step), doc);
        return Err(d.error);
      }
      DocKept(done, i, doc, chunks);
      if d.value.Some? {
        chunks := chunks + [d.value.value];
      } else {
        assert chunks + [] == chunks;
      }
      done := done + [i];
      i := i + step;
    }
    assert done == Starts(|messages|, step);
    return Ok(chunks);
  }

  /**
   * Each stored window: its text is not blank, and its metadata records the session
   * type, the index `s / step`, the number of messages in the window (at most the
   * window size) and the first message's source.
   */
  lemma WindowDocFacts(messages: seq<Message>, s: nat, contextWindow: int, step: nat, now: string)
    requires step > 0 && s < |messages| && contextWindow > 0
    requires WindowDoc(messages, s, contextWindow, step, now).Ok? && WindowDoc(messages, s, contextWindow, step, now).value.Some?
    ensures var d := WindowDoc(messages, s, contextWindow, step, now).value.value;
      var w := Window(messages, s, contextWindow);
      !IsBlank(d.text) && w != [] && w[0] == messages[s]
      && d.metadata["type"] == MStr("session")
      && d.metadata["chunk_index"] == MInt(s / step)
      && d.metadata["message_count"] == MInt(|w|) && |w| <= contextWindow
      && WindowSource(messages[s]) == Ok(d.metadata["source"].s)
      && d.id.None?
  {
    WindowShape(messages, s, contextWindow);
  }

  /** A window is dropped exactly when its rendered text is blank. */
  lemma WindowDropped(messages: seq<Message>, s: nat, contextWindow: int, step: nat, now: string)
    requires step > 0 && WindowText(Window(messages, s, contextWindow)).Ok?
    ensures WindowDoc(messages, s, contextWindow, step, now) == Ok(None)
            <==> IsBlank(WindowText(Window(messages, s, contextWindow)).value)
  {
  }
}
