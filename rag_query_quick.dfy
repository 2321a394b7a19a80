/**
 * `search_context`, the one-call search for scripts: the numbered hits of a
 * search rendered as a text block, with fixed texts for an empty result and for
 * a search that raised. The store itself is abstracted as the outcome of the search.
 */
module RagQueryQuick {
  import opened PyStr
  import opened PyData

  /** The header of hit number `i` (from 1): sessions and unknown types are numbered, workspace files and skills name the source. */
  function Header(i: nat, docType: MetaValue, source: MetaValue): string {
    if docType == MStr("session") then "\U{1F4C4} Session reference " + NatToString(i)
    else if docType == MStr("workspace") then "\U{1F4C1} Code/Docs: " + Render(source)
    else if docType == MStr("skill") then "\U{1F4DC} Skill: " + Render(source)
    else "Reference " + NatToString(i)
  }

  /** The part of hit number `i`: its header, then its text cut to 600 characters plus `...`. */
  function Block(i: nat, h: Hit): string {
    var m := h.metadata;
    "\n" + Header(i, MetaGet(m, "type", MStr("unknown")), MetaGet(m, "source", MStr("unknown")))
      + "\n" + Truncate(h.text, 600) + "\n"
  }

  /** The parts of the hits, numbered from 1. */
  function Blocks(hits: seq<Hit>): seq<string> {
    MapNumbered(hits, 1, Block)
  }

  function CountLine(n: nat): string {
    "\U{1F50D} Found " + NatToString(n) + " relevant items:\n"
  }

  const NoContext := "No relevant context found in knowledge base."

  function ErrorText(message: string): string {
    "\U{274C} RAG error: " + message
  }

  /** What `search_context` returns for the outcome of the search. */
  function ContextText(outcome: SearchOutcome): string {
    match outcome
    case Failed(e) => ErrorText(e)
    case Found(hits) =>
      if hits == [] then NoContext else Join("\n", [CountLine(|hits|)] + Blocks(hits))
  }

  /** `search_context`, given what the search gives. */
  method SearchContext(outcome: SearchOutcome) returns (text: string)
    ensures text == ContextText(outcome)
  {
    if outcome.Failed? {
      return ErrorText(outcome.message);
    }
    var results := outcome.hits;
    if results == [] {
      return NoContext;
    }
    var output := [CountLine(|results|)];
    var k := 0;
    while k < |results|
      invariant 0 <= k <= |results|
      invariant output == [CountLine(|results|)] + Blocks(results[..k])
    {
      assert results[..k + 1][..k] == results[..k];
      var i := k + 1;
      var meta := results[k].metadata;
      var docType := MetaGet(meta, "type", MStr("unknown"));
      var source := MetaGet(meta, "source", MStr("unknown"));
      var header := Header(i, docType, source);
      var t := results[k].text;
      if |t| > 600 {
        t := t[..600] + "...";
      }
      output := output + ["\n" + header + "\n" + t + "\n"];
      k := k + 1;
    }
    assert results[..k] == results;
    return Join("\n", output);
  }

  /**
   * The three kinds of answer cannot be confused: the fixed text comes exactly
   * from an empty result, an answer starting with the cross exactly from a search
   * that raised, and one starting with the magnifier exactly from a non-empty result.
   */
  lemma AnswerKinds(outcome: SearchOutcome)
    ensures var t := ContextText(outcome);
      t != []
      && (t == NoContext <==> outcome == Found([]))
      && (t[0] == '\U{274C}' <==> outcome.Failed?)
      && (t[0] == '\U{1F50D}' <==> outcome.Found? && outcome.hits != [])
  {
    if outcome.Found? && outcome.hits != [] {
      var xs := [CountLine(|outcome.hits|)] + Blocks(outcome.hits);
      JoinFirst("\n", xs);
      assert ContextText(outcome)[0] == CountLine(|outcome.hits|)[0];
      assert NoContext[0] == 'N';
    } else if outcome.Failed? {
      assert ContextText(outcome)[0] == '\U{274C}';
      assert NoContext[0] == 'N';
    }
  }

  /** A search that raised gives its message after the fixed error prefix. */
  lemma ErrorCarriesMessage(message: string)
    ensures StartsWith(ContextText(Failed(message)), "\U{274C} RAG error: ")
    ensures EndsWith(ContextText(Failed(message)), message)
  {
    StartsWithConcat("\U{274C} RAG error: ", message);
    EndsWithConcat("\U{274C} RAG error: ", message);
  }

  /**
   * A non-empty result starts with the count line and holds the part of
   * hit `k` (numbered `k + 1`) at its offset; the next part follows it after one newline.
   */
  lemma ContextHoldsHits(hits: seq<Hit>, k: nat)
    requires k < |hits|
    ensures var c, xs := ContextText(Found(hits)), [CountLine(|hits|)] + Blocks(hits);
      StartsWith(c, CountLine(|hits|))
      && OccursAt(c, Block(k + 1, hits[k]), JoinOffset("\n", xs, k + 1))
      && (k + 1 < |hits| ==> JoinOffset("\n", xs, k + 2) == JoinOffset("\n", xs, k + 1) + |Block(k + 1, hits[k])| + 1)
  {
    JoinHoldsParts("\n", CountLine(|hits|), Blocks(hits), k);
    if k + 1 < |hits| {
      JoinPartsAdjacent("\n", CountLine(|hits|), Blocks(hits), k);
    }
  }

  /** Workspace and skill headers end with the source; session and other headers end with the hit's number and ignore the source. */
  lemma HeaderNames(i: nat, docType: MetaValue, source: MetaValue, other: MetaValue)
    ensures docType in {MStr("workspace"), MStr("skill")} ==> EndsWith(Header(i, docType, source), Render(source))
    ensures docType !in {MStr("workspace"), MStr("skill")}
            ==> EndsWith(Header(i, docType, source), NatToString(i)) && Header(i, docType, other) == Header(i, docType, source)
  {
    var named := if docType in {MStr("workspace"), MStr("skill")} then Render(source) else NatToString(i);
    var prefix := if docType == MStr("session") then "\U{1F4C4} Session reference "
      else if docType == MStr("workspace") then "\U{1F4C1} Code/Docs: "
      else if docType == MStr("skill") then "\U{1F4DC} Skill: "
      else "Reference ";
    assert Header(i, docType, source) == prefix + named;
    EndsWithConcat(prefix, named);
  }

  /** A part shows the hit's text whole when it has at most 600 characters, else its first 600 and `...`. */
  lemma BlockShowsText(i: nat, h: Hit)
    ensures |h.text| <= 600 ==> EndsWith(Block(i, h), h.text + "\n")
    ensures |h.text| > 600 ==> EndsWith(Block(i, h), h.text[..600] + "...\n")
  {
    var m := h.metadata;
    var head := "\n" + Header(i, MetaGet(m, "type", MStr("unknown")), MetaGet(m, "source", MStr("unknown"))) + "\n";
    assert Block(i, h) == head + (Truncate(h.text, 600) + "\n");
    EndsWithConcat(head, Truncate(h.text, 600) + "\n");
    if |h.text| > 600 {
      assert Truncate(h.text, 600) + "\n" == h.text[..600] + "...\n";
    }
  }
}
