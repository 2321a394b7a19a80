/**
 * The wrapper the assistant calls from inside a session: `search_knowledge`
 * projects each search hit onto a flat item with defaults for the missing
 * metadata, and `format_for_ai` renders those items as one context block.
 * The store itself is abstracted as the outcome of the search.
 */
module RagQueryWrapper {
  import opened PyStr
  import opened PyData

  // ---------------------------------------------------------------------------
  // search_knowledge

  /** One result as `search_knowledge` hands it on. */
  datatype Item = Item(text: string, docType: MetaValue, source: MetaValue, chunkIndex: MetaValue, date: MetaValue)

  /** The dict `search_knowledge` returns; `error` is there only when the search raised. */
  datatype Knowledge = Knowledge(query: string, count: int, items: seq<Item>, error: Option<string>)

  /** A hit projected onto an item: `type` and `source` default to `unknown`, `chunk_index` to 0, `date` to the empty string. */
  function ItemOf(h: Hit): Item {
    var m := h.metadata;
    Item(h.text, MetaGet(m, "type", MStr("unknown")), MetaGet(m, "source", MStr("unknown")),
         MetaGet(m, "chunk_index", MInt(0)), MetaGet(m, "date", MStr("")))
  }

  /** Each field of the item is the hit's own metadata value when it has one, else the default. */
  lemma ItemDefaults(h: Hit)
    ensures var it, m := ItemOf(h), h.metadata;
      it.text == h.text
      && it.docType == (if "type" in m then m["type"] else MStr("unknown"))
      && it.source == (if "source" in m then m["source"] else MStr("unknown"))
      && it.chunkIndex == (if "chunk_index" in m then m["chunk_index"] else MInt(0))
      && it.date == (if "date" in m then m["date"] else MStr(""))
  {
  }

  /** The items of the hits: one per hit, in order. */
  function Items(hits: seq<Hit>): seq<Item> {
    MapSeq(hits, ItemOf)
  }

  /**
   * What `search_knowledge` returns: the query, one item per hit and their
   * number, or, when the search raised, no items, a count of 0 and the message.
   */
  function Searched(query: string, outcome: SearchOutcome): (r: Knowledge)
    ensures r.query == query && r.count == |r.items|
    ensures r.error.None? <==> outcome.Found?
    ensures outcome.Failed? ==> r.items == [] && r.error == Some(outcome.message)
    ensures outcome.Found? ==>
              |r.items| == |outcome.hits| && forall i :: 0 <= i < |r.items| ==> r.items[i] == ItemOf(outcome.hits[i])
  {
    match outcome
    case Found(hits) => Knowledge(query, |hits|, Items(hits), None)
    case Failed(e) => Knowledge(query, 0, [], Some(e))
  }

  /** `search_knowledge`, given what the search gives. */
  method SearchKnowledge(query: string, outcome: SearchOutcome) returns (r: Knowledge)
    ensures r == Searched(query, outcome)
  {
    if outcome.Failed? {
      return Knowledge(query, 0, [], Some(outcome.message));
    }
    var results := outcome.hits;
    var items: seq<Item> := [];
    var k := 0;
    while k < |results|
      invariant 0 <= k <= |results|
      invariant items == Items(results[..k])
    {
      assert results[..k + 1][..k] == results[..k];
      var meta := results[k].metadata;
      items := items + [Item(results[k].text,
                             MetaGet(meta, "type", MStr("unknown")),
                             MetaGet(meta, "source", MStr("unknown")),
                             MetaGet(meta, "chunk_index", MInt(0)),
                             MetaGet(meta, "date", MStr("")))];
      k := k + 1;
    }
    assert results[..k] == results;
    return Knowledge(query, |items|, items, None);
  }

  // ---------------------------------------------------------------------------
  // format_for_ai

  /** The header of an item: the known types name the source, any other type names itself. */
  function Header(it: Item): string {
    if it.docType == MStr("session") then "\U{1F4C4} Past Conversation (" + Render(it.source) + ")"
    else if it.docType == MStr("workspace") then "\U{1F4C1} Code/Documentation (" + Render(it.source) + ")"
    else if it.docType == MStr("skill") then "\U{1F4DC} Skill Guide (" + Render(it.source) + ")"
    else "\U{1F539} Reference (" + Render(it.docType) + ")"
  }

  /** The part of one item: its header, then its text cut to 700 characters plus `...`. */
  function Block(it: Item): string {
    "\n" + Header(it) + "\n" + Truncate(it.text, 700) + "\n"
  }

  /** The parts of the items, in order. */
  function Blocks(items: seq<Item>): seq<string> {
    MapSeq(items, Block)
  }

  function CountLine(count: int): string {
    "\U{1F4DA} Found " + IntToString(count) + " relevant items from knowledge base:\n"
  }

  /** What `format_for_ai` returns: nothing for a count of 0, else the count line and the parts joined by newlines. */
  function AiText(results: Knowledge): string {
    if results.count == 0 then "" else Join("\n", [CountLine(results.count)] + Blocks(results.items))
  }

  /** `format_for_ai`. */
  method FormatForAi(results: Knowledge) returns (text: string)
    ensures text == AiText(results)
  {
    if results.count == 0 {
      return "";
    }
    var output := [CountLine(results.count)];
    var items := results.items;
    var k := 0;
    while k < |items|
      invariant 0 <= k <= |items|
      invariant output == [CountLine(results.count)] + Blocks(items[..k])
    {
      var header := Header(items[k]);
      var t := items[k].text;
      if |t| > 700 {
        t := t[..700] + "...";
      }
      var block := "\n" + header + "\n" + t + "\n";
      assert block == Block(items[k]);
      MapSeqSnoc(items, k, Block);
      output := output + [block];
      k := k + 1;
    }
    assert items[..k] == items;
    return Join("\n", output);
  }

  /** The formatted text is empty exactly when the count is 0. */
  lemma AiTextEmpty(results: Knowledge)
    ensures AiText(results) == "" <==> results.count == 0
  {
    if results.count != 0 {
      JoinFirst("\n", [CountLine(results.count)] + Blocks(results.items));
    }
  }

  /**
   * The formatted text starts with the count line and holds the part of every
   * item at its offset; the part of the next item follows it after one newline.
   */
  lemma AiTextHoldsItems(results: Knowledge, k: nat)
    requires results.count != 0 && k < |results.items|
    ensures var c, xs := AiText(results), [CountLine(results.count)] + Blocks(results.items);
      StartsWith(c, CountLine(results.count))
      && OccursAt(c, Block(results.items[k]), JoinOffset("\n", xs, k + 1))
      && (k + 1 < |results.items| ==>
            JoinOffset("\n", xs, k + 2) == JoinOffset("\n", xs, k + 1) + |Block(results.items[k])| + 1)
  {
    JoinHoldsParts("\n", CountLine(results.count), Blocks(results.items), k);
    if k + 1 < |results.items| {
      JoinPartsAdjacent("\n", CountLine(results.count), Blocks(results.items), k);
    }
  }

  /**
   * A session, workspace or skill header names the source; any other header
   * names the type and does not depend on the source at all.
   */
  lemma HeaderNames(it: Item, other: MetaValue)
    ensures it.docType in {MStr("session"), MStr("workspace"), MStr("skill")}
            ==> EndsWith(Header(it), "(" + Render(it.source) + ")")
    ensures it.docType !in {MStr("session"), MStr("workspace"), MStr("skill")}
            ==> EndsWith(Header(it), "(" + Render(it.docType) + ")") && Header(it.(source := other)) == Header(it)
  {
    var named := if it.docType in {MStr("session"), MStr("workspace"), MStr("skill")} then it.source else it.docType;
    var prefix := if it.docType == MStr("session") then "\U{1F4C4} Past Conversation "
      else if it.docType == MStr("workspace") then "\U{1F4C1} Code/Documentation "
      else if it.docType == MStr("skill") then "\U{1F4DC} Skill Guide "
      else "\U{1F539} Reference ";
    assert Header(it) == prefix + ("(" + Render(named) + ")");
    EndsWithConcat(prefix, "(" + Render(named) + ")");
  }

  /** A part is the header line followed by the item's text, whole when it has at most 700 characters, else its first 700 and `...`. */
  lemma BlockShowsText(it: Item)
    ensures StartsWith(Block(it), "\n" + Header(it) + "\n")
    ensures |it.text| <= 700 ==> EndsWith(Block(it), it.text + "\n")
    ensures |it.text| > 700 ==> EndsWith(Block(it), it.text[..700] + "...\n")
  {
    var head := "\n" + Header(it) + "\n";
    assert Block(it) == head + (Truncate(it.text, 700) + "\n");
    StartsWithConcat(head, Truncate(it.text, 700) + "\n");
    EndsWithConcat(head, Truncate(it.text, 700) + "\n");
    if |it.text| > 700 {
      assert Truncate(it.text, 700) + "\n" == it.text[..700] + "...\n";
    }
  }

  /** Formatting what the search gave is empty exactly when the search raised or found nothing. */
  lemma SearchedTextEmpty(query: string, outcome: SearchOutcome)
    ensures AiText(Searched(query, outcome)) == "" <==> outcome.Failed? || outcome.hits == []
  {
    AiTextEmpty(Searched(query, outcome));
  }
}
