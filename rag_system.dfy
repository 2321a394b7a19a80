/**
 * The store facade `RAGSystem`: document ids built from metadata and text, batched
 * adds, deletion by id and by a metadata filter, and the collection statistics.
 * The vector collection itself is modelled as the ordered list of its entries; the
 * embedding and similarity search it performs are not.
 */
module RagStore {
  import opened PyStr
  import opened PyData

  /** One stored document. */
  datatype Entry = Entry(id: string, text: string, metadata: Metadata)

  function Ids(es: seq<Entry>): (r: seq<string>)
    ensures |r| == |es| && forall i :: 0 <= i < |es| ==> r[i] == es[i].id
  {
    seq(|es|, i requires 0 <= i < |es| => es[i].id)
  }

  predicate Distinct(xs: seq<string>) {
    forall i, j :: 0 <= i < j < |xs| ==> xs[i] != xs[j]
  }

  /**
   * The collection after an `add` of `xs` whose ids are distinct: each entry whose id is
   * not yet stored is appended, in order; an id already stored is left as it is.
   */
  function AddEntries(es: seq<Entry>, xs: seq<Entry>): seq<Entry> {
    if xs == [] then es
    else
      var e := AddEntries(es, xs[..|xs| - 1]);
      var x := xs[|xs| - 1];
      if x.id in Ids(e) then e else e + [x]
  }

  /** Adding keeps what was stored, stores every added id, adds nothing else, and keeps ids distinct. */
  lemma {:induction false} AddEntriesFacts(es: seq<Entry>, xs: seq<Entry>)
    ensures var r := AddEntries(es, xs);
      |es| <= |r| && r[..|es|] == es
      && (forall k :: 0 <= k < |xs| ==> xs[k].id in Ids(r))
      && (forall i :: |es| <= i < |r| ==> r[i] in xs)
      && (Distinct(Ids(es)) ==> Distinct(Ids(r)))
  {
    if xs != [] {
      var n := |xs|;
      AddEntriesFacts(es, xs[..n - 1]);
      var e := AddEntries(es, xs[..n - 1]);
      var r := AddEntries(es, xs);
      if xs[n - 1].id !in Ids(e) {
        assert r == e + [xs[n - 1]];
        assert Ids(r) == Ids(e) + [xs[n - 1].id];
        assert forall k :: 0 <= k < n - 1 ==> xs[..n - 1][k] == xs[k];
      } else {
        assert forall k :: 0 <= k < n - 1 ==> xs[..n - 1][k] == xs[k];
      }
    }
  }

  /** Adding in two steps is adding once. */
  lemma {:induction false} AddEntriesConcat(es: seq<Entry>, a: seq<Entry>, b: seq<Entry>)
    ensures AddEntries(es, a + b) == AddEntries(AddEntries(es, a), b)
    decreases |b|
  {
    if b == [] {
      assert a + b == a;
    } else {
      assert (a + b)[..|a + b| - 1] == a + b[..|b| - 1];
      AddEntriesConcat(es, a, b[..|b| - 1]);
    }
  }

  // ---------------------------------------------------------------------------
  // Document ids

  function AsJson(v: MetaValue): Json {
    match v
    case MStr(s) => JStr(s)
    case MInt(i) => JNum(i)
  }

  /** Whether the metadata holds a non-string value under `key`. */
  predicate IntField(m: Metadata, key: string) {
    key in m && m[key].MInt?
  }

  /** The parts `add_document` joins into its key. */
  function KeyFields(text: string, m: Metadata, now: string): seq<Json> {
    [AsJson(MetaGet(m, "type", MStr("unknown"))), AsJson(MetaGet(m, "source", MStr("unknown"))),
     AsJson(MetaGet(m, "date", MStr(now))), JStr(Render(MetaGet(m, "chunk_index", MStr("0")))),
     JStr(Take(text, 200))]
  }

  /**
   * The key of `add_document`: `type:source:date:chunk_index:text[:200]`, with the
   * defaults `unknown`, `unknown`, the current time and `0`; the join raises
   * `TypeError` when type, source or date is not a string.
   */
  function DocumentKey(text: string, m: Metadata, now: string): (r: Result<string>)
    ensures r.Err? <==> IntField(m, "type") || IntField(m, "source") || IntField(m, "date")
    ensures r.Err? ==> r.error == TypeError
  {
    var fs := KeyFields(text, m, now);
    assert !fs[0].JStr? <==> IntField(m, "type");
    assert !fs[1].JStr? <==> IntField(m, "source");
    assert !fs[2].JStr? <==> IntField(m, "date");
    assert fs[3].JStr? && fs[4].JStr?;
    JoinValues(":", fs)
  }

  /** The text of a string-valued metadata field, or the default. */
  function StrField(m: Metadata, key: string, default: string): string {
    Render(MetaGet(m, key, MStr(default)))
  }

  /** With string fields the key is the five fields joined by colons. */
  lemma DocumentKeyOfStrings(text: string, m: Metadata, now: string)
    requires !IntField(m, "type") && !IntField(m, "source") && !IntField(m, "date")
    ensures DocumentKey(text, m, now)
            == Ok(StrField(m, "type", "unknown") + ":" + StrField(m, "source", "unknown") + ":"
                  + StrField(m, "date", now) + ":" + StrField(m, "chunk_index", "0") + ":" + Take(text, 200))
  {
    var fs := KeyFields(text, m, now);
    var ss := [StrField(m, "type", "unknown"), StrField(m, "source", "unknown"), StrField(m, "date", now),
               StrField(m, "chunk_index", "0"), Take(text, 200)];
    assert forall i :: 0 <= i < 5 ==> fs[i] == JStr(ss[i]);
    assert StringsOf(fs).Some?;
    assert StringsOf(fs).value == ss;
    JoinFive(ss[0], ss[1], ss[2], ss[3], ss[4]);
  }

  lemma JoinFive(a: string, b: string, c: string, d: string, e: string)
    ensures Join(":", [a, b, c, d, e]) == a + ":" + b + ":" + c + ":" + d + ":" + e
  {
    assert [a, b, c, d, e][1..] == [b, c, d, e] && [b, c, d, e][1..] == [c, d, e];
    assert [c, d, e][1..] == [d, e] && [d, e][1..] == [e];
    assert Join(":", [d, e]) == d + ":" + e;
    assert Join(":", [c, d, e]) == c + ":" + (d + ":" + e);
    assert Join(":", [b, c, d, e]) == b + ":" + (c + ":" + (d + ":" + e));
    assert Join(":", [a, b, c, d, e]) == a + ":" + (b + ":" + (c + ":" + (d + ":" + e)));
  }

  /** A document without metadata is keyed on `unknown:unknown:<now>:0:` and its first 200 characters. */
  lemma DocumentKeyDefaults(text: string, now: string)
    ensures DocumentKey(text, map[], now) == Ok("unknown:unknown:" + now + ":0:" + Take(text, 200))
  {
    DocumentKeyOfStrings(text, map[], now);
    var m: Metadata := map[];
    assert StrField(m, "type", "unknown") == "unknown" && StrField(m, "source", "unknown") == "unknown";
    assert StrField(m, "date", now) == now && StrField(m, "chunk_index", "0") == "0";
    DefaultKeyText(now, Take(text, 200));
  }

  lemma DefaultKeyText(now: string, t: string)
    ensures "unknown" + ":" + "unknown" + ":" + now + ":" + "0" + ":" + t == "unknown:unknown:" + now + ":0:" + t
  {
  }

  /**
   * The id `add_document` stores and returns: the caller's id unchanged, or the digest
   * of the key.
   */
  function DocumentId(digest: string -> string, text: string, m: Metadata, docId: Option<string>, now: string): (r: Result<string>)
    ensures docId.Some? ==> r == Ok(docId.value)
    ensures docId.None? ==> (r.Ok? <==> DocumentKey(text, m, now).Ok?)
    ensures docId.None? && r.Ok? ==> r.value == digest(DocumentKey(text, m, now).value)
  {
    if docId.Some? then Ok(docId.value)
    else match DocumentKey(text, m, now)
      case Err(e) => Err(e)
      case Ok(key) => Ok(digest(key))
  }

  /** Texts that agree on their first 200 characters get the same generated id. */
  lemma DocumentIdPrefix(digest: string -> string, t1: string, t2: string, m: Metadata, now: string)
    requires |t1| >= 200 && |t2| >= 200 && t1[..200] == t2[..200]
    ensures DocumentId(digest, t1, m, None, now) == DocumentId(digest, t2, m, None, now)
  {
    assert Take(t1, 200) == Take(t2, 200);
  }

  /**
   * The key of `add_documents_batch`, an f-string: `type:source:date:chunk_index:text[:100]`
   * with the defaults `unknown`, `unknown`, the empty string and `0`; an f-string renders
   * any value, so nothing is raised.
   */
  function BatchKey(d: Doc): string {
    var m := d.metadata;
    StrField(m, "type", "unknown") + ":" + StrField(m, "source", "unknown") + ":" + StrField(m, "date", "")
      + ":" + StrField(m, "chunk_index", "0") + ":" + Take(d.text, 100)
  }

  /** The key ends with the first 100 characters of the text, after the four fields and their colons. */
  lemma BatchKeyShape(d: Doc)
    ensures var m := d.metadata; var head := StrField(m, "type", "unknown") + ":" + StrField(m, "source", "unknown")
              + ":" + StrField(m, "date", "") + ":" + StrField(m, "chunk_index", "0") + ":";
      BatchKey(d) == head + Take(d.text, 100) && |BatchKey(d)| == |head| + (if |d.text| < 100 then |d.text| else 100)
  {
  }

  /** A document without metadata gets the key `unknown:unknown::0:` and its first 100 characters. */
  lemma BatchKeyDefaults(text: string)
    ensures BatchKey(Doc(text, map[], None)) == "unknown:unknown::0:" + Take(text, 100)
  {
  }

  /** The id of a batch document: its own `id` when it has one, else the digest of its key. */
  function BatchId(digest: string -> string, d: Doc): (r: string)
    ensures d.id.Some? ==> r == d.id.value
    ensures d.id.None? ==> r == digest(BatchKey(d))
  {
    match d.id
    case Some(id) => id
    case None => digest(BatchKey(d))
  }

  function EntriesOf(digest: string -> string, docs: seq<Doc>): (r: seq<Entry>)
    ensures |r| == |docs| && forall k :: 0 <= k < |docs| ==> r[k] == Entry(BatchId(digest, docs[k]), docs[k].text, docs[k].metadata)
  {
    seq(|docs|, k requires 0 <= k < |docs| => Entry(BatchId(digest, docs[k]), docs[k].text, docs[k].metadata))
  }

  lemma EntriesOfConcat(digest: string -> string, a: seq<Doc>, b: seq<Doc>)
    ensures EntriesOf(digest, a + b) == EntriesOf(digest, a) + EntriesOf(digest, b)
    ensures Ids(EntriesOf(digest, a + b)) == Ids(EntriesOf(digest, a)) + Ids(EntriesOf(digest, b))
  {
    assert EntriesOf(digest, a + b) == EntriesOf(digest, a) + EntriesOf(digest, b);
  }

  // ---------------------------------------------------------------------------
  // Batches

  /** `documents[i:i + batch_size]` for `i` in `range(from, len(documents), batch_size)`. */
  function Batches(docs: seq<Doc>, size: nat, from: nat): seq<seq<Doc>>
    requires size > 0
    decreases |docs| - from
  {
    if from >= |docs| then [] else [Slice(docs, from, from + size)] + Batches(docs, size, from + size)
  }

  /** The batches are consecutive, non-empty slices of at most `size` documents: together they are the documents, in order. */
  lemma {:induction false} BatchesPartition(docs: seq<Doc>, size: nat, from: nat)
    requires size > 0 && from <= |docs|
    ensures Concat(Batches(docs, size, from)) == docs[from..]
    ensures forall k :: 0 <= k < |Batches(docs, size, from)| ==> 0 < |Batches(docs, size, from)[k]| <= size
    decreases |docs| - from
  {
    var bs := Batches(docs, size, from);
    if from < |docs| {
      var hi := if from + size <= |docs| then from + size else |docs|;
      var b := Slice(docs, from, from + size);
      assert b == docs[from..hi];
      BatchesPartition(docs, size, hi);
      if hi < |docs| {
        assert Batches(docs, size, from + size) == Batches(docs, size, hi);
      } else {
        assert Batches(docs, size, from + size) == [];
        assert Batches(docs, size, hi) == [];
      }
      ConcatAppend([b], Batches(docs, size, hi));
      assert Concat([b]) == Concat([b][..0]) + b;
      assert [b][..0] == [];
      assert docs[from..] == docs[from..hi] + docs[hi..];
      assert forall k :: 0 < k < |bs| ==> bs[k] == Batches(docs, size, hi)[k - 1];
    } else {
      assert docs[from..] == [];
    }
  }

  /** `ids` followed by what a later part of the call returns; an exception stays as it is. */
  function Prepend(ids: seq<string>, r: Result<seq<string>>): Result<seq<string>> {
    match r
    case Ok(rest) => Ok(ids + rest)
    case Err(e) => Err(e)
  }

  /**
   * Adding the batches one by one: the ids returned and the final collection. A batch
   * that names the same id twice is refused with `DuplicateIDError`, which ends the call;
   * the batches before it stay added.
   */
  function RunBatches(digest: string -> string, es: seq<Entry>, batches: seq<seq<Doc>>): (Result<seq<string>>, seq<Entry>)
    decreases |batches|
  {
    if batches == [] then (Ok([]), es)
    else
      var xs := EntriesOf(digest, batches[0]);
      if !Distinct(Ids(xs)) then (Err(DuplicateId), es)
      else
        var rest := RunBatches(digest, AddEntries(es, xs), batches[1..]);
        (Prepend(Ids(xs), rest.0), rest.1)
  }

  /** One batch of the loop of `add_documents_batch`. */
  lemma BatchStep(digest: string -> string, es: seq<Entry>, docs: seq<Doc>, size: nat, i: nat)
    requires size > 0 && i < |docs|
    ensures var xs := EntriesOf(digest, Slice(docs, i, i + size));
      RunBatches(digest, es, Batches(docs, size, i))
      == if !Distinct(Ids(xs)) then (Err(DuplicateId), es)
         else var rest := RunBatches(digest, AddEntries(es, xs), Batches(docs, size, i + size));
           (Prepend(Ids(xs), rest.0), rest.1)
  {
    var bs := Batches(docs, size, i);
    assert bs[0] == Slice(docs, i, i + size) && bs[1..] == Batches(docs, size, i + size);
  }

  /** A batch with distinct ids: the run so far goes on from the collection with the batch added. */
  lemma BatchKept(digest: string -> string, es: seq<Entry>, docs: seq<Doc>, size: nat, i: nat,
                  allIds: seq<string>, target: (Result<seq<string>>, seq<Entry>))
    requires size > 0 && i < |docs|
    requires target.1 == RunBatches(digest, es, Batches(docs, size, i)).1
    requires target.0 == Prepend(allIds, RunBatches(digest, es, Batches(docs, size, i)).0)
    requires Distinct(Ids(EntriesOf(digest, Slice(docs, i, i + size))))
    ensures var xs := EntriesOf(digest, Slice(docs, i, i + size));
      var rest := RunBatches(digest, AddEntries(es, xs), Batches(docs, size, i + size));
      target.1 == rest.1 && target.0 == Prepend(allIds + Ids(xs), rest.0)
  {
    var xs := EntriesOf(digest, Slice(docs, i, i + size));
    BatchStep(digest, es, docs, size, i);
    PrependAppend(allIds, Ids(xs), RunBatches(digest, AddEntries(es, xs), Batches(docs, size, i + size)).0);
  }

  /** A batch that names an id twice: the run ends with the duplicate-id error, the collection as it is. */
  lemma BatchRefused(digest: string -> string, es: seq<Entry>, docs: seq<Doc>, size: nat, i: nat,
                     allIds: seq<string>, target: (Result<seq<string>>, seq<Entry>))
    requires size > 0 && i < |docs|
    requires target.1 == RunBatches(digest, es, Batches(docs, size, i)).1
    requires target.0 == Prepend(allIds, RunBatches(digest, es, Batches(docs, size, i)).0)
    requires !Distinct(Ids(EntriesOf(digest, Slice(docs, i, i + size))))
    ensures target == (Err(DuplicateId), es)
  {
    BatchStep(digest, es, docs, size, i);
  }

  lemma PrependAppend(a: seq<string>, b: seq<string>, r: Result<seq<string>>)
    ensures Prepend(a, Prepend(b, r)) == Prepend(a + b, r)
  {
    if r.Ok? {
      assert a + (b + r.value) == (a + b) + r.value;
    }
  }

  /** What `add_documents_batch` returns and leaves stored: `range` rejects a zero batch size and is empty for a negative one. */
  function AddBatches(digest: string -> string, es: seq<Entry>, docs: seq<Doc>, size: int): (Result<seq<string>>, seq<Entry>) {
    if size == 0 then (Err(ValueError), es)
    else if size < 0 then (Ok([]), es)
    else RunBatches(digest, es, Batches(docs, size, 0))
  }

  /**
   * A run that raises nothing returns one id per document, the `k`th belonging to the
   * `k`th document, and stores what one add of all of them would; a run that raises
   * raises the duplicate-id error.
   */
  lemma {:induction false} RunBatchesFacts(digest: string -> string, es: seq<Entry>, batches: seq<seq<Doc>>)
    ensures var (r, e) := RunBatches(digest, es, batches);
      (r.Ok? ==> r.value == Ids(EntriesOf(digest, Concat(batches))) && e == AddEntries(es, EntriesOf(digest, Concat(batches))))
      && (r.Err? ==> r.error == DuplicateId)
    decreases |batches|
  {
    if batches != [] {
      var b := batches[0];
      var xs := EntriesOf(digest, b);
      assert batches == [b] + batches[1..];
      ConcatAppend([b], batches[1..]);
      assert Concat([b]) == Concat([b][..0]) + b && [b][..0] == [];
      var all := b + Concat(batches[1..]);
      assert Concat(batches) == all;
      if Distinct(Ids(xs)) {
        RunBatchesFacts(digest, AddEntries(es, xs), batches[1..]);
        EntriesOfConcat(digest, b, Concat(batches[1..]));
        AddEntriesConcat(es, xs, EntriesOf(digest, Concat(batches[1..])));
      }
    } else {
      assert Concat(batches) == [];
    }
  }

  /** Whether one batch names the same id twice. */
  lemma DistinctSlice(xs: seq<string>, lo: nat, hi: nat)
    requires Distinct(xs) && lo <= hi <= |xs|
    ensures Distinct(xs[lo..hi])
  {
    assert forall i :: 0 <= i < hi - lo ==> xs[lo..hi][i] == xs[lo + i];
  }

  /** Documents whose ids are all distinct are added without an exception. */
  lemma {:induction false} DistinctIdsAdded(digest: string -> string, es: seq<Entry>, batches: seq<seq<Doc>>)
    requires Distinct(Ids(EntriesOf(digest, Concat(batches))))
    ensures RunBatches(digest, es, batches).0.Ok?
    decreases |batches|
  {
    if batches != [] {
      var b := batches[0];
      assert batches == [b] + batches[1..];
      ConcatAppend([b], batches[1..]);
      assert Concat([b]) == Concat([b][..0]) + b && [b][..0] == [];
      EntriesOfConcat(digest, b, Concat(batches[1..]));
      var ids := Ids(EntriesOf(digest, Concat(batches)));
      var n := |b|;
      assert Ids(EntriesOf(digest, b)) == ids[..n];
      assert Ids(EntriesOf(digest, Concat(batches[1..]))) == ids[n..];
      DistinctSlice(ids, 0, n);
      DistinctSlice(ids, n, |ids|);
      DistinctIdsAdded(digest, AddEntries(es, EntriesOf(digest, b)), batches[1..]);
    }
  }

  /** The whole of `add_documents_batch` for a positive batch size. */
  lemma AddBatchesFacts(digest: string -> string, es: seq<Entry>, docs: seq<Doc>, size: int)
    requires size > 0
    ensures var (r, e) := AddBatches(digest, es, docs, size);
      (r.Ok? ==> |r.value| == |docs| && (forall k :: 0 <= k < |docs| ==> r.value[k] == BatchId(digest, docs[k]))
                 && e == AddEntries(es, EntriesOf(digest, docs)))
      && (r.Err? ==> r.error == DuplicateId)
      && (Distinct(Ids(EntriesOf(digest, docs))) ==> r.Ok?)
  {
    BatchesPartition(docs, size, 0);
    assert docs[0..] == docs;
    RunBatchesFacts(digest, es, Batches(docs, size, 0));
    if Distinct(Ids(EntriesOf(digest, docs))) {
      DistinctIdsAdded(digest, es, Batches(docs, size, 0));
    }
  }

  // ---------------------------------------------------------------------------
  // Deletion and statistics

  /** Whether an entry passes the filter `{key: value}`. */
  predicate Matches(e: Entry, key: string, value: MetaValue) {
    key in e.metadata && e.metadata[key] == value
  }

  /** The ids `collection.get(where={key: value})` returns. */
  function MatchIds(es: seq<Entry>, key: string, value: MetaValue): (r: seq<string>)
    ensures forall x :: x in r <==> exists i :: 0 <= i < |es| && es[i].id == x && Matches(es[i], key, value)
  {
    if es == [] then []
    else
      var r := MatchIds(es[..|es| - 1], key, value);
      var e := es[|es| - 1];
      assert forall i :: 0 <= i < |es| - 1 ==> es[..|es| - 1][i] == es[i];
      if Matches(e, key, value) then r + [e.id] else r
  }

  /** The entries the filter leaves. */
  function Unmatched(es: seq<Entry>, key: string, value: MetaValue): (r: seq<Entry>)
    ensures |r| + |MatchIds(es, key, value)| == |es|
    ensures forall e :: e in r <==> e in es && !Matches(e, key, value)
  {
    if es == [] then []
    else
      var r := Unmatched(es[..|es| - 1], key, value);
      var e := es[|es| - 1];
      assert es == es[..|es| - 1] + [e];
      if Matches(e, key, value) then r else r + [e]
  }

  /** The collection after `delete(ids=ids)`. */
  function WithoutIds(es: seq<Entry>, ids: seq<string>): (r: seq<Entry>)
    ensures forall e :: e in r <==> e in es && e.id !in ids
  {
    if es == [] then []
    else
      var r := WithoutIds(es[..|es| - 1], ids);
      var e := es[|es| - 1];
      assert es == es[..|es| - 1] + [e];
      if e.id in ids then r else r + [e]
  }

  /** Deleting keeps the remaining ids distinct. */
  lemma {:induction false} WithoutIdsDistinct(es: seq<Entry>, ids: seq<string>)
    requires Distinct(Ids(es))
    ensures Distinct(Ids(WithoutIds(es, ids)))
  {
    if es != [] {
      var n := |es|;
      var p, x := es[..n - 1], es[n - 1];
      DistinctInit(es);
      WithoutIdsDistinct(p, ids);
      var r := WithoutIds(p, ids);
      if x.id !in ids {
        IdNotKept(p, r, x.id);
        DistinctSnoc(r, x);
      }
    }
  }

  /** Without its last entry distinct ids stay distinct, and none of them is the last one's. */
  lemma DistinctInit(es: seq<Entry>)
    requires es != [] && Distinct(Ids(es))
    ensures Distinct(Ids(es[..|es| - 1])) && es[|es| - 1].id !in Ids(es[..|es| - 1])
  {
    var p := es[..|es| - 1];
    assert forall i :: 0 <= i < |p| ==> Ids(p)[i] == Ids(es)[i];
  }

  /** An id absent from `p` is absent from any list of entries taken from `p`. */
  lemma IdNotKept(p: seq<Entry>, r: seq<Entry>, id: string)
    requires id !in Ids(p) && forall e :: e in r ==> e in p
    ensures id !in Ids(r)
  {
    forall j | 0 <= j < |r| ensures Ids(r)[j] != id {
      assert r[j] in r;
      var k :| 0 <= k < |p| && p[k] == r[j];
      assert Ids(p)[k] == r[j].id;
    }
  }

  lemma DistinctSnoc(r: seq<Entry>, x: Entry)
    requires Distinct(Ids(r)) && x.id !in Ids(r)
    ensures Distinct(Ids(r + [x]))
  {
    assert Ids(r + [x]) == Ids(r) + [x.id];
  }

  /** Deleting by the ids the filter matched removes exactly the matching entries, since ids are distinct. */
  lemma {:induction false} DeleteMatched(es: seq<Entry>, ids: seq<string>, key: string, value: MetaValue)
    requires forall i :: 0 <= i < |es| ==> (es[i].id in ids <==> Matches(es[i], key, value))
    ensures WithoutIds(es, ids) == Unmatched(es, key, value)
  {
    if es != [] {
      DeleteMatched(es[..|es| - 1], ids, key, value);
    }
  }

  lemma MatchIdsExact(es: seq<Entry>, key: string, value: MetaValue)
    requires Distinct(Ids(es))
    ensures forall i :: 0 <= i < |es| ==> (es[i].id in MatchIds(es, key, value) <==> Matches(es[i], key, value))
  {
    forall i | 0 <= i < |es| && es[i].id in MatchIds(es, key, value)
      ensures Matches(es[i], key, value)
    {
      var j :| 0 <= j < |es| && es[j].id == es[i].id && Matches(es[j], key, value);
      assert Ids(es)[i] == Ids(es)[j];
    }
  }

  /** Nothing removed by a filter that matches nothing. */
  lemma {:induction false} UnmatchedNone(es: seq<Entry>, key: string, value: MetaValue)
    requires MatchIds(es, key, value) == []
    ensures Unmatched(es, key, value) == es
  {
    if es != [] {
      var p := es[..|es| - 1];
      assert MatchIds(p, key, value) == [];
      UnmatchedNone(p, key, value);
      assert !Matches(es[|es| - 1], key, value);
      assert es == p + [es[|es| - 1]];
    }
  }

  /** `metadata.get(key, default)` of each entry, in order. */
  function FieldValues(es: seq<Entry>, key: string): seq<MetaValue> {
    if es == [] then [] else FieldValues(es[..|es| - 1], key) + [MetaGet(es[|es| - 1].metadata, key, MStr("unknown"))]
  }

  lemma {:induction false} FieldValuesAt(es: seq<Entry>, key: string)
    ensures |FieldValues(es, key)| == |es|
    ensures forall i :: 0 <= i < |es| ==> FieldValues(es, key)[i] == MetaGet(es[i].metadata, key, MStr("unknown"))
  {
    if es != [] {
      FieldValuesAt(es[..|es| - 1], key);
    }
  }

  /** Occurrence counts of the values, in the order `d[v] = d.get(v, 0) + 1` builds them. */
  function Tally(vs: seq<MetaValue>): map<MetaValue, nat> {
    if vs == [] then map[]
    else
      var m := Tally(vs[..|vs| - 1]);
      var v := vs[|vs| - 1];
      m[v := (if v in m then m[v] else 0) + 1]
  }

  /** Each value counted is one that occurs, counted as often as it occurs. */
  lemma {:induction false} TallyCounts(vs: seq<MetaValue>)
    ensures forall v :: v in Tally(vs) <==> v in multiset(vs)
    ensures forall v :: v in Tally(vs) ==> Tally(vs)[v] == multiset(vs)[v]
  {
    if vs != [] {
      var p := vs[..|vs| - 1];
      TallyCounts(p);
      assert vs == p + [vs[|vs| - 1]];
      assert multiset(vs) == multiset(p) + multiset{vs[|vs| - 1]};
    }
  }

  /** The sum of the counts of a distribution. */
  ghost function Total(m: map<MetaValue, nat>): nat
    decreases |m|
  {
    if m == map[] then 0
    else
      var k :| k in m;
      assert |m - {k}| < |m| by {
        assert m.Keys == (m - {k}).Keys + {k};
      }
      m[k] + Total(m - {k})
  }

  /** The sum taken with any key first. */
  lemma TotalAt(m: map<MetaValue, nat>, k: MetaValue)
    requires k in m
    ensures Total(m) == m[k] + Total(m - {k})
    decreases |m|
  {
    var j :| j in m && Total(m) == m[j] + Total(m - {j});
    if j != k {
      assert (m - {j}).Keys + {j} == m.Keys;
      assert (m - {k}).Keys + {k} == m.Keys;
      TotalAt(m - {j}, k);
      TotalAt(m - {k}, j);
      assert m - {j} - {k} == m - {k} - {j};
    }
  }

  /** The counts of a tally add up to the number of values counted. */
  lemma {:induction false} TallyTotal(vs: seq<MetaValue>)
    ensures Total(Tally(vs)) == |vs|
  {
    if vs != [] {
      var p := vs[..|vs| - 1];
      var v := vs[|vs| - 1];
      var m := Tally(p);
      TallyTotal(p);
      var c := if v in m then m[v] else 0;
      var m2 := m[v := c + 1];
      TotalAt(m2, v);
      assert m2 - {v} == m - {v};
      if v in m {
        TotalAt(m, v);
      } else {
        assert m - {v} == m;
      }
    }
  }

  /** How the tally of the first `k` entries extends by one. */
  lemma TallyNext(es: seq<Entry>, k: nat, key: string)
    requires k < |es|
    ensures var m := Tally(FieldValues(es[..k], key)); var v := MetaGet(es[k].metadata, key, MStr("unknown"));
      Tally(FieldValues(es[..k + 1], key)) == m[v := (if v in m then m[v] else 0) + 1]
  {
    assert es[..k + 1][..k] == es[..k];
    assert es[..k + 1][k] == es[k];
  }

  /** What `get_stats` returns. */
  datatype Stats = Stats(totalDocuments: nat, collectionName: string, persistDirectory: string,
                         sourceDistribution: map<MetaValue, nat>, typeDistribution: map<MetaValue, nat>)

  /** The distribution `get_stats` reports for a sample: it counts each value as often as the sample holds it, and the counts add up to the sample size. */
  lemma DistributionFacts(sample: seq<Entry>, key: string)
    ensures var d := Tally(FieldValues(sample, key));
      (forall v :: v in d <==> exists i :: 0 <= i < |sample| && MetaGet(sample[i].metadata, key, MStr("unknown")) == v)
      && (forall v :: v in d ==> d[v] == multiset(FieldValues(sample, key))[v])
      && Total(d) == |sample|
  {
    var vs := FieldValues(sample, key);
    FieldValuesAt(sample, key);
    TallyCounts(vs);
    TallyTotal(vs);
    forall v ensures v in multiset(vs) <==> exists i :: 0 <= i < |sample| && MetaGet(sample[i].metadata, key, MStr("unknown")) == v {
      if v in multiset(vs) {
        assert v in vs;
        var i :| 0 <= i < |vs| && vs[i] == v;
      }
      if exists i :: 0 <= i < |sample| && MetaGet(sample[i].metadata, key, MStr("unknown")) == v {
        var i :| 0 <= i < |sample| && MetaGet(sample[i].metadata, key, MStr("unknown")) == v;
        assert vs[i] == v;
      }
    }
  }

  // ---------------------------------------------------------------------------
  // The facade

  class RagSystem {
    const collectionName: string
    const persistDirectory: string
    /** The hexadecimal md5 digest of a key; only its determinism is modelled. */
    const digest: string -> string
    /** The collection's documents, in storage order. */
    var entries: seq<Entry>

    predicate Valid()
      reads this
    {
      Distinct(Ids(entries))
    }

    /** Opening (or creating) the named collection, which already holds `stored`. */
    constructor(collectionName: string, persistDirectory: string, digest: string -> string, stored: seq<Entry>)
      requires Distinct(Ids(stored))
      ensures Valid()
      ensures this.collectionName == collectionName && this.persistDirectory == persistDirectory
      ensures this.digest == digest && entries == stored
    {
      this.collectionName := collectionName;
      this.persistDirectory := persistDirectory;
      this.digest := digest;
      entries := stored;
    }

    /** The collection's `add`: refused when two of the entries share an id. */
    method Insert(xs: seq<Entry>) returns (ok: bool)
      requires Valid()
      modifies this
      ensures Valid()
      ensures ok == Distinct(Ids(xs))
      ensures entries == if ok then AddEntries(old(entries), xs) else old(entries)
    {
      if !Distinct(Ids(xs)) {
        return false;
      }
      AddEntriesFacts(entries, xs);
      entries := AddEntries(entries, xs);
      return true;
    }

    /** The collection's `delete(ids=...)`. */
    method Delete(ids: seq<string>)
      requires Valid()
      modifies this
      ensures Valid()
      ensures entries == WithoutIds(old(entries), ids)
    {
      WithoutIdsDistinct(entries, ids);
      entries := WithoutIds(entries, ids);
    }

    /** `add_document`: the id stored and returned. */
    method AddDocument(text: string, metadata: Metadata, docId: Option<string>, now: string) returns (r: Result<string>)
      requires Valid()
      modifies this
      ensures Valid()
      ensures r == DocumentId(digest, text, metadata, docId, now)
      ensures entries == if r.Ok? then AddEntries(old(entries), [Entry(r.value, text, metadata)]) else old(entries)
    {
      var id: string;
      if docId.None? {
        var key := DocumentKey(text, metadata, now);
        if key.Err? {
          return Err(key.error);
        }
        id := digest(key.value);
      } else {
        id := docId.value;
      }
      var ok := Insert([Entry(id, text, metadata)]);
      assert ok;
      return Ok(id);
    }

    /** `add_documents_batch`. */
    method AddDocumentsBatch(documents: seq<Doc>, batchSize: int) returns (r: Result<seq<string>>)
      requires Valid()
      modifies this
      ensures Valid()
      ensures (r, entries) == AddBatches(digest, old(entries), documents, batchSize)
    {
      if batchSize == 0 {
        return Err(ValueError);
      }
      if batchSize < 0 {
        return Ok([]);
      }
      ghost var target := RunBatches(digest, entries, Batches(documents, batchSize, 0));
      var allIds: seq<string> := [];
      assert Prepend(allIds, target.0) == target.0 by {
        if target.0.Ok? {
          assert allIds + target.0.value == target.0.value;
        }
      }
      var i: nat := 0;
      while i < |documents|
        invariant Valid()
        invariant target.1 == RunBatches(digest, entries, Batches(documents, batchSize, i)).1
        invariant target.0 == Prepend(allIds, RunBatches(digest, entries, Batches(documents, batchSize, i)).0)
        decreases |documents| - i
      {
        var batch := Slice(documents, i, i + batchSize);
        var xs := EntriesOf(digest, batch);
        var ids := Ids(xs);
        ghost var before := entries;
        var ok := Insert(xs);
        if !ok {
          BatchRefused(digest, before, documents, batchSize, i, allIds, target);
          return Err(DuplicateId);
        }
        BatchKept(digest, before, documents, batchSize, i, allIds, target);
        allIds := allIds + ids;
        i := i + batchSize;
      }
      assert Batches(documents, batchSize, i) == [];
      assert allIds + [] == allIds;
      return Ok(allIds);
    }

    /** `delete_document`: always reports success. */
    method DeleteDocument(docId: string) returns (ok: bool)
      requires Valid()
      modifies this
      ensures Valid()
      ensures ok && entries == WithoutIds(old(entries), [docId])
    {
      Delete([docId]);
      return true;
    }

    /** `delete_by_filter` for the filter `{key: value}`: the number of matching documents, all of them removed. */
    method DeleteByFilter(key: string, value: MetaValue) returns (count: nat)
      requires Valid()
      modifies this
      ensures Valid()
      ensures count == |MatchIds(old(entries), key, value)|
      ensures entries == Unmatched(old(entries), key, value)
    {
      var ids := MatchIds(entries, key, value);
      if ids == [] {
        UnmatchedNone(entries, key, value);
        return 0;
      }
      count := |ids|;
      MatchIdsExact(entries, key, value);
      DeleteMatched(entries, ids, key, value);
      Delete(ids);
    }

    /** `get_stats`: the distributions are counted over the first ten stored documents. */
    method GetStats() returns (s: Stats)
      ensures s.totalDocuments == |entries| && s.collectionName == collectionName && s.persistDirectory == persistDirectory
      ensures s.sourceDistribution == Tally(FieldValues(Take(entries, 10), "source"))
      ensures s.typeDistribution == Tally(FieldValues(Take(entries, 10), "type"))
    {
      var count := |entries|;
      var sample := Take(entries, 10);
      var sourceCounts: map<MetaValue, nat> := map[];
      var typeCounts: map<MetaValue, nat> := map[];
      var k := 0;
      while k < |sample|
        invariant 0 <= k <= |sample|
        invariant sourceCounts == Tally(FieldValues(sample[..k], "source"))
        invariant typeCounts == Tally(FieldValues(sample[..k], "type"))
      {
        var metadata := sample[k].metadata;
        var source := MetaGet(metadata, "source", MStr("unknown"));
        var docType := MetaGet(metadata, "type", MStr("unknown"));
        TallyNext(sample, k, "source");
        TallyNext(sample, k, "type");
        sourceCounts := sourceCounts[source := (if source in sourceCounts then sourceCounts[source] else 0) + 1];
        typeCounts := typeCounts[docType := (if docType in typeCounts then typeCounts[docType] else 0) + 1];
        k := k + 1;
      }
      assert sample[..k] == sample;
      return Stats(count, collectionName, persistDirectory, sourceCounts, typeCounts);
    }
  }
}
