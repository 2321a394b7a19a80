/**
 * Document ingestion: the paragraph chunker, the file filter, and the records
 * (chunk text and metadata) that workspace files and skill guides are stored as.
 */
module IngestDocs {
  import opened PyStr
  import opened PyData

  /** The paragraph separator, also appended after each paragraph kept in a buffer. */
  const Sep: string := "\n\n"

  /** The buffer text that holds the paragraphs `g`: each one followed by a separator. */
  function Buffer(g: seq<string>): string {
    if g == [] then "" else g[0] + Sep + Buffer(g[1..])
  }

  lemma {:induction false} BufferAppend(a: seq<string>, b: seq<string>)
    ensures Buffer(a + b) == Buffer(a) + Buffer(b)
  {
    if a != [] {
      assert (a + b)[1..] == a[1..] + b;
      BufferAppend(a[1..], b);
    } else {
      assert a + b == b;
    }
  }

  lemma BufferEmpty(g: seq<string>)
    ensures Buffer(g) == "" <==> g == []
  {
  }

  /** A buffer is the separator-join of its paragraphs with one more separator after it. */
  lemma {:induction false} BufferJoin(g: seq<string>)
    requires g != []
    ensures Buffer(g) == Join(Sep, g) + Sep
  {
    if |g| > 1 {
      BufferJoin(g[1..]);
    }
  }

  /**
   * The greedy packing of the paragraphs `ps` into buffers of at most `maxChars`
   * characters, given the paragraphs `open` of the buffer being filled: a paragraph
   * joins it when the buffer, the paragraph and a separator fit; otherwise the buffer
   * is closed (when it holds anything) and the paragraph starts the next one.
   */
  function Pack(ps: seq<string>, maxChars: int, open: seq<string>): seq<seq<string>>
    decreases |ps|
  {
    if ps == [] then (if open == [] then [] else [open])
    else if |Buffer(open)| + |ps[0]| + 2 <= maxChars then Pack(ps[1..], maxChars, open + [ps[0]])
    else (if open == [] then [] else [open]) + Pack(ps[1..], maxChars, [ps[0]])
  }

  function Buffers(gs: seq<seq<string>>): (r: seq<string>)
    ensures |r| == |gs| && forall k :: 0 <= k < |gs| ==> r[k] == Buffer(gs[k])
  {
    if gs == [] then [] else Buffers(gs[..|gs| - 1]) + [Buffer(gs[|gs| - 1])]
  }

  function StripEach(bs: seq<string>): (r: seq<string>)
    ensures |r| == |bs| && forall k :: 0 <= k < |bs| ==> r[k] == Strip(bs[k])
  {
    if bs == [] then [] else StripEach(bs[..|bs| - 1]) + [Strip(bs[|bs| - 1])]
  }

  /** The paragraph groups of a text longer than `maxChars`. */
  function Groups(text: string, maxChars: int): seq<seq<string>> {
    Pack(Split(text, Sep), maxChars, [])
  }

  /** What `chunk_text` returns: the text itself when it fits, else the stripped buffers in order. */
  function Chunks(text: string, maxChars: int): seq<string> {
    if |text| <= maxChars then [text] else StripEach(Buffers(Groups(text, maxChars)))
  }

  /** `chunk_text`. The `overlap` argument is accepted and never used. */
  method ChunkText(text: string, maxChars: int, overlap: int) returns (chunks: seq<string>)
    ensures chunks == Chunks(text, maxChars)
    ensures |text| <= maxChars ==> chunks == [text]
  {
    if |text| <= maxChars {
      return [text];
    }
    var paragraphs := Split(text, Sep);
    var current := "";
    chunks := [];
    ghost var open: seq<string> := [];
    ghost var closed: seq<seq<string>> := [];
    ghost var target := Pack(paragraphs, maxChars, []);
    var k := 0;
    assert paragraphs[0..] == paragraphs;
    while k < |paragraphs|
      invariant 0 <= k <= |paragraphs|
      invariant current == Buffer(open)
      invariant chunks == StripEach(Buffers(closed))
      invariant closed + Pack(paragraphs[k..], maxChars, open) == target
    {
      var para := paragraphs[k];
      PackStep(paragraphs, k, maxChars, open, closed, target);
      if |current| + |para| + 2 <= maxChars {
        BufferAppend(open, [para]);
        current := current + para + Sep;
        open := open + [para];
      } else {
        BufferEmpty(open);
        if current != "" {
          ChunksSnoc(closed, open);
          chunks := chunks + [Strip(current)];
          closed := closed + [open];
        }
        current := para + Sep;
        open := [para];
      }
      k := k + 1;
    }
    BufferEmpty(open);
    if current != "" {
      ChunksSnoc(closed, open);
      chunks := chunks + [Strip(current)];
      closed := closed + [open];
    }
    assert paragraphs[k..] == [];
  }

  /** One step of the packing loop, at paragraph `k`, keeps the groups still to come in step with the whole packing. */
  lemma PackStep(ps: seq<string>, k: nat, maxChars: int, open: seq<string>, closed: seq<seq<string>>,
                 target: seq<seq<string>>)
    requires k < |ps|
    requires closed + Pack(ps[k..], maxChars, open) == target
    ensures var p := ps[k];
      if |Buffer(open)| + |p| + 2 <= maxChars then closed + Pack(ps[k + 1..], maxChars, open + [p]) == target
      else if open == [] then closed + Pack(ps[k + 1..], maxChars, [p]) == target
      else closed + [open] + Pack(ps[k + 1..], maxChars, [p]) == target
  {
    assert ps[k..][1..] == ps[k + 1..];
    var p := ps[k];
    if |Buffer(open)| + |p| + 2 > maxChars {
      var rest := Pack(ps[k + 1..], maxChars, [p]);
      if open == [] {
        assert [] + rest == rest;
      } else {
        assert closed + [open] + rest == closed + ([open] + rest);
      }
    }
  }

  lemma ChunksSnoc(closed: seq<seq<string>>, g: seq<string>)
    ensures StripEach(Buffers(closed + [g])) == StripEach(Buffers(closed)) + [Strip(Buffer(g))]
  {
    assert (closed + [g])[..|closed|] == closed;
    assert Buffers(closed + [g])[..|closed|] == Buffers(closed);
  }

  // ---------------------------------------------------------------------------
  // Properties of the packing

  /** Packing keeps every paragraph, in order: the groups concatenate to `open + ps`. */
  lemma {:induction false} PackConcat(ps: seq<string>, maxChars: int, open: seq<string>)
    ensures Concat(Pack(ps, maxChars, open)) == open + ps
    decreases |ps|
  {
    var r := Pack(ps, maxChars, open);
    if ps == [] {
      if open != [] {
        assert Concat([open]) == Concat([open][..0]) + open;
      }
    } else {
      assert ps == [ps[0]] + ps[1..];
      if |Buffer(open)| + |ps[0]| + 2 <= maxChars {
        PackConcat(ps[1..], maxChars, open + [ps[0]]);
      } else {
        var rest := Pack(ps[1..], maxChars, [ps[0]]);
        PackConcat(ps[1..], maxChars, [ps[0]]);
        assert Concat(rest) == ps;
        if open != [] {
          ConcatAppend([open], rest);
          assert Concat([open]) == Concat([open][..0]) + open;
          assert r == [open] + rest;
        } else {
          assert r == rest;
        }
      }
    }
  }

  /** No group is empty. */
  lemma {:induction false} PackNonEmpty(ps: seq<string>, maxChars: int, open: seq<string>)
    ensures forall k :: 0 <= k < |Pack(ps, maxChars, open)| ==> Pack(ps, maxChars, open)[k] != []
    decreases |ps|
  {
    if ps != [] {
      if |Buffer(open)| + |ps[0]| + 2 <= maxChars {
        PackNonEmpty(ps[1..], maxChars, open + [ps[0]]);
      } else {
        PackNonEmpty(ps[1..], maxChars, [ps[0]]);
      }
    }
  }

  /** The buffer being filled is the start of the first group. */
  lemma {:induction false} PackHead(ps: seq<string>, maxChars: int, open: seq<string>)
    requires open != []
    ensures Pack(ps, maxChars, open) != []
    ensures StartsWith(Pack(ps, maxChars, open)[0], open)
    decreases |ps|
  {
    if ps != [] {
      if |Buffer(open)| + |ps[0]| + 2 <= maxChars {
        PackHead(ps[1..], maxChars, open + [ps[0]]);
        assert (open + [ps[0]])[..|open|] == open;
      }
    }
  }

  /** A buffer that took in a second paragraph fits in `maxChars`. */
  lemma {:induction false} PackBound(ps: seq<string>, maxChars: int, open: seq<string>)
    requires |open| >= 2 ==> |Buffer(open)| <= maxChars
    ensures forall k :: 0 <= k < |Pack(ps, maxChars, open)| && |Pack(ps, maxChars, open)[k]| >= 2
              ==> |Buffer(Pack(ps, maxChars, open)[k])| <= maxChars
    decreases |ps|
  {
    if ps != [] {
      if |Buffer(open)| + |ps[0]| + 2 <= maxChars {
        BufferAppend(open, [ps[0]]);
        PackBound(ps[1..], maxChars, open + [ps[0]]);
      } else {
        PackBound(ps[1..], maxChars, [ps[0]]);
      }
    }
  }

  /** Group `k + 1` starts with a paragraph that did not fit into the buffer of group `k`. */
  predicate Overflows(gs: seq<seq<string>>, k: nat, maxChars: int)
    requires k + 1 < |gs|
  {
    gs[k + 1] != [] && |Buffer(gs[k])| + |gs[k + 1][0]| + 2 > maxChars
  }

  /** Greedy: the first paragraph of each group did not fit into the group before it. */
  lemma {:induction false} PackGreedy(ps: seq<string>, maxChars: int, open: seq<string>)
    ensures forall k: nat :: k + 1 < |Pack(ps, maxChars, open)| ==> Overflows(Pack(ps, maxChars, open), k, maxChars)
    decreases |ps|
  {
    if ps != [] {
      if |Buffer(open)| + |ps[0]| + 2 <= maxChars {
        PackGreedy(ps[1..], maxChars, open + [ps[0]]);
      } else {
        var rest := Pack(ps[1..], maxChars, [ps[0]]);
        PackGreedy(ps[1..], maxChars, [ps[0]]);
        PackHead(ps[1..], maxChars, [ps[0]]);
        if open != [] {
          var r := [open] + rest;
          assert r[1] == rest[0] && rest[0][..1] == [ps[0]];
          assert r[1][0] == ps[0];
          forall k: nat | k + 1 < |r|
            ensures Overflows(r, k, maxChars)
          {
            if k > 0 {
              assert Overflows(rest, k - 1, maxChars);
              assert r[k] == rest[k - 1] && r[k + 1] == rest[k];
            }
          }
          assert Pack(ps, maxChars, open) == r;
        } else {
          assert Pack(ps, maxChars, open) == [] + rest == rest;
        }
      }
    }
  }

  lemma {:induction false} PackSome(ps: seq<string>, maxChars: int, open: seq<string>)
    requires ps != [] || open != []
    ensures Pack(ps, maxChars, open) != []
  {
    if open != [] {
      PackHead(ps, maxChars, open);
    } else {
      var p := ps[0];
      if |Buffer(open)| + |p| + 2 <= maxChars {
        PackHead(ps[1..], maxChars, open + [p]);
      } else {
        PackHead(ps[1..], maxChars, [p]);
      }
    }
  }

  /** The buffers of a packing, concatenated, are the buffer of all its paragraphs. */
  lemma {:induction false} ConcatBuffers(gs: seq<seq<string>>)
    ensures Concat(Buffers(gs)) == Buffer(Concat(gs))
    decreases |gs|
  {
    if gs != [] {
      var n := |gs|;
      ConcatBuffers(gs[..n - 1]);
      BufferAppend(Concat(gs[..n - 1]), gs[n - 1]);
    }
  }

  // ---------------------------------------------------------------------------
  // Properties of `chunk_text`

  /**
   * A long text loses and repeats nothing: its unstripped buffers, concatenated in
   * order, are the text followed by one separator; each chunk is its buffer stripped.
   */
  lemma ChunksReconstruct(text: string, maxChars: int)
    requires |text| > maxChars
    ensures Concat(Buffers(Groups(text, maxChars))) == text + Sep
    ensures |Chunks(text, maxChars)| == |Groups(text, maxChars)|
    ensures forall k :: 0 <= k < |Chunks(text, maxChars)| ==>
              Chunks(text, maxChars)[k] == Strip(Buffer(Groups(text, maxChars)[k]))
  {
    var ps := Split(text, Sep);
    PackConcat(ps, maxChars, []);
    assert [] + ps == ps;
    ConcatBuffers(Groups(text, maxChars));
    BufferJoin(ps);
  }

  /**
   * Only a buffer holding a single paragraph can exceed `maxChars`; every buffer
   * is non-empty; and each group's first paragraph did not fit into the buffer before.
   */
  lemma ChunksBound(text: string, maxChars: int)
    requires |text| > maxChars
    ensures forall k :: 0 <= k < |Groups(text, maxChars)| ==> Groups(text, maxChars)[k] != []
    ensures forall k :: 0 <= k < |Groups(text, maxChars)| && |Groups(text, maxChars)[k]| >= 2
              ==> |Buffer(Groups(text, maxChars)[k])| <= maxChars
    ensures forall k: nat :: k + 1 < |Groups(text, maxChars)| ==> Overflows(Groups(text, maxChars), k, maxChars)
  {
    var ps := Split(text, Sep);
    PackNonEmpty(ps, maxChars, []);
    PackBound(ps, maxChars, []);
    PackGreedy(ps, maxChars, []);
  }

  /** A long text gives at least one chunk and no more chunks than paragraphs. */
  lemma ChunksCount(text: string, maxChars: int)
    requires |text| > maxChars
    ensures 1 <= |Chunks(text, maxChars)| <= |Split(text, Sep)|
  {
    var ps := Split(text, Sep);
    PackSome(ps, maxChars, []);
    PackNonEmpty(ps, maxChars, []);
    PackConcat(ps, maxChars, []);
    ConcatCount(Pack(ps, maxChars, []));
  }

  /** A text that fits is its own single chunk. */
  lemma ChunksShort(text: string, maxChars: int)
    requires |text| <= maxChars
    ensures Chunks(text, maxChars) == [text]
  {
  }

  lemma SplitTrailingSeparator()
    ensures Split("a\n\n", Sep) == ["a", ""]
  {
    var text := "a\n\n";
    assert text[0..2][0] == 'a' != Sep[0];
    assert text[1..3] == Sep;
    assert FindFrom(text, Sep, 1) == 1;
    assert Find(text, Sep) == 1;
    assert text[..1] == "a" && text[3..] == "";
    assert FindFrom("", Sep, 0) == -1;
    assert Split("", Sep) == [""];
  }

  lemma GroupsTrailingSeparator()
    ensures Groups("a\n\n", 2) == [["a"], [""]]
  {
    SplitTrailingSeparator();
    assert Buffer(["a"]) == "a\n\n";
    assert Pack([""], 2, ["a"]) == [["a"], [""]];
  }

  lemma RStripExample()
    ensures RStrip("a\n\n") == "a"
  {
    var s := "a\n\n";
    assert IsSpace(s[2]) && s[..2] == "a\n";
    assert IsSpace("a\n"[1]) && "a\n"[..1] == "a";
    assert !IsSpace("a"[0]);
  }

  lemma StripExamples()
    ensures Strip("a\n\n") == "a" && Strip("\n\n") == ""
  {
    assert !IsSpace('a');
    assert LStrip("a\n\n") == "a\n\n";
    RStripExample();
    assert IsSpace("\n\n"[0]) && IsSpace("\n\n"[1]);
    assert IsBlank("\n\n");
  }

  lemma StripTrailingSeparator()
    ensures StripEach(["a\n\n", "\n\n"]) == ["a", ""]
  {
    var bs := ["a\n\n", "\n\n"];
    var r := StripEach(bs);
    StripExamples();
    assert r[0] == Strip(bs[0]) == "a" && r[1] == Strip(bs[1]) == "";
  }

  /** A text of one short paragraph and a trailing separator gives an empty second chunk. */
  lemma ChunksTrailingSeparator()
    ensures Chunks("a\n\n", 2) == ["a", ""]
  {
    GroupsTrailingSeparator();
    assert [["a"]][..0] == [] && ["a"][1..] == [];
    assert Buffer(["a"]) == "a\n\n";
    assert Buffers([["a"]]) == ["a\n\n"];
    assert [["a"], [""]][..1] == [["a"]] && Buffer([""]) == Sep;
    assert Buffers([["a"], [""]]) == ["a\n\n", "\n\n"];
    StripTrailingSeparator();
  }

  // ---------------------------------------------------------------------------
  // The file filter

  /** The suffixes of files never ingested, compared after lower-casing. */
  const BinarySuffixes: seq<string> := [".pyc", ".so", ".o", ".a", ".png", ".jpg", ".jpeg", ".gif", ".zip", ".tar", ".gz"]

  /** `s.rfind(c)`. */
  function LastIndexOf(s: string, c: char): (i: int)
    ensures -1 <= i < |s|
    ensures i >= 0 ==> s[i] == c && forall j :: i < j < |s| ==> s[j] != c
    ensures i == -1 ==> forall j :: 0 <= j < |s| ==> s[j] != c
  {
    if s == [] then -1 else if s[|s| - 1] == c then |s| - 1 else LastIndexOf(s[..|s| - 1], c)
  }

  /** Whether the last dot of a file name starts its suffix: not the first character and not the last. */
  predicate HasSuffix(name: string) {
    0 < LastIndexOf(name, '.') < |name| - 1
  }

  /** `path.suffix` of a path whose final component is `name`. */
  function Suffix(name: string): (r: string)
    ensures r == "" || (|r| >= 2 && r[0] == '.' && forall j :: 1 <= j < |r| ==> r[j] != '.')
  {
    if HasSuffix(name) then name[LastIndexOf(name, '.')..] else ""
  }

  /** `path.stem` of a path whose final component is `name`. */
  function Stem(name: string): string {
    if HasSuffix(name) then name[..LastIndexOf(name, '.')] else name
  }

  /** A file name is its stem followed by its suffix. */
  lemma StemSuffix(name: string)
    ensures Stem(name) + Suffix(name) == name
  {
  }

  /** A non-empty stem and a dotted extension without further dots: that extension is the suffix. */
  lemma SuffixOf(stem: string, ext: string)
    requires stem != [] && |ext| >= 2 && ext[0] == '.'
    requires forall j :: 1 <= j < |ext| ==> ext[j] != '.'
    ensures Suffix(stem + ext) == ext && Stem(stem + ext) == stem
  {
    var name := stem + ext;
    assert name[|stem|] == '.';
    assert forall j :: |stem| < j < |name| ==> name[j] == ext[j - |stem|];
    assert LastIndexOf(name, '.') == |stem|;
  }

  /**
   * `is_text_file` for a file named `name` whose size in bytes is `size`, or `None`
   * when `stat` fails. The size limit `maxSizeMb` is in MiB; since dividing the byte
   * count by 2^20 is exact, `size / 2^20 > maxSizeMb` is `size > maxSizeMb * 2^20`.
   */
  predicate IsTextFile(name: string, size: Option<nat>, maxSizeMb: nat) {
    Lower(Suffix(name)) !in BinarySuffixes && size.Some? && size.value <= maxSizeMb * 1048576
  }

  /** A binary extension rules a file out in any letter case, whatever its size. */
  lemma BinaryRejected(stem: string, ext: string, size: Option<nat>, maxSizeMb: nat)
    requires stem != [] && Lower(ext) in BinarySuffixes
    ensures !IsTextFile(stem + ext, size, maxSizeMb)
  {
    var k :| 0 <= k < |BinarySuffixes| && BinarySuffixes[k] == Lower(ext);
    assert forall j :: 1 <= j < |ext| ==> ext[j] != '.' by {
      forall j | 1 <= j < |ext| ensures ext[j] != '.' {
        assert LowerChar(ext[j]) == Lower(ext)[j];
      }
    }
    assert ext[0] == '.' by {
      assert LowerChar(ext[0]) == Lower(ext)[0] == '.';
    }
    SuffixOf(stem, ext);
  }

  /** The size test: at most `maxSizeMb` MiB passes, one byte more does not, and a failed `stat` never passes. */
  lemma SizeLimit(name: string, maxSizeMb: nat)
    requires Lower(Suffix(name)) !in BinarySuffixes
    ensures IsTextFile(name, Some(maxSizeMb * 1048576), maxSizeMb)
    ensures !IsTextFile(name, Some(maxSizeMb * 1048576 + 1), maxSizeMb)
    ensures !IsTextFile(name, None, maxSizeMb)
  {
  }

  /** A dot file such as `.gz` has no suffix, so the extension list does not reject it. */
  lemma DotFileHasNoSuffix()
    ensures Suffix(".gz") == "" && IsTextFile(".gz", Some(0), 1)
  {
    assert LastIndexOf(".gz", '.') == 0;
  }

  // ---------------------------------------------------------------------------
  // Records of workspace files and skill guides

  /** A chunk and the metadata it is stored with. */
  datatype Record = Record(text: string, metadata: Metadata)

  /** The loop `for i, chunk in enumerate(chunks)`: chunk `i` of `n` paired with the metadata `meta(i, n)`. */
  method Enumerate(chunks: seq<string>, meta: (nat, nat) -> Metadata) returns (records: seq<Record>)
    ensures |records| == |chunks|
    ensures forall i :: 0 <= i < |chunks| ==> records[i] == Record(chunks[i], meta(i, |chunks|))
  {
    records := [];
    var i := 0;
    while i < |chunks|
      invariant 0 <= i <= |chunks| && |records| == i
      invariant forall j :: 0 <= j < i ==> records[j] == Record(chunks[j], meta(j, |chunks|))
    {
      records := records + [Record(chunks[i], meta(i, |chunks|))];
      i := i + 1;
    }
  }

  /**
   * The chunks of a workspace file: `chunk_text` is called only on content longer
   * than 4000 characters, which is exactly where its own short case stops applying.
   */
  method WorkspaceChunks(content: string) returns (textChunks: seq<string>)
    ensures textChunks == Chunks(content, 4000)
  {
    if |content| > 4000 {
      textChunks := ChunkText(content, 4000, 200);
    } else {
      textChunks := [content];
      ChunksShort(content, 4000);
    }
  }

  /** The metadata of chunk `index` of `total` of a workspace file. */
  function WorkspaceMetadata(relPath: string, filePath: string, extension: string, fileSize: nat,
                             index: nat, total: nat, now: string): Metadata
  {
    map["type" := MStr("workspace"), "source" := MStr(relPath), "file_path" := MStr(filePath),
        "file_size" := MInt(fileSize), "chunk_index" := MInt(index), "total_chunks" := MInt(total),
        "file_extension" := MStr(extension), "ingested_at" := MStr(now)]
  }

  /**
   * The records `ingest_workspace` stores for one file with the given content: the
   * content is chunked only when longer than 4000 characters, and chunk `i` carries
   * index `i` and the chunk count.
   */
  method WorkspaceRecords(relPath: string, filePath: string, fileName: string, content: string, now: string)
    returns (records: seq<Record>)
    ensures |records| == |Chunks(content, 4000)|
    ensures forall i :: 0 <= i < |records| ==>
              records[i].text == Chunks(content, 4000)[i] &&
              records[i].metadata == WorkspaceMetadata(relPath, filePath, Lower(Suffix(fileName)), |content|, i, |records|, now)
  {
    var textChunks := WorkspaceChunks(content);
    var extension := Lower(Suffix(fileName));
    records := Enumerate(textChunks, (i: nat, n: nat) => WorkspaceMetadata(relPath, filePath, extension, |content|, i, n, now));
  }

  /** The skill name of a guide at the path with components `path`: its directory for `SKILL.md`, else its stem. */
  function SkillName(path: seq<string>): string {
    var name := if path == [] then "" else path[|path| - 1];
    if name == "SKILL.md" then (if |path| >= 2 then path[|path| - 2] else "") else Stem(name)
  }

  /** A `SKILL.md` takes the name of the directory holding it. */
  lemma SkillNameOfGuide(dirs: seq<string>, dir: string)
    ensures SkillName(dirs + [dir, "SKILL.md"]) == dir
  {
  }

  /** The metadata of chunk `index` of `total` of a skill guide. */
  function SkillMetadata(skillName: string, filePath: string, index: nat, total: nat, now: string): Metadata {
    map["type" := MStr("skill"), "source" := MStr("skill:" + skillName), "skill_name" := MStr(skillName),
        "file_path" := MStr(filePath), "chunk_index" := MInt(index), "total_chunks" := MInt(total),
        "ingested_at" := MStr(now)]
  }

  /** The records `ingest_skills` stores for one guide: chunks of at most 3000 characters, indexed in order. */
  method SkillRecords(path: seq<string>, filePath: string, content: string, now: string)
    returns (records: seq<Record>)
    ensures |records| == |Chunks(content, 3000)|
    ensures forall i :: 0 <= i < |records| ==>
              records[i].text == Chunks(content, 3000)[i] &&
              records[i].metadata == SkillMetadata(SkillName(path), filePath, i, |records|, now)
  {
    var name := SkillName(path);
    var chunks := ChunkText(content, 3000, 100);
    records := Enumerate(chunks, (i: nat, n: nat) => SkillMetadata(name, filePath, i, n, now));
  }
}
