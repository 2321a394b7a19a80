/**
 * The Python `str` operations the scripts rely on, over `string` (a sequence of
 * Unicode scalar values, one `char` per Python code point).
 */
module PyStr {

  /** `c.isspace()`: the characters that `str.strip()` and `str.split()` treat as whitespace. */
  predicate IsSpace(c: char) {
    ('\t' <= c <= '\r') || ('\U{1c}' <= c <= ' ') || c == '\U{85}' || c == '\U{a0}'
    || c == '\U{1680}' || ('\U{2000}' <= c <= '\U{200a}') || c == '\U{2028}' || c == '\U{2029}'
    || c == '\U{202f}' || c == '\U{205f}' || c == '\U{3000}'
  }

  /** A string that is falsy once stripped: `not s.strip()`. */
  predicate IsBlank(s: string) {
    forall i :: 0 <= i < |s| ==> IsSpace(s[i])
  }

  /** `s.lstrip()`: drops the leading whitespace and nothing else. */
  function LStrip(s: string): (r: string)
    ensures EndsWith(s, r)
    ensures IsBlank(s[..|s| - |r|])
    ensures r == [] || !IsSpace(r[0])
  {
    if s != [] && IsSpace(s[0]) then LStrip(s[1..]) else s
  }

  /** `s.rstrip()`: drops the trailing whitespace and nothing else. */
  function RStrip(s: string): (r: string)
    ensures StartsWith(s, r)
    ensures IsBlank(s[|r|..])
    ensures r == [] || !IsSpace(r[|r| - 1])
  {
    if s != [] && IsSpace(s[|s| - 1]) then
      var r := RStrip(s[..|s| - 1]);
      assert s[..|r|] == s[..|s| - 1][..|r|];
      assert s[|r|..] == s[..|s| - 1][|r|..] + [s[|s| - 1]];
      r
    else s
  }

  lemma BlankConcat(a: string, b: string)
    requires IsBlank(a) && IsBlank(b)
    ensures IsBlank(a + b)
  {
    forall i | 0 <= i < |a + b| ensures IsSpace((a + b)[i]) {
      if i >= |a| { assert (a + b)[i] == b[i - |a|]; }
    }
  }

  /** `s.strip()`: a window of `s` with no whitespace at either end; empty exactly for blank `s`. */
  function Strip(s: string): (r: string)
    ensures |r| <= |s|
    ensures r == [] <==> IsBlank(s)
    ensures r == [] || (!IsSpace(r[0]) && !IsSpace(r[|r| - 1]))
  {
    var l := LStrip(s);
    var r := RStrip(l);
    if r == [] then
      assert l[0..] == l;
      assert s == s[..|s| - |l|] + l;
      BlankConcat(s[..|s| - |l|], l);
      r
    else
      assert r[0] == s[|s| - |l|];
      r
  }

  /** A string that neither starts nor ends with whitespace is its own `strip()`. */
  lemma StripClean(s: string)
    requires s != [] && !IsSpace(s[0]) && !IsSpace(s[|s| - 1])
    ensures Strip(s) == s
  {
    assert LStrip(s) == s;
  }

  /** `s.lstrip(c)` for one character `c`. */
  function LStripChar(s: string, c: char): (r: string)
    ensures |r| <= |s| && r == s[|s| - |r|..]
    ensures forall i :: 0 <= i < |s| - |r| ==> s[i] == c
    ensures r == [] || r[0] != c
  {
    if s != [] && s[0] == c then LStripChar(s[1..], c) else s
  }

  predicate StartsWith<T(==)>(s: seq<T>, prefix: seq<T>) {
    |prefix| <= |s| && s[..|prefix|] == prefix
  }

  predicate EndsWith<T(==)>(s: seq<T>, suffix: seq<T>) {
    |suffix| <= |s| && s[|s| - |suffix|..] == suffix
  }

  lemma StartsWithConcat<T>(a: seq<T>, b: seq<T>)
    ensures StartsWith(a + b, a)
  {
    assert (a + b)[..|a|] == a;
  }

  lemma EndsWithConcat<T>(a: seq<T>, b: seq<T>)
    ensures EndsWith(a + b, b)
  {
    assert (a + b)[|a|..] == b;
  }

  /** `s[:n]` for a non-negative constant `n`. */
  function Take<T>(s: seq<T>, n: nat): (r: seq<T>)
    ensures |r| == if |s| < n then |s| else n
    ensures r == s[..|r|]
  {
    if |s| <= n then s else s[..n]
  }

  /** Where a Python slice bound `i` lands in a sequence of length `len`. */
  function SliceIndex(i: int, len: nat): (k: nat)
    ensures k <= len
    ensures 0 <= i <= len ==> k == i
  {
    if i < 0 then (if i + len < 0 then 0 else i + len) else if i > len then len else i
  }

  /** `s[lo:hi]` with Python's rules for negative and out-of-range bounds. */
  function Slice<T>(s: seq<T>, lo: int, hi: int): seq<T> {
    var a, b := SliceIndex(lo, |s|), SliceIndex(hi, |s|);
    if a <= b then s[a..b] else []
  }

  /** The length budget of the result formatters: `text[:n] + "..."` when `len(text) > n`. */
  function Truncate(s: string, n: nat): string {
    if |s| > n then s[..n] + "..." else s
  }

  lemma TruncateBudget(s: string, n: nat)
    ensures |s| <= n ==> Truncate(s, n) == s
    ensures |s| > n ==> |Truncate(s, n)| == n + 3 && StartsWith(Truncate(s, n), s[..n])
    ensures StartsWith(s, Truncate(s, n)) || StartsWith(Truncate(s, n), s[..n])
  {
  }

  /** `sep.join(xs)`. */
  function Join(sep: string, xs: seq<string>): string {
    if |xs| == 0 then "" else if |xs| == 1 then xs[0] else xs[0] + sep + Join(sep, xs[1..])
  }

  /** Where `xs[k]` starts inside `Join(sep, xs)`. */
  function JoinOffset(sep: string, xs: seq<string>, k: nat): nat
    requires k <= |xs|
  {
    if k == 0 then 0 else |xs[0]| + |sep| + JoinOffset(sep, xs[1..], k - 1)
  }

  /** Every part of a join sits verbatim at its offset, so the parts can be read back in order. */
  lemma {:induction false} JoinAt(sep: string, xs: seq<string>, k: nat)
    requires k < |xs|
    ensures OccursAt(Join(sep, xs), xs[k], JoinOffset(sep, xs, k))
  {
    if k > 0 {
      JoinAt(sep, xs[1..], k - 1);
      OccursShift(xs[0] + sep, Join(sep, xs[1..]), "", xs[k], JoinOffset(sep, xs[1..], k - 1));
      assert Join(sep, xs) == xs[0] + sep + Join(sep, xs[1..]) + "";
    } else {
      JoinFirst(sep, xs);
    }
  }

  /** A join starts with its first part. */
  lemma JoinFirst(sep: string, xs: seq<string>)
    requires xs != []
    ensures StartsWith(Join(sep, xs), xs[0])
  {
    if |xs| > 1 {
      assert Join(sep, xs) == xs[0] + (sep + Join(sep, xs[1..]));
      StartsWithConcat(xs[0], sep + Join(sep, xs[1..]));
    }
  }

  /** An occurrence stays one when text is put around it, moved by the length of what goes before. */
  lemma OccursShift(pre: string, s: string, post: string, pat: string, i: nat)
    requires OccursAt(s, pat, i)
    ensures OccursAt(pre + s + post, pat, |pre| + i)
  {
    assert (pre + s + post)[|pre| + i..|pre| + i + |pat|] == s[i..i + |pat|];
  }

  /** A join of a head line and parts starts with the head and holds part `k` at its offset. */
  lemma JoinHoldsParts(sep: string, head: string, parts: seq<string>, k: nat)
    requires k < |parts|
    ensures StartsWith(Join(sep, [head] + parts), head)
    ensures OccursAt(Join(sep, [head] + parts), parts[k], JoinOffset(sep, [head] + parts, k + 1))
  {
    var xs := [head] + parts;
    assert xs[k + 1] == parts[k];
    JoinAt(sep, xs, k + 1);
    JoinFirst(sep, xs);
  }

  /** In such a join, part `k + 1` starts one separator after part `k` ends. */
  lemma JoinPartsAdjacent(sep: string, head: string, parts: seq<string>, k: nat)
    requires k + 1 < |parts|
    ensures JoinOffset(sep, [head] + parts, k + 2) == JoinOffset(sep, [head] + parts, k + 1) + |parts[k]| + |sep|
  {
    var xs := [head] + parts;
    assert xs[k + 1] == parts[k];
    JoinOffsetNext(sep, xs, k + 1);
  }

  /** Offsets grow with the index: part `k + 1` follows part `k` and one separator. */
  lemma {:induction false} JoinOffsetNext(sep: string, xs: seq<string>, k: nat)
    requires k + 1 <= |xs|
    ensures JoinOffset(sep, xs, k + 1) == JoinOffset(sep, xs, k) + |xs[k]| + |sep|
  {
    if k > 0 {
      JoinOffsetNext(sep, xs[1..], k - 1);
    }
  }

  /** `Join` with a one-element tail appended. */
  lemma {:induction false} JoinSnoc(sep: string, xs: seq<string>, y: string)
    requires xs != []
    ensures Join(sep, xs + [y]) == Join(sep, xs) + sep + y
  {
    if |xs| > 1 {
      assert (xs + [y])[1..] == xs[1..] + [y];
      JoinSnoc(sep, xs[1..], y);
    }
  }

  /** `s[i:i+len(pat)] == pat`. */
  predicate OccursAt(s: string, pat: string, i: int) {
    0 <= i && i + |pat| <= |s| && s[i..i + |pat|] == pat
  }

  /** `pat in s`. */
  predicate Contains(s: string, pat: string) {
    exists i :: 0 <= i <= |s| && OccursAt(s, pat, i)
  }

  /** `s.find(pat, start)`: the first occurrence at or after `start`, or -1. */
  function FindFrom(s: string, pat: string, start: nat): (i: int)
    requires pat != []
    ensures i == -1 || (start <= i && OccursAt(s, pat, i))
    ensures forall j :: start <= j && (i == -1 || j < i) ==> !OccursAt(s, pat, j)
    decreases |s| - start
  {
    if start + |pat| > |s| then -1
    else if s[start..start + |pat|] == pat then start
    else FindFrom(s, pat, start + 1)
  }

  /** `s.find(pat)`. */
  function Find(s: string, pat: string): (i: int)
    requires pat != []
    ensures i == -1 <==> !Contains(s, pat)
    ensures i != -1 ==> OccursAt(s, pat, i) && forall j :: 0 <= j < i ==> !OccursAt(s, pat, j)
  {
    FindFrom(s, pat, 0)
  }

  /**
   * `s.split(sep)` for a non-empty separator: the pieces between the occurrences
   * found left to right; joining them with `sep` gives `s` back.
   */
  function Split(s: string, sep: string): (r: seq<string>)
    requires sep != []
    ensures |r| >= 1
    ensures Join(sep, r) == s
    ensures forall k :: 0 <= k < |r| ==> !Contains(r[k], sep)
    decreases |s|
  {
    var i := Find(s, sep);
    if i < 0 then [s]
    else
      var head, rest := s[..i], Split(s[i + |sep|..], sep);
      assert !Contains(head, sep) by {
        forall j | OccursAt(head, sep, j) ensures false {
          assert s[j..j + |sep|] == head[j..j + |sep|];
          assert OccursAt(s, sep, j);
        }
      }
      assert s == head + sep + s[i + |sep|..];
      assert ([head] + rest)[1..] == rest;
      [head] + rest
  }

  /** `s.replace(pat, with)` for a non-empty `pat`: each occurrence, left to right, replaced. */
  function ReplaceAll(s: string, pat: string, with: string): string
    requires pat != []
    decreases |s|
  {
    var i := Find(s, pat);
    if i < 0 then s else s[..i] + with + ReplaceAll(s[i + |pat|..], pat, with)
  }

  /** Replacing is splitting at the pattern and joining the pieces with the replacement. */
  lemma {:induction false} ReplaceIsJoinSplit(s: string, pat: string, with: string)
    requires pat != []
    ensures ReplaceAll(s, pat, with) == Join(with, Split(s, pat))
    decreases |s|
  {
    var i := Find(s, pat);
    if i >= 0 {
      var rest := s[i + |pat|..];
      ReplaceIsJoinSplit(rest, pat, with);
      var pieces := Split(s, pat);
      assert pieces == [s[..i]] + Split(rest, pat);
      assert pieces[1..] == Split(rest, pat);
    }
  }

  /** A string that holds no occurrence of `pat` is left alone by `replace`. */
  lemma ReplaceAbsent(s: string, pat: string, with: string)
    requires pat != [] && !Contains(s, pat)
    ensures ReplaceAll(s, pat, with) == s
  {
  }

  /** A separator in front of a string that does not hold it splits off an empty first piece. */
  lemma SplitLeadingSeparator(s: string, sep: string)
    requires sep != [] && !Contains(s, sep)
    ensures Split(sep + s, sep) == ["", s]
    ensures ReplaceAll(sep + s, sep, "") == s
  {
    var t := sep + s;
    assert OccursAt(t, sep, 0) by { assert t[..|sep|] == sep; }
    assert Find(t, sep) == 0;
    assert t[|sep|..] == s;
    assert Split(s, sep) == [s];
    assert Join("", ["", s]) == s by {
      assert ["", s][1..] == [s];
    }
  }

  /** `s.split(sep, 1)`: the text before the first `sep` and the rest, or `[s]`. */
  function SplitFirst(s: string, sep: string): (r: seq<string>)
    requires sep != []
    ensures 1 <= |r| <= 2
    ensures |r| == 1 <==> !Contains(s, sep)
    ensures |r| == 2 ==> s == r[0] + sep + r[1] && !Contains(r[0], sep)
  {
    var i := Find(s, sep);
    if i < 0 then [s]
    else
      assert s == s[..i] + sep + s[i + |sep|..];
      assert !Contains(s[..i], sep) by {
        forall j | OccursAt(s[..i], sep, j) ensures false {
          assert s[j..j + |sep|] == s[..i][j..j + |sep|];
          assert OccursAt(s, sep, j);
        }
      }
      [s[..i], s[i + |sep|..]]
  }

  /** Index of the first whitespace character of `s`, or `|s|`. */
  function FirstSpace(s: string): (k: nat)
    ensures k <= |s|
    ensures k < |s| ==> IsSpace(s[k])
    ensures forall j :: 0 <= j < k ==> !IsSpace(s[j])
  {
    if s == [] || IsSpace(s[0]) then 0 else 1 + FirstSpace(s[1..])
  }

  /** `s.split(maxsplit=1)`: the first whitespace-separated word and the rest without its leading whitespace. */
  function SplitOnce(s: string): (r: seq<string>)
    ensures |r| <= 2
  {
    var t := LStrip(s);
    if t == [] then []
    else
      var k := FirstSpace(t);
      var rest := LStrip(t[k..]);
      if rest == [] then [t[..k]] else [t[..k], rest]
  }

  /** Dropping a prefix leaves a suffix. */
  lemma EndsWithDrop<T>(t: seq<T>, k: nat)
    requires k <= |t|
    ensures EndsWith(t, t[k..])
  {
  }

  /** A suffix of a suffix is a suffix. */
  lemma EndsWithTrans<T>(a: seq<T>, b: seq<T>, c: seq<T>)
    requires EndsWith(a, b) && EndsWith(b, c)
    ensures EndsWith(a, c)
  {
    assert a[|a| - |c|..] == b[|b| - |c|..];
  }

  /** The first piece of `s.split(maxsplit=1)` is a non-empty word without whitespace. */
  lemma {:induction false} SplitOnceWordPart(s: string)
    ensures var r := SplitOnce(s);
      |r| >= 1 ==> r[0] != [] && forall j :: 0 <= j < |r[0]| ==> !IsSpace(r[0][j])
  {
    var t := LStrip(s);
    if t != [] {
      PrefixNoSpace(t, FirstSpace(t));
    }
  }

  lemma PrefixNoSpace(t: string, k: nat)
    requires k <= |t| && forall j :: 0 <= j < k ==> !IsSpace(t[j])
    ensures forall j :: 0 <= j < |t[..k]| ==> !IsSpace(t[..k][j])
  {
  }

  /** The second piece, when there is one, is a tail of `s` that does not start with whitespace. */
  lemma {:induction false} SplitOnceRestPart(s: string)
    ensures var r := SplitOnce(s);
      |r| == 2 ==> r[1] != [] && !IsSpace(r[1][0]) && |r[1]| < |s| && EndsWith(s, r[1])
  {
    var t := LStrip(s);
    if t != [] {
      var k := FirstSpace(t);
      var rest := LStrip(t[k..]);
      assert SplitOnce(s) == if rest == [] then [t[..k]] else [t[..k], rest];
      if rest != [] {
        assert k > 0;
        RestFacts(s, t, k, rest);
      }
    }
  }

  /** A suffix of `t[k..]`, for a suffix `t` of `s` and `k > 0`, is a shorter suffix of `s`. */
  lemma RestFacts(s: string, t: string, k: nat, rest: string)
    requires EndsWith(s, t) && 0 < k <= |t| && EndsWith(t[k..], rest)
    ensures |rest| < |s|
    ensures EndsWith(s, rest)
  {
    EndsWithDrop(t, k);
    EndsWithTrans(t, t[k..], rest);
    EndsWithTrans(s, t, rest);
  }

  /** The first whitespace of `s` is at `k` when `s[k]` is whitespace and nothing before it is. */
  lemma {:induction false} FirstSpaceAt(s: string, k: nat)
    requires k < |s| && IsSpace(s[k]) && forall j :: 0 <= j < k ==> !IsSpace(s[j])
    ensures FirstSpace(s) == k
  {
    if k > 0 {
      assert forall j :: 0 <= j < k - 1 ==> s[1..][j] == s[j + 1];
      FirstSpaceAt(s[1..], k - 1);
    }
  }

  /** A single word splits into itself. */
  lemma SplitOnceWord(word: string)
    requires word != [] && forall j :: 0 <= j < |word| ==> !IsSpace(word[j])
    ensures SplitOnce(word) == [word]
  {
    assert LStrip(word) == word;
    assert FirstSpace(word) == |word|;
    assert word[..|word|] == word;
  }

  lemma WordThenSpace(word: string, rest: string)
    requires forall j :: 0 <= j < |word| ==> !IsSpace(word[j])
    ensures FirstSpace(word + " " + rest) == |word|
  {
    var s := word + " " + rest;
    assert s[|word|] == ' ';
    assert forall j :: 0 <= j < |word| ==> s[j] == word[j];
    FirstSpaceAt(s, |word|);
  }

  lemma SpaceThenRest(word: string, rest: string)
    requires rest != [] && !IsSpace(rest[0])
    ensures LStrip((word + " " + rest)[|word|..]) == rest
  {
    assert (word + " " + rest)[|word|..] == " " + rest;
    assert (" " + rest)[1..] == rest;
  }

  /** A word, one space and a rest split back into the word and the rest. */
  lemma SplitOnceWordRest(word: string, rest: string)
    requires word != [] && forall j :: 0 <= j < |word| ==> !IsSpace(word[j])
    requires rest != [] && !IsSpace(rest[0])
    ensures SplitOnce(word + " " + rest) == [word, rest]
  {
    var s := word + " " + rest;
    assert LStrip(s) == s by {
      assert s[0] == word[0];
    }
    WordThenSpace(word, rest);
    SpaceThenRest(word, rest);
    WordBeforeSpace(word, rest);
    SplitOnceOf(s, |word|);
  }

  lemma WordBeforeSpace(word: string, rest: string)
    ensures (word + " " + rest)[..|word|] == word
  {
  }

  /** `SplitOnce` of a string with no leading whitespace, its first whitespace at `k` and more text after it. */
  lemma SplitOnceOf(s: string, k: nat)
    requires LStrip(s) == s && s != [] && k <= |s| && FirstSpace(s) == k && LStrip(s[k..]) != []
    ensures SplitOnce(s) == [s[..k], LStrip(s[k..])]
  {
  }

  /** `c.upper()` on ASCII letters; other characters are left alone. */
  function UpperChar(c: char): char {
    if 'a' <= c <= 'z' then (c as int - 32) as char else c
  }

  /** `c.lower()` on ASCII letters; other characters are left alone. */
  function LowerChar(c: char): char {
    if 'A' <= c <= 'Z' then (c as int + 32) as char else c
  }

  /** `s.upper()`, character by character. */
  function Upper(s: string): (r: string)
    ensures |r| == |s| && forall i :: 0 <= i < |s| ==> r[i] == UpperChar(s[i])
  {
    if s == [] then [] else Upper(s[..|s| - 1]) + [UpperChar(s[|s| - 1])]
  }

  /** `s.lower()`, character by character. */
  function Lower(s: string): (r: string)
    ensures |r| == |s| && forall i :: 0 <= i < |s| ==> r[i] == LowerChar(s[i])
  {
    if s == [] then [] else Lower(s[..|s| - 1]) + [LowerChar(s[|s| - 1])]
  }

  function DigitChar(d: nat): char
    requires d < 10
  {
    ('0' as int + d) as char
  }

  /** `str(n)` for a natural number: its decimal digits. */
  function NatToString(n: nat): (r: string)
    ensures r != [] && forall i :: 0 <= i < |r| ==> '0' <= r[i] <= '9'
  {
    if n < 10 then [DigitChar(n)] else NatToString(n / 10) + [DigitChar(n % 10)]
  }

  /** `str(i)` for an integer. */
  function IntToString(i: int): string {
    if i < 0 then "-" + NatToString(-i) else NatToString(i)
  }

  /** `[f(x) for x in xs]`. */
  function MapSeq<A, B>(xs: seq<A>, f: A -> B): (r: seq<B>)
    ensures |r| == |xs|
    ensures forall i :: 0 <= i < |xs| ==> r[i] == f(xs[i])
  {
    if xs == [] then [] else MapSeq(xs[..|xs| - 1], f) + [f(xs[|xs| - 1])]
  }

  /** Mapping one more element of a prefix appends its image. */
  lemma MapSeqSnoc<A, B>(xs: seq<A>, k: nat, f: A -> B)
    requires k < |xs|
    ensures MapSeq(xs[..k + 1], f) == MapSeq(xs[..k], f) + [f(xs[k])]
  {
    assert xs[..k + 1][..k] == xs[..k];
  }

  /** `[f(i, x) for i, x in enumerate(xs, first)]`. */
  function MapNumbered<A, B>(xs: seq<A>, first: nat, f: (nat, A) -> B): (r: seq<B>)
    ensures |r| == |xs|
    ensures forall i :: 0 <= i < |xs| ==> r[i] == f(first + i, xs[i])
  {
    if xs == [] then [] else MapNumbered(xs[..|xs| - 1], first, f) + [f(first + |xs| - 1, xs[|xs| - 1])]
  }

  /** Concatenation of a sequence of sequences. */
  function Concat<T>(xss: seq<seq<T>>): seq<T> {
    if xss == [] then [] else Concat(xss[..|xss| - 1]) + xss[|xss| - 1]
  }

  lemma {:induction false} ConcatAppend<T>(a: seq<seq<T>>, b: seq<seq<T>>)
    ensures Concat(a + b) == Concat(a) + Concat(b)
    decreases |b|
  {
    if b != [] {
      assert (a + b)[..|a + b| - 1] == a + b[..|b| - 1];
      ConcatAppend(a, b[..|b| - 1]);
    } else {
      assert a + b == a;
    }
  }

  /** Non-empty parts cannot outnumber the elements they hold. */
  lemma {:induction false} ConcatCount<T>(xss: seq<seq<T>>)
    requires forall k :: 0 <= k < |xss| ==> xss[k] != []
    ensures |xss| <= |Concat(xss)|
  {
    if xss != [] {
      ConcatCount(xss[..|xss| - 1]);
    }
  }
}
