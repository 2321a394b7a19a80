/**
 * The Python values the scripts pass around: decoded JSON (session events,
 * message content, API keys and replies), the scalar metadata values the vector
 * store keeps beside each document, search hits, and the exceptions that can
 * escape an operation.
 */
module PyData {
  import opened PyStr

  datatype Option<T> = None | Some(value: T)

  /** The Python exceptions an operation of the model can raise. */
  datatype PyError =
    | TypeError       // an operation applied to a value of the wrong type
    | AttributeError  // a method such as `.get` or `.upper` called on a value that lacks it
    | NameError       // a free name that is bound nowhere
    | ValueError      // `range` with a zero step
    | KeyError        // a missing dictionary key read with `[...]`
    | DuplicateId     // the store refuses one `add` call that names the same id twice

  datatype Result<T> = Ok(value: T) | Err(error: PyError)

  /**
   * A value produced by `json.loads`. Numbers are integers; an object is its
   * members in document order, with distinct keys, as a Python dict holds them.
   */
  datatype Json =
    | JNull
    | JBool(b: bool)
    | JNum(n: int)
    | JStr(s: string)
    | JArr(items: seq<Json>)
    | JObj(members: seq<(string, Json)>)

  /** The value stored under `key`, if any (the first member with that key). */
  function Lookup(ps: seq<(string, Json)>, key: string): (r: Option<Json>)
    ensures r.None? <==> forall i :: 0 <= i < |ps| ==> ps[i].0 != key
    ensures r.Some? ==> exists i :: 0 <= i < |ps| && ps[i] == (key, r.value)
  {
    if ps == [] then None
    else if ps[0].0 == key then Some(ps[0].1)
    else Lookup(ps[1..], key)
  }

  /** `key in d`. */
  predicate Has(ps: seq<(string, Json)>, key: string) {
    Lookup(ps, key).Some?
  }

  /** `d.get(key, default)`. */
  function GetOr(ps: seq<(string, Json)>, key: string, default: Json): (r: Json)
    ensures Has(ps, key) ==> Some(r) == Lookup(ps, key)
    ensures !Has(ps, key) ==> r == default
  {
    match Lookup(ps, key)
    case Some(v) => v
    case None => default
  }

  /** `d.get(key)`: `None` when the key is absent. */
  function Get(ps: seq<(string, Json)>, key: string): Json {
    GetOr(ps, key, JNull)
  }

  /** `bool(v)`. */
  predicate Truthy(j: Json) {
    match j
    case JNull => false
    case JBool(b) => b
    case JNum(n) => n != 0
    case JStr(s) => s != ""
    case JArr(xs) => xs != []
    case JObj(ps) => ps != []
  }

  function HexDigit(d: nat): char
    requires d < 16
  {
    if d < 10 then DigitChar(d) else ('a' as int + d - 10) as char
  }

  /** `n` as exactly `width` lower-case hexadecimal digits (the low ones). */
  function Hex(n: nat, width: nat): (r: string)
    ensures |r| == width
  {
    if width == 0 then "" else Hex(n / 16, width - 1) + [HexDigit(n % 16)]
  }

  /**
   * The characters `repr` writes as a `\x`/`\u` escape here: the C0 and C1 controls,
   * DEL, the soft hyphen and the non-ASCII separators. Python also escapes format,
   * private-use and unassigned characters (with `\U` above U+FFFF); this model
   * writes those as they are.
   */
  predicate Unprintable(c: char) {
    c < ' ' || ('\U{7f}' <= c <= '\U{a0}') || c == '\U{ad}' || (c > '\U{7f}' && IsSpace(c))
  }

  /** One character of a string literal written by `repr` with the quote `q`. */
  function ReprChar(c: char, q: char): string {
    if c == q || c == '\\' then ['\\', c]
    else if c == '\n' then "\\n"
    else if c == '\r' then "\\r"
    else if c == '\t' then "\\t"
    else if Unprintable(c) then
      (if c as int < 0x100 then "\\x" + Hex(c as int, 2) else "\\u" + Hex(c as int, 4))
    else [c]
  }

  function ReprChars(s: string, q: char): string {
    if s == [] then "" else ReprChar(s[0], q) + ReprChars(s[1..], q)
  }

  /** `repr(s)`: single quotes unless `s` holds a single quote and no double quote. */
  function ReprString(s: string): string {
    var q := if '\'' in s && '"' !in s then '"' else '\'';
    [q] + ReprChars(s, q) + [q]
  }

  /** `repr(v)`. */
  function Repr(j: Json): string
    decreases j, 1
  {
    match j
    case JNull => "None"
    case JBool(b) => if b then "True" else "False"
    case JNum(n) => IntToString(n)
    case JStr(s) => ReprString(s)
    case JArr(xs) => "[" + ReprItems(xs) + "]"
    case JObj(ps) => "{" + ReprMembers(ps) + "}"
  }

  function ReprItems(xs: seq<Json>): string
    decreases xs, 0
  {
    if xs == [] then ""
    else if |xs| == 1 then Repr(xs[0])
    else Repr(xs[0]) + ", " + ReprItems(xs[1..])
  }

  function ReprMembers(ps: seq<(string, Json)>): string
    decreases ps, 0
  {
    if ps == [] then ""
    else
      var (k, v) := ps[0];
      assert ps[0] in ps && v < ps[0];
      var m := ReprString(k) + ": " + Repr(v);
      if |ps| == 1 then m else m + ", " + ReprMembers(ps[1..])
  }

  /** `str(v)` (and an f-string field): a string as it is, anything else as its `repr`. */
  function ToStr(j: Json): string {
    if j.JStr? then j.s else Repr(j)
  }

  /** A string with nothing to escape is written between single quotes. */
  lemma {:induction false} ReprPlain(s: string)
    requires forall i :: 0 <= i < |s| ==> s[i] != '\'' && s[i] != '\\' && ' ' <= s[i] <= '~'
    ensures Repr(JStr(s)) == "'" + s + "'"
  {
    assert '\'' !in s;
    PlainChars(s, '\'');
  }

  lemma {:induction false} PlainChars(s: string, q: char)
    requires forall i :: 0 <= i < |s| ==> s[i] != q && s[i] != '\\' && ' ' <= s[i] <= '~'
    ensures ReprChars(s, q) == s
  {
    if s != [] {
      PlainChars(s[1..], q);
      assert s == [s[0]] + s[1..];
    }
  }

  /** The strings held by `vs`, or `None` when one of them is not a string. */
  function StringsOf(vs: seq<Json>): (r: Option<seq<string>>)
    ensures r.Some? <==> forall i :: 0 <= i < |vs| ==> vs[i].JStr?
    ensures r.Some? ==> |r.value| == |vs| && forall i :: 0 <= i < |vs| ==> r.value[i] == vs[i].s
  {
    if vs == [] then Some([])
    else match StringsOf(vs[..|vs| - 1])
      case None => None
      case Some(ss) => if vs[|vs| - 1].JStr? then Some(ss + [vs[|vs| - 1].s]) else None
  }

  /** `sep.join(vs)`: a `TypeError` unless every element is a string. */
  function JoinValues(sep: string, vs: seq<Json>): (r: Result<string>)
    ensures r.Err? <==> exists i :: 0 <= i < |vs| && !vs[i].JStr?
    ensures r.Err? ==> r.error == TypeError
  {
    match StringsOf(vs)
    case None => Err(TypeError)
    case Some(ss) => Ok(Join(sep, ss))
  }

  /** A value of the store's document metadata (the scripts only write strings and integers). */
  datatype MetaValue = MStr(s: string) | MInt(i: int)

  type Metadata = map<string, MetaValue>

  /** `metadata.get(key, default)`. */
  function MetaGet(m: Metadata, key: string, default: MetaValue): (r: MetaValue)
    ensures key in m ==> r == m[key]
    ensures key !in m ==> r == default
  {
    if key in m then m[key] else default
  }

  /** `str(v)` or an f-string field holding a metadata value. */
  function Render(v: MetaValue): string {
    match v
    case MStr(s) => s
    case MInt(i) => IntToString(i)
  }

  /** One search result: the document's id, text and metadata. */
  datatype Hit = Hit(id: string, text: string, metadata: Metadata)

  /** What a search through the store gives a caller: the hits, or the message of the exception it raised. */
  datatype SearchOutcome = Found(hits: seq<Hit>) | Failed(message: string)

  /** A document handed to the store in a batch: text, metadata and an optional own id. */
  datatype Doc = Doc(text: string, metadata: Metadata, id: Option<string>)
}
