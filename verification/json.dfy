/** JSON values and Python's `json.dumps` rendering of them (default separators
    ", " and ": ", `ensure_ascii` on), with and without `sort_keys`. Floats are not modelled. */
module Json {
  import opened Common
  import opened Text
  import Seqs

  datatype Json =
    | Null
    | Bool(b: bool)
    | Int(i: int)
    | Str(s: string)
    | Array(items: seq<Json>)
    | Object(fields: seq<(string, Json)>)

  // ---------------------------------------------------------------------------
  // Strings
  // ---------------------------------------------------------------------------

  function HexDigit(d: nat): char
    requires d < 16
  {
    if d < 10 then DigitChar(d) else ('a' as int + d - 10) as char
  }

  /** Four lower-case hex digits. */
  function Hex4(n: nat): string
    requires n < 0x1_0000
  {
    [HexDigit(n / 0x1000), HexDigit(n / 0x100 % 16), HexDigit(n / 0x10 % 16), HexDigit(n % 16)]
  }

  /** `\uXXXX`; a code point above the BMP becomes its UTF-16 surrogate pair. */
  function UnicodeEscape(c: char): string {
    var n := c as int;
    if n < 0x1_0000 then "\\u" + Hex4(n)
    else
      var v := n - 0x1_0000;
      "\\u" + Hex4(0xD800 + v / 0x400) + "\\u" + Hex4(0xDC00 + v % 0x400)
  }

  /** One character inside a JSON string: printable ASCII stays, except the quote and
      the backslash; control characters use the short escapes where JSON has them. */
  function EscapeChar(c: char): (r: string)
    ensures |r| >= 1
    ensures ' ' <= c <= '~' && c != '"' && c != '\\' ==> r == [c]
    ensures r[0] == c || r[0] == '\\'
  {
    if c == '"' then "\\\""
    else if c == '\\' then "\\\\"
    else if c == '\n' then "\\n"
    else if c == '\r' then "\\r"
    else if c == '\t' then "\\t"
    else if c == 8 as char then "\\b"
    else if c == 12 as char then "\\f"
    else if ' ' <= c <= '~' then [c]
    else UnicodeEscape(c)
  }

  function Escape(s: string): string {
    if |s| == 0 then "" else EscapeChar(s[0]) + Escape(s[1..])
  }

  function Quote(s: string): string {
    "\"" + Escape(s) + "\""
  }

  /** ", ".join(parts) */
  function Join(parts: seq<string>): string {
    if |parts| == 0 then ""
    else if |parts| == 1 then parts[0]
    else parts[0] + ", " + Join(parts[1..])
  }

  // ---------------------------------------------------------------------------
  // Values
  // ---------------------------------------------------------------------------

  /** `json.dumps(v)`: objects keep their insertion order. */
  function Dumps(v: Json): string {
    match v
    case Null => "null"
    case Bool(b) => if b then "true" else "false"
    case Int(i) => IntToString(i)
    case Str(s) => Quote(s)
    case Array(items) => "[" + Join(seq(|items|, k requires 0 <= k < |items| => Dumps(items[k]))) + "]"
    case Object(fields) =>
      "{" + Join(seq(|fields|, k requires 0 <= k < |fields| => Quote(fields[k].0) + ": " + Dumps(fields[k].1))) + "}"
  }

  /** `json.dumps(v, sort_keys=True)`: every object, at any depth, in key order. */
  function DumpsSorted(v: Json): string {
    Dumps(Canon(v))
  }

  /** The value with every object's fields put in key order. */
  function Canon(v: Json): Json {
    match v
    case Array(items) => Array(seq(|items|, k requires 0 <= k < |items| => Canon(items[k])))
    case Object(fields) =>
      Object(SortFields(seq(|fields|, k requires 0 <= k < |fields| => (fields[k].0, Canon(fields[k].1)))))
    case _ => v
  }

  function CanonField(f: (string, Json)): (string, Json) {
    (f.0, Canon(f.1))
  }

  function CanonFields(fields: seq<(string, Json)>): (r: seq<(string, Json)>)
    ensures |r| == |fields|
    ensures forall k :: 0 <= k < |fields| ==> r[k] == (fields[k].0, Canon(fields[k].1))
  {
    Seqs.Map(CanonField, fields)
  }

  /** `d.get(k)` on the dict `json.loads` builds from an object: when a key repeats,
      the last occurrence wins. */
  function Get(fields: seq<(string, Json)>, k: string): Option<Json>
    decreases |fields|
  {
    if |fields| == 0 then None
    else if fields[|fields| - 1].0 == k then Some(fields[|fields| - 1].1)
    else Get(fields[..|fields| - 1], k)
  }

  /** A key is found iff some field has it, and then the value is that of its last field. */
  lemma {:induction false} GetSpec(fields: seq<(string, Json)>, k: string)
    ensures Get(fields, k).None? <==> forall i :: 0 <= i < |fields| ==> fields[i].0 != k
    ensures Get(fields, k).Some? ==> exists i :: 0 <= i < |fields| && fields[i] == (k, Get(fields, k).value)
                                      && forall j :: i < j < |fields| ==> fields[j].0 != k
    decreases |fields|
  {
    if |fields| > 0 && fields[|fields| - 1].0 != k {
      var init := fields[..|fields| - 1];
      GetSpec(init, k);
      assert forall i :: 0 <= i < |init| ==> init[i] == fields[i];
    }
  }

  /** The value of the last field with a given key. */
  lemma {:induction false} GetAt(fields: seq<(string, Json)>, i: nat)
    requires i < |fields|
    requires forall j :: i < j < |fields| ==> fields[j].0 != fields[i].0
    ensures Get(fields, fields[i].0) == Some(fields[i].1)
    decreases |fields|
  {
    if i < |fields| - 1 {
      var init := fields[..|fields| - 1];
      assert init[i] == fields[i];
      GetAt(init, i);
    }
  }

  /** A key no field has is not found. */
  lemma {:induction false} GetAbsent(fields: seq<(string, Json)>, k: string)
    requires forall j :: 0 <= j < |fields| ==> fields[j].0 != k
    ensures Get(fields, k).None?
    decreases |fields|
  {
    if |fields| > 0 {
      var init := fields[..|fields| - 1];
      assert forall j :: 0 <= j < |init| ==> init[j] == fields[j];
      GetAbsent(init, k);
    }
  }

  /** A list of strings, the shape `json.dumps` gives a list of ids. */
  function StrList(ss: seq<string>): (r: Json)
    ensures r.Array? && |r.items| == |ss|
    ensures forall k :: 0 <= k < |ss| ==> r.items[k] == Str(ss[k])
  {
    Array(seq(|ss|, k requires 0 <= k < |ss| => Str(ss[k])))
  }

  // ---------------------------------------------------------------------------
  // Objects as dicts: unique keys, and the key order `sort_keys` uses
  // ---------------------------------------------------------------------------

  /** Python's `str` comparison: lexicographic by code point. */
  predicate Less(a: string, b: string) {
    if |a| == 0 then |b| > 0
    else if |b| == 0 then false
    else if a[0] != b[0] then a[0] < b[0]
    else Less(a[1..], b[1..])
  }

  lemma {:induction false} LessIrreflexive(a: string)
    ensures !Less(a, a)
  {
    if |a| > 0 {
      LessIrreflexive(a[1..]);
    }
  }

  lemma {:induction false} LessTransitive(a: string, b: string, c: string)
    requires Less(a, b) && Less(b, c)
    ensures Less(a, c)
  {
    if |a| > 0 && |b| > 0 && |c| > 0 && a[0] == b[0] && b[0] == c[0] {
      LessTransitive(a[1..], b[1..], c[1..]);
    }
  }

  lemma {:induction false} LessTotal(a: string, b: string)
    requires a != b
    ensures Less(a, b) || Less(b, a)
  {
    if |a| > 0 && |b| > 0 && a[0] == b[0] {
      assert a == [a[0]] + a[1..] && b == [b[0]] + b[1..];
      LessTotal(a[1..], b[1..]);
    }
  }

  predicate SortedKeys(fields: seq<(string, Json)>) {
    forall i, j :: 0 <= i < j < |fields| ==> !Less(fields[j].0, fields[i].0)
  }

  predicate UniqueKeys(fields: seq<(string, Json)>) {
    forall i, j :: 0 <= i < j < |fields| ==> fields[i].0 != fields[j].0
  }

  function Insert(f: (string, Json), sorted: seq<(string, Json)>): (r: seq<(string, Json)>)
    requires SortedKeys(sorted)
    ensures SortedKeys(r)
    ensures multiset(r) == multiset(sorted) + multiset{f}
  {
    if |sorted| == 0 then [f]
    else if Less(f.0, sorted[0].0) then
      assert forall j :: 0 <= j < |sorted| ==> !Less(sorted[j].0, f.0) by {
        forall j | 0 <= j < |sorted|
          ensures !Less(sorted[j].0, f.0)
        {
          if Less(sorted[j].0, f.0) {
            LessTransitive(sorted[j].0, f.0, sorted[0].0);
            LessIrreflexive(sorted[0].0);
          }
        }
      }
      [f] + sorted
    else
      var rest := Insert(f, sorted[1..]);
      assert forall j :: 0 <= j < |rest| ==> !Less(rest[j].0, sorted[0].0) by {
        forall j | 0 <= j < |rest|
          ensures !Less(rest[j].0, sorted[0].0)
        {
          assert rest[j] in multiset(rest);
          if rest[j] != f {
            assert rest[j] in multiset(sorted[1..]);
            var k :| 0 <= k < |sorted[1..]| && sorted[1..][k] == rest[j];
            assert sorted[k + 1] == rest[j];
          }
        }
      }
      assert sorted == [sorted[0]] + sorted[1..];
      [sorted[0]] + rest
  }

  /** The fields in key order (an insertion sort). */
  function SortFields(fields: seq<(string, Json)>): (r: seq<(string, Json)>)
    ensures SortedKeys(r)
    ensures multiset(r) == multiset(fields)
  {
    if |fields| == 0 then []
    else
      assert fields == [fields[0]] + fields[1..];
      Insert(fields[0], SortFields(fields[1..]))
  }

  /** Two field lists hold the same entries: one is a reordering of the other. */
  predicate SameDict(a: seq<(string, Json)>, b: seq<(string, Json)>) {
    multiset(a) == multiset(b)
  }

  /** Two key-sorted field lists with unique keys and the same entries are the same list. */
  lemma {:induction false} SortedIsCanonical(a: seq<(string, Json)>, b: seq<(string, Json)>)
    requires SortedKeys(a) && SortedKeys(b) && UniqueKeys(a)
    requires multiset(a) == multiset(b)
    ensures a == b
  {
    if |a| > 0 {
      HeadsAgree(a, b);
      TailsAgree(a, b);
      TailKeepsOrder(a);
      TailKeepsOrder(b);
      SortedIsCanonical(a[1..], b[1..]);
      assert a == [a[0]] + a[1..] && b == [b[0]] + b[1..];
    }
  }

  /** Each head is least in the other list, so the keys agree; unique keys fix the pair. */
  lemma HeadsAgree(a: seq<(string, Json)>, b: seq<(string, Json)>)
    requires SortedKeys(a) && SortedKeys(b) && UniqueKeys(a)
    requires multiset(a) == multiset(b) && |a| > 0
    ensures |b| > 0 && a[0] == b[0]
  {
    assert a[0] in multiset(b);
    assert b[0] in multiset(a);
    var i :| 0 <= i < |b| && b[i] == a[0];
    var j :| 0 <= j < |a| && a[j] == b[0];
    LessIrreflexive(a[0].0);
    LessIrreflexive(b[0].0);
    assert !Less(b[i].0, b[0].0) && !Less(a[j].0, a[0].0);
    if a[0].0 != b[0].0 {
      LessTotal(a[0].0, b[0].0);
    }
    assert j == 0;
  }

  lemma TailsAgree(a: seq<(string, Json)>, b: seq<(string, Json)>)
    requires multiset(a) == multiset(b) && |a| > 0 && |b| > 0 && a[0] == b[0]
    ensures multiset(a[1..]) == multiset(b[1..])
  {
    assert a == [a[0]] + a[1..];
    assert b == [b[0]] + b[1..];
    assert multiset(a) == multiset{a[0]} + multiset(a[1..]);
    assert multiset(b) == multiset{a[0]} + multiset(b[1..]);
    assert forall x :: multiset(a[1..])[x] == multiset(a)[x] - multiset{a[0]}[x];
    assert forall x :: multiset(b[1..])[x] == multiset(b)[x] - multiset{a[0]}[x];
  }

  lemma TailKeepsOrder(a: seq<(string, Json)>)
    requires |a| > 0
    ensures SortedKeys(a) ==> SortedKeys(a[1..])
    ensures UniqueKeys(a) ==> UniqueKeys(a[1..])
  {
    assert forall x :: 0 <= x < |a| - 1 ==> a[1..][x] == a[x + 1];
  }

  /** Sorting a list with unique keys gives a list with unique keys. */
  lemma UniqueKeysSorted(a: seq<(string, Json)>)
    requires UniqueKeys(a)
    ensures UniqueKeys(SortFields(a))
  {
    var r := SortFields(a);
    forall i, j | 0 <= i < j < |r|
      ensures r[i].0 != r[j].0
    {
      assert r[i] in multiset(a) && r[j] in multiset(a);
      assert r[i] in a && r[j] in a;
      if r[i] == r[j] {
        Seqs.MultisetSplit(r, j);
        assert r[i] in multiset(r[..j] + r[j + 1..]) by {
          assert (r[..j] + r[j + 1..])[i] == r[i];
        }
        DuplicateIn(a, r[i]);
      }
    }
  }

  /** A pair that occurs twice in a list with unique keys is impossible. */
  lemma DuplicateIn(a: seq<(string, Json)>, x: (string, Json))
    requires UniqueKeys(a)
    ensures multiset(a)[x] <= 1
  {
    if x in a {
      var k :| 0 <= k < |a| && a[k] == x;
      Seqs.MultisetSplit(a, k);
      assert x !in a[..k] + a[k + 1..] by {
        var rest := a[..k] + a[k + 1..];
        forall m | 0 <= m < |rest|
          ensures rest[m] != x
        {
          if m < k {
            assert rest[m] == a[m];
          } else {
            assert rest[m] == a[m + 1];
          }
        }
      }
    }
  }

  lemma UniqueKeysCanon(a: seq<(string, Json)>)
    requires UniqueKeys(a)
    ensures UniqueKeys(CanonFields(a))
  {
  }

  lemma CanonObject(fields: seq<(string, Json)>)
    ensures Canon(Object(fields)) == Object(SortFields(CanonFields(fields)))
  {
    var inner := seq(|fields|, k requires 0 <= k < |fields| => (fields[k].0, Canon(fields[k].1)));
    assert inner == CanonFields(fields);
  }

  /** `sort_keys=True` makes the rendering of a dict independent of its insertion order. */
  lemma SortedDumpsCanonical(a: seq<(string, Json)>, b: seq<(string, Json)>)
    requires UniqueKeys(a) && SameDict(a, b)
    ensures DumpsSorted(Object(a)) == DumpsSorted(Object(b))
  {
    CanonOfSameDict(a, b);
  }

  lemma CanonOfSameDict(a: seq<(string, Json)>, b: seq<(string, Json)>)
    requires UniqueKeys(a) && SameDict(a, b)
    ensures Canon(Object(a)) == Canon(Object(b))
  {
    var ca := CanonFields(a);
    var cb := CanonFields(b);
    CanonObject(a);
    CanonObject(b);
    Seqs.MapPermuted(CanonField, a, b);
    UniqueKeysCanon(a);
    UniqueKeysSorted(ca);
    SortedIsCanonical(SortFields(ca), SortFields(cb));
  }

  /** Printable ASCII other than the quote and the backslash is written as is. */
  predicate Plain(s: string) {
    forall i :: 0 <= i < |s| ==> ' ' <= s[i] <= '~' && s[i] != '"' && s[i] != '\\'
  }

  lemma {:induction false} EscapePlain(s: string)
    requires Plain(s)
    ensures Escape(s) == s
    decreases |s|
  {
    if |s| > 0 {
      assert Plain(s[1..]) by {
        assert forall i :: 0 <= i < |s| - 1 ==> s[1..][i] == s[i + 1];
      }
      EscapePlain(s[1..]);
      assert s == [s[0]] + s[1..];
    }
  }

  /** A one-element list of a plain id, as the test suite expects it stored. */
  lemma OneIdList(id: string)
    requires Plain(id)
    ensures Dumps(StrList([id])) == "[\"" + id + "\"]"
  {
    var items := StrList([id]).items;
    assert seq(|items|, k requires 0 <= k < |items| => Dumps(items[k])) == [Quote(id)];
    EscapePlain(id);
  }
}
