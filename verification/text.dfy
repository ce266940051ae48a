/** Character and string rules the source gets from Python's `str` methods and `re`
    character classes, restricted to ASCII, plus decimal rendering and parsing. */
module Text {

  /** Python's `str.isspace` on ASCII: space, \t \n \v \f \r and the separators 0x1c-0x1f. */
  predicate IsSpace(c: char) {
    c == ' ' || 9 <= c as int <= 13 || 28 <= c as int <= 31
  }

  predicate IsDigit(c: char) {
    '0' <= c <= '9'
  }

  predicate IsUpper(c: char) {
    'A' <= c <= 'Z'
  }

  predicate IsLower(c: char) {
    'a' <= c <= 'z'
  }

  predicate IsLetter(c: char) {
    IsUpper(c) || IsLower(c)
  }

  function ToLower(c: char): (r: char)
    ensures IsLetter(c) ==> IsLower(r)
    ensures !IsUpper(c) ==> r == c
  {
    if IsUpper(c) then (c as int + 32) as char else c
  }

  function ToUpper(c: char): (r: char)
    ensures IsLetter(c) ==> IsUpper(r)
    ensures !IsLower(c) ==> r == c
  {
    if IsLower(c) then (c as int - 32) as char else c
  }

  predicate AllSpace(s: string) {
    forall i :: 0 <= i < |s| ==> IsSpace(s[i])
  }

  predicate AllDigits(s: string) {
    forall i :: 0 <= i < |s| ==> IsDigit(s[i])
  }

  /** `s.lower()` on ASCII. */
  function Lower(s: string): (r: string)
    ensures |r| == |s|
    ensures forall i :: 0 <= i < |s| ==> r[i] == ToLower(s[i])
  {
    seq(|s|, i requires 0 <= i < |s| => ToLower(s[i]))
  }

  /** `re.sub(r"\s+", "", s)`: every whitespace character removed. */
  function RemoveSpaces(s: string): (r: string)
    ensures |r| <= |s|
    ensures forall i :: 0 <= i < |r| ==> !IsSpace(r[i])
  {
    if |s| == 0 then ""
    else if IsSpace(s[0]) then RemoveSpaces(s[1..])
    else [s[0]] + RemoveSpaces(s[1..])
  }

  /** Number of leading whitespace characters. */
  function LeadingSpaces(s: string): (k: nat)
    ensures k <= |s|
    ensures AllSpace(s[..k])
    ensures k < |s| ==> !IsSpace(s[k])
  {
    if |s| == 0 || !IsSpace(s[0]) then 0
    else
      var k := 1 + LeadingSpaces(s[1..]);
      assert s[..k] == [s[0]] + s[1..][..k - 1];
      k
  }

  /** The index just past the last non-whitespace character (0 when there is none). */
  function TrailingStart(s: string): (j: nat)
    ensures j <= |s|
    ensures AllSpace(s[j..])
    ensures j > 0 ==> !IsSpace(s[j - 1])
  {
    if |s| == 0 || !IsSpace(s[|s| - 1]) then |s|
    else
      var j := TrailingStart(s[..|s| - 1]);
      assert s[j..] == s[..|s| - 1][j..] + [s[|s| - 1]];
      j
  }

  /** `s.strip()`: leading and trailing whitespace removed. */
  function Strip(s: string): (r: string)
    ensures |r| == 0 || (!IsSpace(r[0]) && !IsSpace(r[|r| - 1]))
    ensures LeadingSpaces(s) + |r| <= |s|
    ensures r == s[LeadingSpaces(s)..LeadingSpaces(s) + |r|]
    ensures AllSpace(s[LeadingSpaces(s) + |r|..])
  {
    var i := LeadingSpaces(s);
    if i == |s| then ""
    else
      var j := TrailingStart(s);
      assert i < j;
      s[i..j]
  }

  /** `s.title()` on ASCII: a letter is upper-cased when it does not follow a letter and
      lower-cased when it does; every other character is kept. */
  function Title(s: string): (r: string)
    ensures |r| == |s|
    ensures forall i :: 0 <= i < |s| ==> r[i] == TitleChar(s, i)
  {
    seq(|s|, i requires 0 <= i < |s| => TitleChar(s, i))
  }

  function TitleChar(s: string, i: nat): char
    requires i < |s|
  {
    if !IsLetter(s[i]) then s[i]
    else if i > 0 && IsLetter(s[i - 1]) then ToLower(s[i])
    else ToUpper(s[i])
  }

  lemma LowerOfTitle(s: string)
    ensures Lower(Title(s)) == Lower(s)
  {
    assert forall i :: 0 <= i < |s| ==> ToLower(TitleChar(s, i)) == ToLower(s[i]);
  }

  lemma {:induction false} RemoveSpacesConcat(a: string, b: string)
    ensures RemoveSpaces(a + b) == RemoveSpaces(a) + RemoveSpaces(b)
  {
    if |a| > 0 {
      assert (a + b)[1..] == a[1..] + b;
      RemoveSpacesConcat(a[1..], b);
    } else {
      assert a + b == b;
    }
  }

  /** On one character: whitespace is dropped and anything else kept. With `RemoveSpacesConcat`
      this pins the result down as the non-whitespace characters, in their order. */
  lemma RemoveSpacesOfChar(c: char)
    ensures RemoveSpaces([c]) == if IsSpace(c) then "" else [c]
  {
    assert [c][1..] == [];
  }

  /** The result, character by character: each kept character comes from the input, in order,
      and exactly the input's non-whitespace characters are kept. */
  lemma {:induction false} RemoveSpacesKeepsOthers(s: string)
    ensures |RemoveSpaces(s)| == |s| - CountSpaces(s)
    ensures forall c :: c in RemoveSpaces(s) <==> c in s && !IsSpace(c)
    decreases |s|
  {
    if |s| > 0 {
      RemoveSpacesKeepsOthers(s[1..]);
      assert s == [s[0]] + s[1..];
      assert forall c :: c in s <==> c == s[0] || c in s[1..];
    }
  }

  function CountSpaces(s: string): nat
    decreases |s|
  {
    if |s| == 0 then 0 else (if IsSpace(s[0]) then 1 else 0) + CountSpaces(s[1..])
  }

  lemma {:induction false} RemoveSpacesOfSpaces(s: string)
    requires AllSpace(s)
    ensures RemoveSpaces(s) == ""
  {
    if |s| > 0 {
      RemoveSpacesOfSpaces(s[1..]);
    }
  }

  /** Lower-casing twice changes nothing more. */
  lemma {:induction false} LowerIdempotent(s: string)
    ensures Lower(Lower(s)) == Lower(s)
  {
    assert forall i :: 0 <= i < |s| ==> ToLower(ToLower(s[i])) == ToLower(s[i]);
  }

  lemma LowerConcat(a: string, b: string)
    ensures Lower(a + b) == Lower(a) + Lower(b)
  {
  }

  lemma LowerOfSpaces(s: string)
    requires AllSpace(s)
    ensures AllSpace(Lower(s))
  {
  }

  /** Stripping never changes which non-whitespace characters a string holds. */
  lemma RemoveSpacesOfStrip(s: string)
    ensures RemoveSpaces(Lower(Strip(s))) == RemoveSpaces(Lower(s))
  {
    var i := LeadingSpaces(s);
    var r := Strip(s);
    var j := i + |r|;
    assert s == s[..i] + r + s[j..];
    LowerConcat(s[..i] + r, s[j..]);
    LowerConcat(s[..i], r);
    LowerOfSpaces(s[..i]);
    LowerOfSpaces(s[j..]);
    RemoveSpacesConcat(Lower(s[..i]) + Lower(r), Lower(s[j..]));
    RemoveSpacesConcat(Lower(s[..i]), Lower(r));
    RemoveSpacesOfSpaces(Lower(s[..i]));
    RemoveSpacesOfSpaces(Lower(s[j..]));
  }

  function DigitChar(d: nat): (c: char)
    requires d < 10
    ensures IsDigit(c)
  {
    ('0' as int + d) as char
  }

  function DigitValue(c: char): (d: nat)
    requires IsDigit(c)
    ensures d < 10
  {
    c as int - '0' as int
  }

  /** `str(n)` for a natural number: decimal, no leading zeros. */
  function NatToString(n: nat): (s: string)
    ensures |s| >= 1 && AllDigits(s)
    ensures |s| > 1 ==> s[0] != '0'
  {
    if n < 10 then [DigitChar(n)]
    else
      var p := NatToString(n / 10);
      p + [DigitChar(n % 10)]
  }

  /** `int(s)` for a string of ASCII digits (leading zeros allowed, "" is 0). */
  function ParseDigits(s: string): nat
    requires AllDigits(s)
  {
    if |s| == 0 then 0
    else ParseDigits(s[..|s| - 1]) * 10 + DigitValue(s[|s| - 1])
  }

  lemma {:induction false} ParseNatToString(n: nat)
    ensures ParseDigits(NatToString(n)) == n
  {
    if n >= 10 {
      var p := NatToString(n / 10);
      var s := p + [DigitChar(n % 10)];
      assert s[..|s| - 1] == p;
      ParseNatToString(n / 10);
    }
  }

  /** `str(i)` for any integer. */
  function IntToString(i: int): (s: string)
    ensures |s| >= 1
    ensures i >= 0 ==> s == NatToString(i)
    ensures i < 0 ==> s == "-" + NatToString(-i)
  {
    if i >= 0 then NatToString(i) else "-" + NatToString(-i)
  }

  /** The ASCII digits of a decimal rendering never include whitespace or a newline. */
  lemma DigitsAreNotSpace(s: string)
    requires AllDigits(s)
    ensures forall i :: 0 <= i < |s| ==> !IsSpace(s[i]) && s[i] != '\n'
  {
  }

  /** The index of the first `c` in `s`, or `|s|` when there is none. */
  function IndexOf(s: string, c: char): (n: nat)
    ensures n <= |s| && c !in s[..n]
    ensures n < |s| ==> s[n] == c
    decreases |s|
  {
    if |s| == 0 || s[0] == c then 0
    else
      var n := IndexOf(s[1..], c);
      assert s[..n + 1] == [s[0]] + s[1..][..n];
      n + 1
  }

  /** In front of a first `c`, the index is the length of what precedes it. */
  lemma {:induction false} IndexOfPrefix(a: string, c: char, rest: string)
    requires c !in a && |rest| > 0 && rest[0] == c
    ensures IndexOf(a + rest, c) == |a|
    decreases |a|
  {
    if |a| > 0 {
      assert (a + rest)[1..] == a[1..] + rest;
      assert c !in a[1..] by {
        assert forall k :: 0 <= k < |a[1..]| ==> a[1..][k] == a[k + 1];
      }
      IndexOfPrefix(a[1..], c, rest);
    }
  }
}
