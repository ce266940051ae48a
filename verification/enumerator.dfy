/** Per-role alias counters: `RoleEnumerator` hands out masks such as "Accused 3". */
module Enumerator {
  import opened Common
  import opened Text

  /** The `defaultdict(int)` of counters, keyed by normalised role. */
  datatype RoleEnumerator = RoleEnumerator(counters: map<string, nat>)

  function Fresh(): RoleEnumerator {
    RoleEnumerator(map[])
  }

  /** The counter for a key; a key never seen reads as 0. */
  function CountOf(e: RoleEnumerator, key: string): nat {
    if key in e.counters then e.counters[key] else 0
  }

  /** `_key_from_role`: lower-cased, all whitespace removed. */
  function Key(role: string): string {
    RemoveSpaces(Lower(role))
  }

  /** `_label_from_role`: stripped and title-cased. */
  function Label(role: string): string {
    Title(Strip(role))
  }

  function FormatMask(name: string, n: nat): string {
    name + " " + NatToString(n)
  }

  /** `next_mask`: bump the role's counter and render the alias with the new count. */
  function NextMask(e: RoleEnumerator, role: string): (r: (RoleEnumerator, string))
    ensures CountOf(r.0, Key(role)) == CountOf(e, Key(role)) + 1
    ensures forall k :: k != Key(role) ==> CountOf(r.0, k) == CountOf(e, k)
    ensures r.0.counters.Keys == e.counters.Keys + {Key(role)}
    ensures r.1 == FormatMask(Label(role), CountOf(r.0, Key(role)))
  {
    var key := Key(role);
    var n := CountOf(e, key) + 1;
    (RoleEnumerator(e.counters[key := n]), FormatMask(Label(role), n))
  }

  /** Successive `next_mask` calls, one per role, threading the enumerator through. */
  function NextMasks(e: RoleEnumerator, roles: seq<string>): (r: (RoleEnumerator, seq<string>))
    ensures |r.1| == |roles|
    decreases |roles|
  {
    if |roles| == 0 then (e, [])
    else
      var first := NextMask(e, roles[0]);
      var rest := NextMasks(first.0, roles[1..]);
      (rest.0, [first.1] + rest.1)
  }

  // ---------------------------------------------------------------------------
  // Parsing a mask: re.match(r"(.+?)\s+(\d+)$", mask)
  // ---------------------------------------------------------------------------

  function LeadingDigits(s: string): (k: nat)
    ensures k <= |s|
    ensures AllDigits(s[..k])
    ensures k < |s| ==> !IsDigit(s[k])
  {
    if |s| == 0 || !IsDigit(s[0]) then 0
    else
      var k := 1 + LeadingDigits(s[1..]);
      assert s[..k] == [s[0]] + s[1..][..k - 1];
      k
  }

  /** The part of the pattern after the role group, on the rest `t` of the mask:
      whitespace, digits, then the end of the string or a final newline (`$`).
      Yields the integer value of the digits. */
  function MatchTail(t: string): Option<nat> {
    var w := LeadingSpaces(t);
    if w == 0 then None
    else
      var d := LeadingDigits(t[w..]);
      var e := w + d;
      if d == 0 then None
      else if e == |t| || (e + 1 == |t| && t[e] == '\n') then
        assert t[w..e] == t[w..][..d];
        Some(ParseDigits(t[w..e]))
      else None
  }

  /** The same tail, stated as a split: `t[..a]` is `\s+`, `t[a..b]` is `\d+`, and `$` holds at `b`. */
  ghost predicate TailSplit(t: string, a: int, b: int) {
    && 1 <= a < b <= |t|
    && AllSpace(t[..a])
    && AllDigits(t[a..b])
    && (b == |t| || (b + 1 == |t| && t[b] == '\n'))
  }

  /** The scanner agrees with the split reading of the pattern, in both directions. */
  lemma MatchTailIffSplit(t: string)
    ensures MatchTail(t).Some? <==> exists a, b :: TailSplit(t, a, b)
    ensures forall a, b :: TailSplit(t, a, b) ==> MatchTail(t) == Some(ParseDigits(t[a..b]))
  {
    var w := LeadingSpaces(t);
    if MatchTail(t).Some? {
      var d := LeadingDigits(t[w..]);
      assert t[w..][..d] == t[w..w + d];
      assert TailSplit(t, w, w + d);
    }
    forall a, b | TailSplit(t, a, b)
      ensures MatchTail(t) == Some(ParseDigits(t[a..b]))
    {
      // The whitespace run ends exactly at a: t[a] is a digit, and t[..a] is all space.
      assert a <= w by {
        assert forall i :: 0 <= i < a ==> t[..a][i] == t[i];
        assert forall i :: 0 <= i < a ==> IsSpace(t[i]);
      }
      assert w <= a by {
        assert IsDigit(t[a]) by { assert t[a] == t[a..b][0]; }
        assert forall i :: 0 <= i < w ==> t[..w][i] == t[i];
        assert forall i :: 0 <= i < w ==> IsSpace(t[i]);
      }
      var d := LeadingDigits(t[w..]);
      assert d <= b - a by {
        assert forall i :: a <= i < b ==> t[i] == t[a..b][i - a];
        assert forall i :: 0 <= i < d ==> t[w..][..d][i] == t[a + i];
      }
      assert b - a <= d by {
        assert forall i :: a <= i < b ==> t[i] == t[a..b][i - a];
        assert d < |t[w..]| ==> t[w..][d] == t[a + d];
      }
      assert t[w..][..d] == t[a..b];
    }
  }

  /** `mask[..j]` can be the lazy role group: it has no newline (`.` does not match one)
      and the rest matches the tail. */
  predicate ValidSplit(mask: string, j: nat) {
    && 1 <= j <= |mask|
    && NoNewline(mask[..j])
    && MatchTail(mask[j..]).Some?
  }

  predicate NoNewline(s: string) {
    forall k :: 0 <= k < |s| ==> s[k] != '\n'
  }

  /** The smallest valid split at or after `i` (the lazy `.+?`). */
  function FindRoleEnd(mask: string, i: nat): (r: Option<nat>)
    requires 1 <= i <= |mask| + 1
    requires NoNewline(mask[..i - 1])
    ensures r.Some? ==> i <= r.value && ValidSplit(mask, r.value)
    ensures r.Some? ==> forall j :: i <= j < r.value ==> !ValidSplit(mask, j)
    ensures r.None? ==> forall j :: i <= j ==> !ValidSplit(mask, j)
    decreases |mask| - i
  {
    if i > |mask| then None
    else if mask[i - 1] == '\n' then
      NewlineEndsRole(mask, i);
      None
    else
      NoNewlineExtends(mask, i);
      if MatchTail(mask[i..]).Some? then Some(i) else FindRoleEnd(mask, i + 1)
  }

  /** No split at or after a newline is valid. */
  lemma NewlineEndsRole(mask: string, i: nat)
    requires 1 <= i <= |mask| && mask[i - 1] == '\n'
    ensures forall j :: i <= j ==> !ValidSplit(mask, j)
  {
    forall j | i <= j <= |mask|
      ensures !NoNewline(mask[..j])
    {
      assert mask[..j][i - 1] == '\n';
    }
  }

  lemma NoNewlineExtends(mask: string, i: nat)
    requires 1 <= i <= |mask| && NoNewline(mask[..i - 1]) && mask[i - 1] != '\n'
    ensures NoNewline(mask[..i])
  {
    assert mask[..i] == mask[..i - 1] + [mask[i - 1]];
  }

  /** `_parse_mask`: the role and the count, or ValueError("Invalid mask: ..."). */
  function ParseMask(mask: string): (r: Result<(string, nat), Exception>)
    ensures r.Err? <==> forall j: nat :: !ValidSplit(mask, j)
    ensures r.Err? ==> r.error == ValueError("Invalid mask: " + mask)
    ensures r.Ok? ==> exists j: nat :: && ValidSplit(mask, j)
                                  && (forall i :: 0 <= i < j ==> !ValidSplit(mask, i))
                                  && r.value == (mask[..j], MatchTail(mask[j..]).value)
  {
    match FindRoleEnd(mask, 1)
    case None => Err(ValueError("Invalid mask: " + mask))
    case Some(j) => Ok((mask[..j], MatchTail(mask[j..]).value))
  }

  // ---------------------------------------------------------------------------
  // Initialising from existing masks
  // ---------------------------------------------------------------------------

  /** One step of `_init`: parse the mask and raise the role's counter to its count. */
  function Absorb(e: RoleEnumerator, mask: string): (r: Result<RoleEnumerator, Exception>)
    ensures r.Ok? <==> ParseMask(mask).Ok?
    ensures r.Ok? ==> CountOf(r.value, MaskKey(mask)) == Max(CountOf(e, MaskKey(mask)), MaskCount(mask))
    ensures r.Ok? ==> forall k :: k != MaskKey(mask) ==> CountOf(r.value, k) == CountOf(e, k)
  {
    var (role, count) :- ParseMask(mask);
    var key := Key(role);
    Ok(RoleEnumerator(e.counters[key := Max(CountOf(e, key), count)]))
  }

  function Max(a: nat, b: nat): nat {
    if a >= b then a else b
  }

  function MaskKey(mask: string): string
    requires ParseMask(mask).Ok?
  {
    Key(ParseMask(mask).value.0)
  }

  function MaskCount(mask: string): nat
    requires ParseMask(mask).Ok?
  {
    ParseMask(mask).value.1
  }

  /** `_init`: fold the masks into the counters, failing on the first invalid one. */
  function InitFrom(e: RoleEnumerator, masks: seq<string>): (r: Result<RoleEnumerator, Exception>)
    ensures r.Err? <==> exists i :: 0 <= i < |masks| && ParseMask(masks[i]).Err?
    decreases |masks|
  {
    if |masks| == 0 then Ok(e)
    else
      var e1 :- Absorb(e, masks[0]);
      assert forall i :: 1 <= i < |masks| ==> masks[i] == masks[1..][i - 1];
      InitFrom(e1, masks[1..])
  }

  lemma InitFromStep(e: RoleEnumerator, masks: seq<string>)
    requires |masks| > 0 && Absorb(e, masks[0]).Ok?
    ensures InitFrom(e, masks) == InitFrom(Absorb(e, masks[0]).value, masks[1..])
  {
  }

  /** Some mask names key `k` with count `n`. */
  ghost predicate Attained(masks: seq<string>, k: string, n: nat) {
    exists i :: 0 <= i < |masks| && ParseMask(masks[i]).Ok? && MaskKey(masks[i]) == k && MaskCount(masks[i]) == n
  }

  /** After `_init` no counter is below its start value or below any count a mask gives
      for its key. */
  lemma {:induction false} InitFromBounds(e: RoleEnumerator, masks: seq<string>)
    requires InitFrom(e, masks).Ok?
    ensures forall i :: 0 <= i < |masks| ==> ParseMask(masks[i]).Ok?
    ensures forall k :: CountOf(InitFrom(e, masks).value, k) >= CountOf(e, k)
    ensures forall i :: 0 <= i < |masks| ==>
      CountOf(InitFrom(e, masks).value, MaskKey(masks[i])) >= MaskCount(masks[i])
    decreases |masks|
  {
    if |masks| > 0 {
      var e1 := Absorb(e, masks[0]).value;
      var rest := masks[1..];
      InitFromStep(e, masks);
      var r := InitFrom(e1, rest).value;
      InitFromBounds(e1, rest);
      forall k
        ensures CountOf(r, k) >= CountOf(e, k)
      {
        assert CountOf(r, k) >= CountOf(e1, k);
      }
      forall i | 0 <= i < |masks|
        ensures CountOf(r, MaskKey(masks[i])) >= MaskCount(masks[i])
      {
        if i > 0 {
          assert masks[i] == rest[i - 1];
        } else {
          assert CountOf(e1, MaskKey(masks[0])) >= MaskCount(masks[0]);
        }
      }
    }
  }

  /** ... and every counter that moved was set to a count some mask gives for its key:
      together with `InitFromBounds`, each counter is that maximum. */
  lemma {:induction false} InitFromAttained(e: RoleEnumerator, masks: seq<string>)
    requires InitFrom(e, masks).Ok?
    ensures forall k :: || CountOf(InitFrom(e, masks).value, k) == CountOf(e, k)
                        || Attained(masks, k, CountOf(InitFrom(e, masks).value, k))
    decreases |masks|
  {
    if |masks| > 0 {
      var e1 := Absorb(e, masks[0]).value;
      var rest := masks[1..];
      InitFromStep(e, masks);
      var r := InitFrom(e1, rest).value;
      InitFromAttained(e1, rest);
      forall k
        ensures CountOf(r, k) == CountOf(e, k) || Attained(masks, k, CountOf(r, k))
      {
        if CountOf(r, k) != CountOf(e1, k) {
          var i :| 0 <= i < |rest| && ParseMask(rest[i]).Ok? && MaskKey(rest[i]) == k && MaskCount(rest[i]) == CountOf(r, k);
          assert masks[i + 1] == rest[i];
        } else if CountOf(e1, k) != CountOf(e, k) {
          assert MaskKey(masks[0]) == k && MaskCount(masks[0]) == CountOf(r, k);
        }
      }
    }
  }

  /** `RoleEnumerator(masks)`. */
  function New(masks: seq<string>): Result<RoleEnumerator, Exception> {
    InitFrom(Fresh(), masks)
  }

  // ---------------------------------------------------------------------------
  // Properties
  // ---------------------------------------------------------------------------

  /** Repeating one role numbers it on from its counter: 1, 2, 3, ... on a fresh enumerator. */
  lemma {:induction false} RepeatedRoleCounts(e: RoleEnumerator, roles: seq<string>, role: string)
    requires forall i :: 0 <= i < |roles| ==> roles[i] == role
    ensures forall i :: 0 <= i < |roles| ==>
      NextMasks(e, roles).1[i] == FormatMask(Label(role), CountOf(e, Key(role)) + i + 1)
    decreases |roles|
  {
    if |roles| > 0 {
      var tail := roles[1..];
      assert roles[0] == role;
      var first := NextMask(e, role);
      assert forall i :: 0 <= i < |tail| ==> tail[i] == role;
      RepeatedRoleCounts(first.0, tail, role);
      NextMasksCons(e, roles);
      ShiftedMasks(NextMasks(e, roles).1, first.1, NextMasks(first.0, tail).1, Label(role),
                   CountOf(e, Key(role)), CountOf(first.0, Key(role)));
    }
  }

  /** ... and the role's counter ends up advanced by the number of repetitions. */
  lemma {:induction false} RepeatedRoleAdvances(e: RoleEnumerator, roles: seq<string>, role: string)
    requires forall i :: 0 <= i < |roles| ==> roles[i] == role
    ensures CountOf(NextMasks(e, roles).0, Key(role)) == CountOf(e, Key(role)) + |roles|
    decreases |roles|
  {
    if |roles| > 0 {
      var tail := roles[1..];
      assert roles[0] == role;
      var first := NextMask(e, role);
      assert forall i :: 0 <= i < |tail| ==> tail[i] == role;
      RepeatedRoleAdvances(first.0, tail, role);
      NextMasksCons(e, roles);
    }
  }

  /** One step of `NextMasks`: the first role's mask, then the rest from the enumerator it left. */
  lemma NextMasksCons(e: RoleEnumerator, roles: seq<string>)
    requires |roles| > 0
    ensures var first := NextMask(e, roles[0]);
      NextMasks(e, roles) == (NextMasks(first.0, roles[1..]).0, [first.1] + NextMasks(first.0, roles[1..]).1)
  {
  }

  /** A mask for count `m = n + 1` followed by masks numbered on from `m + 1`. */
  lemma ShiftedMasks(out: seq<string>, first: string, rest: seq<string>, name: string, n: nat, m: nat)
    requires out == [first] + rest && m == n + 1 && first == FormatMask(name, m)
    requires forall i :: 0 <= i < |rest| ==> rest[i] == FormatMask(name, m + i + 1)
    ensures forall i :: 0 <= i < |out| ==> out[i] == FormatMask(name, n + i + 1)
  {
    forall i | 0 <= i < |out|
      ensures out[i] == FormatMask(name, n + i + 1)
    {
      if i > 0 {
        assert out[i] == rest[i - 1];
        assert n + 1 + (i - 1) + 1 == n + i + 1;
      }
    }
  }

  /** Roles that differ only in case and surrounding or inner whitespace share a counter,
      and the label reads back to the same key. */
  lemma KeyOfLabel(role: string)
    ensures Key(Label(role)) == Key(role)
    ensures Key(Strip(role)) == Key(role)
    ensures Key(Lower(role)) == Key(role)
  {
    LowerOfTitle(Strip(role));
    RemoveSpacesOfStrip(role);
    LowerIdempotent(role);
  }

  /** A role whose alias can be read back: something besides whitespace, and no newline inside
      the stripped role (`.` in the role group does not match one; newlines around the role are
      stripped with the other whitespace). */
  predicate Printable(role: string) {
    Strip(role) != "" && NoNewline(Strip(role))
  }

  /** A stripped role ends in a character that is not whitespace, and title-casing keeps it so. */
  lemma LabelEnd(role: string)
    requires Strip(role) != ""
    ensures |Label(role)| == |Strip(role)| > 0
    ensures !IsSpace(Label(role)[|Label(role)| - 1])
  {
    var s := Strip(role);
    var l := Label(role);
    assert forall i :: 0 <= i < |l| ==> !IsSpace(s[i]) ==> !IsSpace(l[i]);
  }

  lemma LabelShape(role: string)
    requires Printable(role)
    ensures |Label(role)| > 0
    ensures !IsSpace(Label(role)[|Label(role)| - 1])
    ensures forall i :: 0 <= i < |Label(role)| ==> Label(role)[i] != '\n'
  {
    var s := Strip(role);
    var l := Label(role);
    LabelEnd(role);
    assert forall i :: 0 <= i < |l| ==> s[i] != '\n' ==> l[i] != '\n';
  }

  /** The produced mask parses back to the label and the count exactly when the role is
      printable; for any other role `_parse_mask` refuses it. */
  lemma ParseFormatMask(role: string, n: nat)
    ensures Printable(role) ==> ParseMask(FormatMask(Label(role), n)) == Ok((Label(role), n))
    ensures !Printable(role) ==> ParseMask(FormatMask(Label(role), n)).Err?
  {
    if Printable(role) {
      PrintableMaskReadsBack(role, n);
    } else if Strip(role) == "" {
      BlankRoleMaskUnreadable(role, n);
    } else {
      NewlineRoleMaskUnreadable(role, n);
    }
  }

  lemma PrintableMaskReadsBack(role: string, n: nat)
    requires Printable(role)
    ensures ParseMask(FormatMask(Label(role), n)) == Ok((Label(role), n))
  {
    var l := Label(role);
    var d := NatToString(n);
    var mask := FormatMask(l, n);
    LabelShape(role);
    DigitsAreNotSpace(d);
    forall j | 1 <= j < |l|
      ensures !ValidSplit(mask, j)
    {
      NoEarlySplit(l, d, j);
    }
    // The split right after the label is valid.
    var t := mask[|l|..];
    assert t == " " + d;
    assert LeadingSpaces(t) == 1 by {
      assert t[..1] == " ";
      assert t[1] == d[0];
    }
    assert t[1..] == d;
    assert LeadingDigits(d) == |d|;
    assert t[1..1 + |d|] == d;
    ParseNatToString(n);
    assert MatchTail(t) == Some(n);
    assert mask[..|l|] == l;
    assert ValidSplit(mask, |l|);
    FindRoleEndAt(mask, 1, |l|);
    assert mask[..|l|] == l;
  }

  lemma NoEarlySplit(l: string, d: string, j: nat)
    requires 1 <= j < |l|
    requires !IsSpace(l[|l| - 1])
    requires |d| >= 1 && AllDigits(d)
    requires forall i :: 0 <= i < |d| ==> !IsSpace(d[i]) && d[i] != '\n'
    ensures MatchTail((l + " " + d)[j..]).None?
  {
    var t := (l + " " + d)[j..];
    var p := |l| - j;  // index of the separating space in t
    assert t[p] == ' ';
    assert t[p - 1] == l[|l| - 1];
    var w := LeadingSpaces(t);
    if w > 0 {
      assert w < p by {
        assert forall i :: 0 <= i < w ==> t[..w][i] == t[i];
      }
      var dd := LeadingDigits(t[w..]);
      if dd > 0 {
        assert w + dd <= p by {
          assert forall i :: 0 <= i < dd ==> t[w..][..dd][i] == t[w + i];
        }
        assert t[|t| - 1] == d[|d| - 1];
      }
    }
  }

  lemma {:induction false} FindRoleEndAt(mask: string, i: nat, j: nat)
    requires 1 <= i <= j
    requires ValidSplit(mask, j)
    requires NoNewline(mask[..i - 1])
    requires forall k :: i <= k < j ==> !ValidSplit(mask, k)
    ensures FindRoleEnd(mask, i) == Some(j)
    decreases j - i
  {
    if i < j {
      assert mask[i - 1] == mask[..j][i - 1];
      assert mask[..i] == mask[..i - 1] + [mask[i - 1]];
      assert !ValidSplit(mask, i);
      FindRoleEndAt(mask, i + 1, j);
    }
  }

  /** `_init` on a handed-out mask restores the counters `next_mask` left, and refuses the
      mask of a role that is not printable. */
  lemma AbsorbNextMask(e: RoleEnumerator, role: string)
    ensures Printable(role) ==> Absorb(e, NextMask(e, role).1) == Ok(NextMask(e, role).0)
    ensures !Printable(role) ==> Absorb(e, NextMask(e, role).1).Err?
  {
    var n := CountOf(e, Key(role)) + 1;
    var mask := FormatMask(Label(role), n);
    assert NextMask(e, role) == (RoleEnumerator(e.counters[Key(role) := n]), mask);
    ParseFormatMask(role, n);
    if Printable(role) {
      KeyOfLabel(role);
      assert Max(CountOf(e, Key(role)), n) == n;
    }
  }

  /** Every role of the run is printable. */
  predicate AllPrintable(roles: seq<string>) {
    forall i :: 0 <= i < |roles| ==> Printable(roles[i])
  }

  lemma AllPrintableCons(roles: seq<string>)
    requires |roles| > 0
    ensures AllPrintable(roles) <==> Printable(roles[0]) && AllPrintable(roles[1..])
  {
    assert forall i :: 1 <= i < |roles| ==> roles[i] == roles[1..][i - 1];
  }

  /** Feeding the masks an enumerator hands out back into `_init` rebuilds exactly its counters
      when every role is printable, and raises ValueError otherwise. */
  lemma {:induction false} ReplayMasks(e: RoleEnumerator, roles: seq<string>)
    ensures AllPrintable(roles) ==> InitFrom(e, NextMasks(e, roles).1) == Ok(NextMasks(e, roles).0)
    ensures !AllPrintable(roles) ==> InitFrom(e, NextMasks(e, roles).1).Err?
    decreases |roles|
  {
    if |roles| > 0 {
      var role := roles[0];
      var first := NextMask(e, role);
      var rest := NextMasks(first.0, roles[1..]);
      var ms := [first.1] + rest.1;
      assert NextMasks(e, roles) == (rest.0, ms);
      assert ms[0] == first.1 && ms[1..] == rest.1;
      AbsorbNextMask(e, role);
      AllPrintableCons(roles);
      if Printable(role) {
        ReplayMasks(first.0, roles[1..]);
        InitFromStep(e, ms);
      } else {
        assert ParseMask(ms[0]).Err?;
      }
    }
  }

  /** The round trip the constructor documents: a new enumerator built from the masks
      handed out so far gives the same next mask as the one that handed them out; once a role
      that is not printable has been served, the rebuild raises instead. */
  lemma RestartGivesSameNextMask(roles: seq<string>, role: string)
    ensures AllPrintable(roles) ==>
      && New(NextMasks(Fresh(), roles).1) == Ok(NextMasks(Fresh(), roles).0)
      && NextMask(New(NextMasks(Fresh(), roles).1).value, role) == NextMask(NextMasks(Fresh(), roles).0, role)
    ensures !AllPrintable(roles) ==> New(NextMasks(Fresh(), roles).1).Err?
  {
    ReplayMasks(Fresh(), roles);
  }

  /** As written, a blank role gets the mask " n", which `_parse_mask` refuses: the role
      group needs at least one character before the whitespace. */
  lemma BlankRoleMaskUnreadable(role: string, n: nat)
    requires Strip(role) == ""
    ensures FormatMask(Label(role), n) == " " + NatToString(n)
    ensures ParseMask(FormatMask(Label(role), n)).Err?
  {
    var d := NatToString(n);
    var mask := FormatMask(Label(role), n);
    assert Label(role) == "";
    assert mask == " " + d;
    DigitsAreNotSpace(d);
    forall j: nat
      ensures !ValidSplit(mask, j)
    {
      if 1 <= j <= |mask| {
        var t := mask[j..];
        assert |t| > 0 ==> t[0] == d[j - 1];
        assert LeadingSpaces(t) == 0;
      }
    }
  }

  /** As written, a role with a newline inside its stripped text gets a mask `_parse_mask`
      refuses: the role group cannot reach past the newline, and every shorter group leaves
      the label's last character in the tail, which must be whitespace and digits only. */
  lemma NewlineRoleMaskUnreadable(role: string, n: nat)
    requires Strip(role) != "" && !NoNewline(Strip(role))
    ensures ParseMask(FormatMask(Label(role), n)).Err?
  {
    var s := Strip(role);
    var l := Label(role);
    var d := NatToString(n);
    var mask := FormatMask(l, n);
    LabelEnd(role);
    var p :| 0 <= p < |s| && s[p] == '\n';
    assert l[p] == '\n';
    DigitsAreNotSpace(d);
    forall j: nat
      ensures !ValidSplit(mask, j)
    {
      if 1 <= j < |l| {
        NoEarlySplit(l, d, j);
      } else if |l| <= j <= |mask| {
        assert mask[..j][p] == '\n';
      }
    }
  }

  /** So once a blank role's mask is among the stored masks, no enumerator can be rebuilt
      from them. */
  lemma BlankRoleBreaksRestart(masks: seq<string>, i: nat, role: string, n: nat)
    requires i < |masks| && Strip(role) == "" && masks[i] == FormatMask(Label(role), n)
    ensures New(masks).Err?
  {
    BlankRoleMaskUnreadable(role, n);
  }

  /** `next_mask` refusing exactly the roles whose mask could not be read back (a blank role, or
      one with a newline inside it), so that every mask it hands out parses. */
  function CheckedNextMask(e: RoleEnumerator, role: string): (r: Result<(RoleEnumerator, string), Exception>)
    ensures r.Err? <==> !Printable(role)
    ensures r.Err? <==> ParseMask(NextMask(e, role).1).Err?
    ensures r.Err? ==> r.error == ValueError("Invalid role: " + role)
    ensures r.Ok? ==> r.value == NextMask(e, role)
    ensures r.Ok? ==> ParseMask(r.value.1) == Ok((Label(role), CountOf(r.value.0, Key(role))))
  {
    ParseFormatMask(role, CountOf(e, Key(role)) + 1);
    if !Printable(role) then Err(ValueError("Invalid role: " + role))
    else Ok(NextMask(e, role))
  }

  /** Successive checked calls: the first refused role stops the run. */
  function CheckedNextMasks(e: RoleEnumerator, roles: seq<string>): (r: Result<(RoleEnumerator, seq<string>), Exception>)
    ensures r.Ok? <==> AllPrintable(roles)
    ensures r.Ok? ==> r.value == NextMasks(e, roles)
    decreases |roles|
  {
    if |roles| == 0 then Ok((e, []))
    else
      var first := CheckedNextMask(e, roles[0]);
      if first.Err? then Err(first.error)
      else
        var rest := CheckedNextMasks(first.value.0, roles[1..]);
        AllPrintableCons(roles);
        if rest.Err? then Err(rest.error)
        else Ok((rest.value.0, [first.value.1] + rest.value.1))
  }

  /** With the check, an enumerator rebuilt from the masks handed out so far always succeeds
      and has the same counters; and the check refuses exactly the runs whose masks, handed out
      unchecked, would make that rebuild fail. */
  lemma CheckedRestart(roles: seq<string>)
    ensures CheckedNextMasks(Fresh(), roles).Ok? ==>
      New(CheckedNextMasks(Fresh(), roles).value.1) == Ok(CheckedNextMasks(Fresh(), roles).value.0)
    ensures CheckedNextMasks(Fresh(), roles).Err? <==> New(NextMasks(Fresh(), roles).1).Err?
  {
    ReplayMasks(Fresh(), roles);
  }

  /** A newline around the role is stripped away: "Judge\n" is printable, and its mask reads back. */
  lemma TrailingNewlineRole()
    ensures Printable("Judge\n")
    ensures ParseMask(FormatMask(Label("Judge\n"), 1)) == Ok(("Judge", 1))
  {
    assert LeadingSpaces("Judge\n") == 0;
    assert Strip("Judge\n") == "Judge";
    assert Label("Judge\n") == "Judge";
    ParseFormatMask("Judge\n", 1);
  }

  /** A mask without a trailing count is rejected, so construction fails. */
  lemma InvalidMaskRejected()
    ensures New(["Accused 1", "Accused 2", "Judge 1", "Invalid"]).Err?
  {
    var masks := ["Accused 1", "Accused 2", "Judge 1", "Invalid"];
    forall j: nat
      ensures !ValidSplit("Invalid", j)
    {
      if 1 <= j <= 7 {
        assert j < 7 ==> "Invalid"[j..][0] == "Invalid"[j];
        assert LeadingSpaces("Invalid"[j..]) == 0;
      }
    }
    assert ParseMask(masks[3]).Err?;
  }
}
