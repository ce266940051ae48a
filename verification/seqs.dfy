/** Generic facts about sequences, their reorderings and element-wise maps. */
module Seqs {

  function Map<T, U>(f: T -> U, s: seq<T>): (r: seq<U>)
    ensures |r| == |s|
    ensures forall k :: 0 <= k < |s| ==> r[k] == f(s[k])
  {
    seq(|s|, k requires 0 <= k < |s| => f(s[k]))
  }

  lemma MultisetSplit<T>(s: seq<T>, i: nat)
    requires i < |s|
    ensures multiset(s) == multiset(s[..i] + s[i + 1..]) + multiset{s[i]}
  {
    assert s == s[..i] + [s[i]] + s[i + 1..];
  }

  lemma Cancel<T>(x: T, p: multiset<T>, q: multiset<T>)
    requires p + multiset{x} == q + multiset{x}
    ensures p == q
  {
    assert forall y :: p[y] == (p + multiset{x})[y] - multiset{x}[y];
    assert forall y :: q[y] == (q + multiset{x})[y] - multiset{x}[y];
  }

  /** Where the head of `a` sits in its reordering `b`; the rests are reorderings too. */
  lemma RemoveMatching<T>(a: seq<T>, b: seq<T>) returns (i: nat)
    requires multiset(a) == multiset(b) && |a| > 0
    ensures i < |b| && b[i] == a[0]
    ensures multiset(a[1..]) == multiset(b[..i] + b[i + 1..])
  {
    assert a[0] in multiset(b);
    i :| 0 <= i < |b| && b[i] == a[0];
    MultisetSplit(a, 0);
    MultisetSplit(b, i);
    assert a[..0] + a[1..] == a[1..];
    Cancel(a[0], multiset(a[1..]), multiset(b[..i] + b[i + 1..]));
  }

  /** Mapping commutes with taking one element out. */
  lemma MapRemove<T, U>(f: T -> U, s: seq<T>, i: nat, rest: seq<T>)
    requires i < |s| && rest == s[..i] + s[i + 1..]
    ensures multiset(Map(f, s)) == multiset(Map(f, rest)) + multiset{f(s[i])}
  {
    var c := Map(f, s);
    var cr := Map(f, rest);
    MultisetSplit(c, i);
    assert cr == c[..i] + c[i + 1..] by {
      forall k | 0 <= k < |cr|
        ensures cr[k] == (c[..i] + c[i + 1..])[k]
      {
        if k < i {
          assert rest[k] == s[k];
        } else {
          assert rest[k] == s[k + 1];
        }
      }
    }
  }

  /** Mapping two reorderings of one list gives reorderings of one list. */
  lemma {:induction false} MapPermuted<T, U>(f: T -> U, a: seq<T>, b: seq<T>)
    requires multiset(a) == multiset(b)
    ensures multiset(Map(f, a)) == multiset(Map(f, b))
    decreases |a|
  {
    if |a| == 0 {
      assert |b| == |multiset(b)|;
    } else {
      var i := RemoveMatching(a, b);
      var restA, restB := a[1..], b[..i] + b[i + 1..];
      MapPermuted(f, restA, restB);
      assert a[..0] + a[1..] == restA;
      MapRemove(f, a, 0, restA);
      MapRemove(f, b, i, restB);
      AddSame(multiset(Map(f, a)), multiset(Map(f, restA)), multiset(Map(f, b)), multiset(Map(f, restB)), f(a[0]));
    }
  }

  lemma AddSame<U>(ma: multiset<U>, ra: multiset<U>, mb: multiset<U>, rb: multiset<U>, x: U)
    requires ma == ra + multiset{x} && mb == rb + multiset{x} && ra == rb
    ensures ma == mb
  {
  }
}
