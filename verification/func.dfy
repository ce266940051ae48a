/** `allf`: several functions combined into one that runs them all on the same arguments and
    collects their results, with a policy for what happens when some of them raise. */
module Func {
  import opened Common

  datatype ExceptionPolicy = Eager | Lazy | Quiet

  const DefaultPolicy := Lazy

  /** One combined function applied to the call's arguments: a value, or the exception it raised. */
  type Fn<-A, R> = A -> Result<R, Exception>

  /** What a call of the combined function does: return the result list, or raise. */
  datatype Outcome<R> = Returned(results: seq<Option<R>>) | Raised(exception: Exception)

  predicate AllOk<A, R>(funcs: seq<Fn<A, R>>, x: A) {
    forall i :: 0 <= i < |funcs| ==> funcs[i](x).Ok?
  }

  /** The index of the first function that raises on `x`, or `|funcs|` when none does. */
  function FirstFailure<A, R>(funcs: seq<Fn<A, R>>, x: A): (n: nat)
    ensures n <= |funcs|
    ensures forall j :: 0 <= j < n ==> funcs[j](x).Ok?
    ensures n < |funcs| ==> funcs[n](x).Err?
    ensures n == |funcs| <==> AllOk(funcs, x)
    decreases |funcs|
  {
    if |funcs| == 0 then 0
    else if funcs[0](x).Err? then 0
    else
      var n := FirstFailure(funcs[1..], x);
      assert forall j :: 1 <= j < n + 1 ==> funcs[j] == funcs[1..][j - 1];
      n + 1
  }

  /** The value a function contributes to the result list: its result, or `None` when it raised. */
  function Contribution<R>(r: Result<R, Exception>): Option<R> {
    if r.Ok? then Some(r.value) else None
  }

  /** The loop over the functions: the result list, the exceptions appended to the shared list
      during this call, and the exception raised at once under EAGER. */
  function Loop<A, R>(funcs: seq<Fn<A, R>>, x: A, eager: bool): (r: (seq<Option<R>>, seq<Exception>, Option<Exception>))
    ensures r.2.Some? <==> eager && !AllOk(funcs, x)
    ensures r.2.Some? ==> r.1 == [r.2.value] && r.2.value == funcs[FirstFailure(funcs, x)](x).error
    ensures r.2.None? ==> |r.0| == |funcs| && forall i :: 0 <= i < |funcs| ==> r.0[i] == Contribution(funcs[i](x))
    ensures r.2.None? ==> (|r.1| == 0 <==> AllOk(funcs, x))
    ensures |r.1| > 0 ==> r.1[0] == funcs[FirstFailure(funcs, x)](x).error
    decreases |funcs|
  {
    if |funcs| == 0 then ([], [], None)
    else
      var tail := funcs[1..];
      assert forall i :: 1 <= i < |funcs| ==> funcs[i] == tail[i - 1];
      match funcs[0](x)
      case Ok(v) =>
        var (rs, es, raised) := Loop(tail, x, eager);
        ([Some(v)] + rs, es, raised)
      case Err(e) =>
        if eager then ([None], [e], Some(e))
        else
          var (rs, es, raised) := Loop(tail, x, eager);
          ([None] + rs, [e] + es, raised)
  }

  /** The combined function: its functions, its policy, and the exception list that `allf`
      creates once and every call of the combined function appends to. */
  datatype Combined<!A, R> = Combined(funcs: seq<Fn<A, R>>, policy: ExceptionPolicy, exceptions: seq<Exception>)

  function Allf<A, R>(funcs: seq<Fn<A, R>>, policy: ExceptionPolicy): (c: Combined<A, R>)
    ensures c.funcs == funcs && c.policy == policy && c.exceptions == []
  {
    Combined(funcs, policy, [])
  }

  /** One call of the combined function as written: under LAZY it raises the first exception of
      the shared list, which may come from an earlier call. */
  function Invoke<A, R>(c: Combined<A, R>, x: A): (r: (Outcome<R>, Combined<A, R>))
    ensures r.1.funcs == c.funcs && r.1.policy == c.policy
    ensures |r.1.exceptions| >= |c.exceptions| && r.1.exceptions[..|c.exceptions|] == c.exceptions
    ensures r.1.exceptions == c.exceptions <==> AllOk(c.funcs, x)
    ensures c.policy == Lazy ==> (r.0.Raised? <==> |r.1.exceptions| > 0)
    ensures c.policy == Lazy && r.0.Raised? ==> r.0.exception == r.1.exceptions[0]
  {
    var (rs, es, raised) := Loop(c.funcs, x, c.policy == Eager);
    var all := c.exceptions + es;
    var next := c.(exceptions := all);
    if raised.Some? then (Raised(raised.value), next)
    else if c.policy == Lazy && |all| > 0 then (Raised(all[0]), next)
    else (Returned(rs), next)
  }

  /** One call with an exception list of its own, as the policies describe. */
  function InvokeFresh<A, R>(c: Combined<A, R>, x: A): (o: Outcome<R>)
    ensures c.policy == Quiet ==> o.Returned?
    ensures c.policy != Quiet ==> (o.Raised? <==> !AllOk(c.funcs, x))
    ensures o.Raised? ==> o.exception == c.funcs[FirstFailure(c.funcs, x)](x).error
    ensures o.Returned? ==> |o.results| == |c.funcs|
    ensures o.Returned? ==> forall i :: 0 <= i < |c.funcs| ==> o.results[i] == Contribution(c.funcs[i](x))
  {
    Invoke(c.(exceptions := []), x).0
  }

  /** Under EAGER, the functions after the first one that raises have no say in the outcome. */
  lemma EagerStopsAtFirstFailure<A, R>(c: Combined<A, R>, d: Combined<A, R>, x: A)
    requires c.policy == Eager && d.policy == Eager && c.exceptions == d.exceptions
    requires !AllOk(c.funcs, x)
    requires |d.funcs| > FirstFailure(c.funcs, x)
    requires d.funcs[..FirstFailure(c.funcs, x) + 1] == c.funcs[..FirstFailure(c.funcs, x) + 1]
    ensures Invoke(c, x).0 == Invoke(d, x).0
    ensures Invoke(c, x).1.exceptions == Invoke(d, x).1.exceptions
  {
    var n := FirstFailure(c.funcs, x);
    assert forall j :: 0 <= j <= n ==> d.funcs[j] == c.funcs[j] by {
      forall j | 0 <= j <= n ensures d.funcs[j] == c.funcs[j] {
        assert d.funcs[..n + 1][j] == c.funcs[..n + 1][j];
      }
    }
    assert FirstFailure(d.funcs, x) == n by {
      FirstFailureAt(d.funcs, x, n);
    }
  }

  /** A function that raises after a prefix that does not is the first failure. */
  lemma FirstFailureAt<A, R>(funcs: seq<Fn<A, R>>, x: A, n: nat)
    requires n < |funcs| && funcs[n](x).Err?
    requires forall j :: 0 <= j < n ==> funcs[j](x).Ok?
    ensures FirstFailure(funcs, x) == n
  {
  }

  /** As written, a LAZY combined function that raised once raises again on every later call,
      even one on which all of its functions succeed. */
  lemma LazyReRaisesEarlierException<A, R>(funcs: seq<Fn<A, R>>, x1: A, x2: A)
    requires !AllOk(funcs, x1) && AllOk(funcs, x2)
    ensures var (_, c1) := Invoke(Allf(funcs, Lazy), x1);
      Invoke(c1, x2).0 == Raised(funcs[FirstFailure(funcs, x1)](x1).error)
  {
  }

  /** With a list per call, that second call returns every function's result. */
  lemma LazyFreshCallReturns<A, R>(funcs: seq<Fn<A, R>>, x1: A, x2: A)
    requires AllOk(funcs, x2)
    ensures var (_, c1) := Invoke(Allf(funcs, Lazy), x1);
      InvokeFresh(c1, x2) == Returned(seq(|funcs|, i requires 0 <= i < |funcs| => Some(funcs[i](x2).value)))
  {
  }
}
