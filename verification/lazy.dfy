/** The lazy proxy: an object built by a loader on first use and cached while it is not `None`,
    and a reset that drops the cache and replaces the loader's arguments. */
module Lazy {
  import opened Common

  /** The proxy's state: the loader, the arguments it is called with, and the cached object. A
      loader returns an object, returns `None`, or raises. */
  datatype Proxy<!A, O> = Proxy(loader: A -> Result<Option<O>, Exception>, args: A, obj: Option<O>)

  /** Construction stores the loader and its arguments and loads nothing. */
  function New<A, O>(loader: A -> Result<Option<O>, Exception>, args: A): (p: Proxy<A, O>)
    ensures p.loader == loader && p.args == args && p.obj.None?
  {
    Proxy(loader, args, None)
  }

  /** `getattr(None, name)`. */
  function NoneAttribute(name: string): Exception {
    Exception("AttributeError", "'NoneType' object has no attribute '" + name + "'")
  }

  /** `__getattr__`: the attribute read from the object, the proxy afterwards, and whether the
      loader was called. */
  function GetAttr<A, O, V>(p: Proxy<A, O>, name: string, attr: (O, string) -> Result<V, Exception>): (r: (Result<V, Exception>, Proxy<A, O>, bool))
    ensures r.2 <==> p.obj.None?
    ensures r.1.loader == p.loader && r.1.args == p.args
    ensures p.obj.Some? ==> r.1 == p && r.0 == attr(p.obj.value, name)
    ensures p.obj.None? && p.loader(p.args).Ok? ==> r.1.obj == p.loader(p.args).value
    ensures p.obj.None? && p.loader(p.args).Err? ==> r.1 == p && r.0 == Err(p.loader(p.args).error)
    ensures r.0.Ok? ==> r.1.obj.Some?
  {
    if p.obj.Some? then (attr(p.obj.value, name), p, false)
    else
      match p.loader(p.args)
      case Err(e) => (Err(e), p, true)
      case Ok(o) => (if o.Some? then attr(o.value, name) else Err(NoneAttribute(name)), p.(obj := o), true)
  }

  /** `_reset`: the cache dropped and the arguments replaced; the loader stays. */
  function Reset<A, O>(p: Proxy<A, O>, args: A): (q: Proxy<A, O>)
    ensures q.loader == p.loader && q.args == args && q.obj.None?
  {
    p.(obj := None, args := args)
  }

  /** A run of attribute reads: the proxy afterwards and how many times the loader was called. */
  function Reads<A, O, V>(p: Proxy<A, O>, names: seq<string>, attr: (O, string) -> Result<V, Exception>): (r: (Proxy<A, O>, nat))
    ensures r.1 <= |names|
    ensures r.0.loader == p.loader && r.0.args == p.args
    decreases |names|
  {
    if |names| == 0 then (p, 0)
    else
      var (_, q, called) := GetAttr(p, names[0], attr);
      var (q', n) := Reads(q, names[1..], attr);
      (q', n + if called then 1 else 0)
  }

  /** A loader that returns an object is called once, however many attributes are read. */
  lemma {:induction false} LoadsOnce<A, O, V>(p: Proxy<A, O>, names: seq<string>, attr: (O, string) -> Result<V, Exception>)
    requires p.loader(p.args).Ok? && p.loader(p.args).value.Some?
    ensures Reads(p, names, attr).1 == (if p.obj.None? && |names| > 0 then 1 else 0)
    decreases |names|
  {
    if |names| > 0 {
      var (_, q, _) := GetAttr(p, names[0], attr);
      assert q.obj.Some?;
      LoadsOnce(q, names[1..], attr);
    }
  }

  /** A loader that returns `None` is called again on every read. */
  lemma {:induction false} NoneReloadsEveryTime<A, O, V>(p: Proxy<A, O>, names: seq<string>, attr: (O, string) -> Result<V, Exception>)
    requires p.loader(p.args) == Ok(None) && p.obj.None?
    ensures Reads(p, names, attr).1 == |names|
    decreases |names|
  {
    if |names| > 0 {
      var (_, q, _) := GetAttr(p, names[0], attr);
      assert q == p;
      NoneReloadsEveryTime(q, names[1..], attr);
    }
  }

  /** After a reset, the next read loads with the new arguments. */
  lemma ResetLoadsWithNewArgs<A, O, V>(p: Proxy<A, O>, args: A, name: string, attr: (O, string) -> Result<V, Exception>)
    requires p.loader(args).Ok? && p.loader(args).value.Some?
    ensures var (v, q, called) := GetAttr(Reset(p, args), name, attr);
      called && q.obj == p.loader(args).value && v == attr(p.loader(args).value.value, name)
  {
  }
}
