/** The Redis-backed store: its connection URL and the guard on opening a transaction. The
    session semantics (buffered writes, committed reads) are those of the `Store` module. */
module Redis {
  import opened Common
  import opened Text
  import Store

  datatype RedisConfig = RedisConfig(host: string, port: int, db: int)

  /** The configuration defaults. */
  const DefaultConfig := RedisConfig("localhost", 6379, 0)

  /** `redis://host:port/db` */
  function Url(c: RedisConfig): (u: string)
    ensures |u| > 9 + |c.host| && u[..8] == "redis://" && u[8..8 + |c.host|] == c.host && u[8 + |c.host|] == ':'
  {
    "redis://" + c.host + ":" + IntToString(c.port) + "/" + IntToString(c.db)
  }

  /** Reads a URL of that shape back into host, port and database. */
  function ParseUrl(u: string): Option<RedisConfig> {
    if |u| < 8 || u[..8] != "redis://" then None
    else
      var r := u[8..];
      var i := IndexOf(r, ':');
      if i == |r| then None
      else
        match ParsePortDb(r[i + 1..])
        case None => None
        case Some((port, db)) => Some(RedisConfig(r[..i], port, db))
  }

  /** The `port/db` part of the URL. */
  function ParsePortDb(t: string): Option<(int, int)> {
    var j := IndexOf(t, '/');
    if j == |t| || !AllDigits(t[..j]) || !AllDigits(t[j + 1..]) then None
    else Some((ParseDigits(t[..j]), ParseDigits(t[j + 1..])))
  }

  /** A host without a colon and a non-negative port and database survive the round trip. */
  lemma ParseUrlRoundTrip(c: RedisConfig)
    requires ':' !in c.host && c.port >= 0 && c.db >= 0
    ensures ParseUrl(Url(c)) == Some(c)
  {
    var p, d := NatToString(c.port), NatToString(c.db);
    var u := Url(c);
    assert u == "redis://" + c.host + (":" + (p + "/" + d));
    var r := u[8..];
    assert r == c.host + (":" + (p + "/" + d));
    IndexOfPrefix(c.host, ':', ":" + (p + "/" + d));
    assert r[|c.host| + 1..] == p + "/" + d;
    assert r[..|c.host|] == c.host;
    ParsePortDbOfParts(p, d);
    ParseNatToString(c.port);
    ParseNatToString(c.db);
  }

  /** Two digit strings around a slash read back as the two numbers. */
  lemma ParsePortDbOfParts(p: string, d: string)
    requires AllDigits(p) && AllDigits(d)
    ensures ParsePortDb(p + "/" + d) == Some((ParseDigits(p), ParseDigits(d)))
  {
    var t := p + "/" + d;
    assert t == p + ("/" + d);
    assert '/' !in p by {
      assert forall k :: 0 <= k < |p| ==> IsDigit(p[k]);
    }
    IndexOfPrefix(p, '/', "/" + d);
    assert t[..|p|] == p && t[|p| + 1..] == d;
  }

  /** The default configuration's URL. */
  lemma DefaultUrl()
    ensures Url(DefaultConfig) == "redis://localhost:6379/0"
  {
    assert NatToString(6379) == "6379" by {
      assert NatToString(6) == "6";
      assert NatToString(63) == "63";
      assert NatToString(637) == "637";
    }
    assert NatToString(0) == "0";
  }

  /** The store before and after `init`: the pool is created from the configured URL. */
  datatype RedisStore = RedisStore(config: RedisConfig, pool: Option<string>)

  function Init(s: RedisStore): (r: RedisStore)
    ensures r.pool == Some(Url(s.config)) && r.config == s.config
  {
    s.(pool := Some(Url(s.config)))
  }

  /** The abstract methods of `StoreSession` that `RedisStoreSession` leaves unimplemented. */
  const UnimplementedMethods: seq<string> := ["dequeue", "enqueue", "expire_at", "time"]

  /** The TypeError Python raises on instantiating a class with abstract methods left over. */
  function AbstractClassError(cls: string, methods: seq<string>): Exception {
    Exception("TypeError", "Can't instantiate abstract class " + cls + " with abstract methods " + JoinNames(methods))
  }

  function JoinNames(names: seq<string>): string
    decreases |names|
  {
    if |names| == 0 then ""
    else if |names| == 1 then names[0]
    else names[0] + ", " + JoinNames(names[1..])
  }

  /** `tx` as written: before `init` a ValueError; after it, constructing `RedisStoreSession`
      raises TypeError, because the class does not implement every abstract method of its base. */
  function TxAsWritten(s: RedisStore, data: Store.Data): (r: Result<Store.Session, Exception>)
    ensures r.Err?
    ensures s.pool.None? ==> r.error == ValueError("Store is not initialized")
    ensures s.pool.Some? ==> r.error.kind == "TypeError"
  {
    if s.pool.None? then Err(ValueError("Store is not initialized"))
    else Err(AbstractClassError("RedisStoreSession", UnimplementedMethods))
  }

  /** As written, not even an initialised store opens a transaction. */
  lemma InitThenTxAsWrittenFails(s: RedisStore, data: Store.Data)
    ensures TxAsWritten(Init(s), data) == Err(AbstractClassError("RedisStoreSession", UnimplementedMethods))
  {
  }

  /** `tx` with a session class that implements the whole session interface: a fresh session
      over the store's data, or a ValueError before `init`. */
  function Tx(s: RedisStore, data: Store.Data): (r: Result<Store.Session, Exception>)
    ensures r.Err? <==> s.pool.None?
    ensures r.Err? ==> r.error == ValueError("Store is not initialized")
    ensures r.Ok? ==> r.value.buffer == [] && r.value.committed == data
  {
    if s.pool.None? then Err(ValueError("Store is not initialized")) else Ok(Store.NewSession(data))
  }

  /** Every initialised store opens transactions, and before `init` both readings agree. */
  lemma InitThenTx(s: RedisStore, data: Store.Data)
    ensures Tx(Init(s), data).Ok?
    ensures s.pool.None? ==> Tx(s, data) == TxAsWritten(s, data)
  {
  }
}
