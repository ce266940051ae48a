/** The Redis-cluster result backend's configuration: the connection parameters read from its
    URL, the checks its constructor makes, and when a chord's callback fires. Splitting the URL
    into parts, percent-decoding and the boolean reading of `new_join` are parameters. */
module RedisCluster {
  import opened Common
  import opened Json

  const RedisMissing := "You need to install the redis-py library in order to use the Redis result store backend."
  const RedisNon0Db := "Redis only supports the default DB when using the Redis result store."
  const RedisUrlMissing := "You need to specify a URL for the Redis result store backend."

  function ImproperlyConfigured(message: string): Exception {
    Exception("ImproperlyConfigured", message)
  }

  /** The parts of a backend URL: scheme, host, port, password, path and query parameters. */
  datatype UrlParts = UrlParts(scheme: string, host: Option<string>, port: Option<int>, password: Option<string>,
                               path: Option<string>, query: map<string, string>)

  const SslParamKeys: seq<string> := ["ssl_ca_certs", "ssl_certfile", "ssl_keyfile", "ssl_cert_reqs"]
  const OtherParamKeys: seq<string> := ["max_connections", "new_join"]
  const BaseKeys: set<string> := {"host", "port", "password", "ssl"}

  /** `path.lstrip("/")`. */
  function StripSlashes(s: string): (r: string)
    ensures |r| <= |s| && r == s[|s| - |r|..]
    ensures |r| > 0 ==> r[0] != '/'
    ensures forall i :: 0 <= i < |s| - |r| ==> s[i] == '/'
    decreases |s|
  {
    if |s| > 0 && s[0] == '/' then
      var r := StripSlashes(s[1..]);
      assert forall i :: 1 <= i < |s| - |r| ==> s[i] == s[1..][i - 1];
      r
    else s
  }

  /** The path names a database other than 0. */
  predicate NamesOtherDb(path: Option<string>) {
    path.Some? && |path.value| > 0 && path.value[0] == '/'
    && StripSlashes(path.value) != "" && StripSlashes(path.value) != "0"
  }

  function OptionalText(s: Option<string>): Json {
    if s.Some? then Str(s.value) else Null
  }

  function OptionalInt(i: Option<int>): Json {
    if i.Some? then Int(i.value) else Null
  }

  /** The parameters copied from the query when present. */
  function CopyPresent(params: map<string, Json>, keys: seq<string>, query: map<string, string>,
                       unquote: string -> string, nonEmpty: bool): (r: map<string, Json>)
    ensures forall k :: k in r <==> k in params || (k in keys && k in query && (!nonEmpty || query[k] != ""))
    ensures forall k :: k in r && k !in keys ==> r[k] == params[k]
    ensures forall k :: k in keys && k in query && (!nonEmpty || query[k] != "") ==> r[k] == Str(unquote(query[k]))
    decreases |keys|
  {
    if |keys| == 0 then params
    else
      var k := keys[|keys| - 1];
      var before := CopyPresent(params, keys[..|keys| - 1], query, unquote, nonEmpty);
      assert forall j :: j in keys <==> j in keys[..|keys| - 1] || j == k;
      if k in query && (!nonEmpty || query[k] != "") then before[k := Str(unquote(query[k]))] else before
  }

  /** The connection parameters of a URL whose path names no other database: host, port,
      password and whether the scheme asks for TLS, then the optional parameters that are
      present, then, when TLS is on, the TLS settings that are non-empty. */
  function ConnParams(p: UrlParts, unquote: string -> string): (r: map<string, Json>)
    ensures BaseKeys <= r.Keys
    ensures var ssl := p.scheme == "redisclusters";
      && r["ssl"] == Bool(ssl)
      && r["host"] == OptionalText(p.host) && r["port"] == OptionalInt(p.port)
      && r["password"] == OptionalText(p.password)
      && (forall k :: k in OtherParamKeys ==> (k in r <==> k in p.query))
      && (forall k :: k in OtherParamKeys && k in p.query ==> r[k] == Str(unquote(p.query[k])))
      && (forall k :: k in SslParamKeys ==> (k in r <==> ssl && k in p.query && p.query[k] != ""))
      && (forall k :: k in r ==> k in BaseKeys || k in OtherParamKeys || k in SslParamKeys)
  {
    var ssl := p.scheme == "redisclusters";
    var base := map["host" := OptionalText(p.host), "port" := OptionalInt(p.port),
                    "password" := OptionalText(p.password), "ssl" := Bool(ssl)];
    assert base.Keys == BaseKeys;
    assert forall k :: k in BaseKeys ==> k !in OtherParamKeys && k !in SslParamKeys;
    assert forall k :: k in OtherParamKeys ==> k !in SslParamKeys;
    var withOthers := CopyPresent(base, OtherParamKeys, p.query, unquote, false);
    if ssl then CopyPresent(withOthers, SslParamKeys, p.query, unquote, true) else withOthers
  }

  /** `_parse_params_from_url`: nothing for an empty URL, a refusal for a path naming another
      database, and the connection parameters otherwise. */
  function ParseParams(url: string, parse: string -> UrlParts, unquote: string -> string): (r: Result<map<string, Json>, Exception>)
    ensures url == "" ==> r == Ok(map[])
    ensures url != "" ==> (r.Err? <==> NamesOtherDb(parse(url).path))
    ensures r.Err? ==> r.error == ImproperlyConfigured(RedisNon0Db)
    ensures url != "" && r.Ok? ==> r.value == ConnParams(parse(url), unquote)
  {
    if url == "" then Ok(map[])
    else
      var p := parse(url);
      if NamesOtherDb(p.path) then Err(ImproperlyConfigured(RedisNon0Db))
      else Ok(ConnParams(p, unquote))
  }

  /** The path `/0`, or none, selects the default database and is accepted. */
  lemma DefaultDbAccepted(url: string, parse: string -> UrlParts, unquote: string -> string)
    requires url != "" && (parse(url).path == None || parse(url).path == Some("/0"))
    ensures ParseParams(url, parse, unquote).Ok?
  {
    if parse(url).path.Some? {
      assert "/0"[1..] == "0";
      assert StripSlashes("/0") == StripSlashes("0");
    }
  }

  /** The backend's configuration: its URL, its connection parameters, and whether it joins
      chords the new way. */
  datatype Backend = Backend(url: string, connParams: map<string, Json>, newJoin: bool)

  /** The constructor: the library must be present and the URL given; `new_join`, when present,
      is read as a boolean and taken out of the connection parameters. */
  function New(redisAvailable: bool, url: Option<string>, parse: string -> UrlParts, unquote: string -> string,
               strToBool: string -> Result<bool, Exception>): (r: Result<Backend, Exception>)
    ensures !redisAvailable ==> r == Err(ImproperlyConfigured(RedisMissing))
    ensures redisAvailable && !Truthy(url) ==> r == Err(ImproperlyConfigured(RedisUrlMissing))
    ensures redisAvailable && Truthy(url) && ParseParams(url.value, parse, unquote).Err? ==> r == Err(ParseParams(url.value, parse, unquote).error)
    ensures r.Ok? ==> Truthy(url) && r.value.url == url.value && "new_join" !in r.value.connParams
    ensures r.Ok? ==> r.value.connParams == ParseParams(url.value, parse, unquote).value - {"new_join"}
  {
    if !redisAvailable then Err(ImproperlyConfigured(RedisMissing))
    else if !Truthy(url) then Err(ImproperlyConfigured(RedisUrlMissing))
    else
      var params :- ParseParams(url.value, parse, unquote);
      if "new_join" in params && params["new_join"].Str? then
        var b :- strToBool(params["new_join"].s);
        Ok(Backend(url.value, params - {"new_join"}, b))
      else Ok(Backend(url.value, params - {"new_join"}, false))
  }

  /** A plain `rediscluster://` URL gets no TLS settings, even when its query carries them. */
  lemma NoTlsWithoutSecureScheme(url: string, parse: string -> UrlParts, unquote: string -> string, k: string)
    requires url != "" && parse(url).scheme != "redisclusters" && ParseParams(url, parse, unquote).Ok?
    requires k in SslParamKeys
    ensures k !in ParseParams(url, parse, unquote).value
    ensures ParseParams(url, parse, unquote).value["ssl"] == Bool(false)
  {
    var _ := ConnParams(parse(url), unquote);
  }

  /** `new_join` from the query is read as a boolean; without it chords join the old way. */
  lemma NewJoinFromQuery(url: string, parse: string -> UrlParts, unquote: string -> string,
                         strToBool: string -> Result<bool, Exception>)
    requires url != "" && !NamesOtherDb(parse(url).path)
    ensures var q := parse(url).query;
      && ("new_join" !in q ==> New(true, Some(url), parse, unquote, strToBool).Ok?
                                && !New(true, Some(url), parse, unquote, strToBool).value.newJoin)
      && ("new_join" in q && strToBool(unquote(q["new_join"])).Ok? ==>
            New(true, Some(url), parse, unquote, strToBool).Ok?
            && New(true, Some(url), parse, unquote, strToBool).value.newJoin == strToBool(unquote(q["new_join"])).value)
      && ("new_join" in q && strToBool(unquote(q["new_join"])).Err? ==>
            New(true, Some(url), parse, unquote, strToBool) == Err(strToBool(unquote(q["new_join"])).error))
  {
    var _ := ConnParams(parse(url), unquote);
    assert "new_join" in OtherParamKeys;
  }

  /** What a chord part's return does. */
  datatype ChordAction = Skip | Wait | Fire(total: int)

  /** `_new_chord_return`'s readiness test: a part without task or group id is skipped; the
      callback fires when the number of parts ready equals the chord's size plus the stored
      adjustment. */
  function ChordPartReturn(taskId: Option<string>, groupId: Option<string>, readyCount: int,
                           storedDiff: Option<int>, chordSize: int): (a: ChordAction)
    ensures a.Skip? <==> !Truthy(groupId) || !Truthy(taskId)
    ensures a.Fire? <==> Truthy(groupId) && Truthy(taskId) && readyCount == chordSize + storedDiff.GetOr(0)
    ensures a.Fire? ==> a.total == readyCount
  {
    if !Truthy(groupId) || !Truthy(taskId) then Skip
    else
      var total := chordSize + (if storedDiff.Some? then storedDiff.value else 0);
      if readyCount == total then Fire(total) else Wait
  }

  /** Parts of one group arriving one after another: the k-th part to arrive finds k + 1 results
      in the group's list, its own included. */
  function Arrivals(taskIds: seq<string>, groupId: string, storedDiff: Option<int>, chordSize: int): (r: seq<ChordAction>)
    ensures |r| == |taskIds|
  {
    seq(|taskIds|, k requires 0 <= k < |taskIds| => ChordPartReturn(Some(taskIds[k]), Some(groupId), k + 1, storedDiff, chordSize))
  }

  /** As parts come in one by one, the callback fires for the part that completes the chord and
      for no other; every other part waits. When the chord's size (with the stored adjustment)
      is between 1 and the number of parts, that part exists, so the callback fires exactly once. */
  lemma FiresOnce(taskIds: seq<string>, groupId: string, storedDiff: Option<int>, chordSize: int)
    requires groupId != ""
    requires forall k :: 0 <= k < |taskIds| ==> taskIds[k] != ""
    ensures var total := chordSize + storedDiff.GetOr(0);
      var parts := Arrivals(taskIds, groupId, storedDiff, chordSize);
      && (forall k :: 0 <= k < |parts| ==> (parts[k].Fire? <==> k == total - 1))
      && (forall k :: 0 <= k < |parts| && k != total - 1 ==> parts[k] == Wait)
      && (1 <= total <= |parts| ==> parts[total - 1] == Fire(total))
  {
  }
}
