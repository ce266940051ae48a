/** The integration tests' request matcher: an observed request, its header names lower-cased,
    is equal to an expected request that may leave out the headers, the body or both. Decoding
    the observed body as JSON is a parameter. */
module TestUtil {
  import opened Common
  import opened Text
  import opened Json

  /** A request the test expects: headers and bodies may be left out, and the JSON body is a
      dict. */
  datatype ExpectedRequest = ExpectedRequest(path: string, httpMethod: string, headers: Option<seq<(string, string)>>,
                                             body: Option<bytes>, jsonBody: Option<seq<(string, Json)>>)

  /** What an observed request is compared with: an expected request or any other object. */
  datatype Comparand = Expected(e: ExpectedRequest) | OtherObject

  /** A request the test server saw, its header names lower-cased. */
  datatype ObservedRequest = ObservedRequest(path: string, httpMethod: string, headers: map<string, string>, body: bytes)

  /** The header dict with lower-cased names: when two names agree once lower-cased, the later
      header wins. */
  function LowerNames(hs: seq<(string, string)>): (r: map<string, string>)
    ensures forall k :: k in r <==> exists i :: 0 <= i < |hs| && Lower(hs[i].0) == k
    ensures forall i :: 0 <= i < |hs| && (forall j :: i < j < |hs| ==> Lower(hs[j].0) != Lower(hs[i].0)) ==>
              r[Lower(hs[i].0)] == hs[i].1
    decreases |hs|
  {
    if |hs| == 0 then map[]
    else
      var init := hs[..|hs| - 1];
      var last := hs[|hs| - 1];
      var before := LowerNames(init);
      var r := before[Lower(last.0) := last.1];
      assert forall i :: 0 <= i < |init| ==> init[i] == hs[i];
      assert forall k :: k in r <==> exists i :: 0 <= i < |hs| && Lower(hs[i].0) == k by {
        forall k ensures k in r <==> exists i :: 0 <= i < |hs| && Lower(hs[i].0) == k {
          if k in r && k != Lower(last.0) {
            var i :| 0 <= i < |init| && Lower(init[i].0) == k;
            assert Lower(hs[i].0) == k;
          }
          if k == Lower(last.0) {
            assert Lower(hs[|hs| - 1].0) == k;
          }
        }
      }
      r
  }

  /** `ObservedRequest.__init__`. */
  function Observe(path: string, httpMethod: string, headers: seq<(string, string)>, body: bytes): (o: ObservedRequest)
    ensures o.path == path && o.httpMethod == httpMethod && o.body == body
    ensures forall k :: k in o.headers ==> Lower(k) == k
  {
    var r := LowerNames(headers);
    assert forall k :: k in r ==> Lower(k) == k by {
      forall k | k in r ensures Lower(k) == k {
        var i :| 0 <= i < |headers| && Lower(headers[i].0) == k;
        LowerIdempotent(headers[i].0);
      }
    }
    ObservedRequest(path, httpMethod, r, body)
  }

  /** Every expected header is present, under its lower-cased name, with the expected value. */
  function HeadersMatch(observed: map<string, string>, expected: seq<(string, string)>): (b: bool)
    ensures b <==> forall i :: 0 <= i < |expected| ==>
                     Lower(expected[i].0) in observed && observed[Lower(expected[i].0)] == expected[i].1
    decreases |expected|
  {
    if |expected| == 0 then true
    else
      var k := Lower(expected[0].0);
      if k !in observed || observed[k] != expected[0].1 then false
      else
        var rest := HeadersMatch(observed, expected[1..]);
        assert forall i :: 1 <= i < |expected| ==> expected[i] == expected[1..][i - 1];
        rest
  }

  /** Python's `==` between a decoded body and a dict, which ignores the order of keys. */
  predicate SameValue(a: Json, b: Json) {
    Canon(a) == Canon(b)
  }

  /** `ObservedRequest.__eq__`: the checks in order, returning at the first mismatch; decoding
      the body can raise. */
  function Equals(o: ObservedRequest, other: Comparand, loads: bytes -> Result<Json, Exception>): (r: Result<bool, Exception>)
    ensures other.OtherObject? ==> r == Ok(false)
    ensures other.Expected? && o.path != other.e.path ==> r == Ok(false)
    ensures other.Expected? && Lower(o.httpMethod) != Lower(other.e.httpMethod) ==> r == Ok(false)
    ensures r.Err? ==> other.Expected? && other.e.jsonBody.Some? && |other.e.jsonBody.value| > 0
                       && loads(o.body).Err? && r.error == loads(o.body).error
  {
    match other
    case OtherObject => Ok(false)
    case Expected(e) =>
      if o.path != e.path then Ok(false)
      else if Lower(o.httpMethod) != Lower(e.httpMethod) then Ok(false)
      else if e.headers.Some? && |e.headers.value| > 0 && !HeadersMatch(o.headers, e.headers.value) then Ok(false)
      else if e.jsonBody.Some? && |e.jsonBody.value| > 0 then
        var loaded :- loads(o.body);
        Ok(SameValue(loaded, Object(e.jsonBody.value)))
      else if e.body.Some? && |e.body.value| > 0 then Ok(o.body == e.body.value)
      else Ok(true)
  }

  /** What the expected request asks of the body: a non-empty JSON dict takes precedence over
      raw bytes; with neither, any body will do. */
  predicate BodyAgrees(o: ObservedRequest, e: ExpectedRequest, loaded: Result<Json, Exception>) {
    if e.jsonBody.Some? && |e.jsonBody.value| > 0 then loaded.Ok? && SameValue(loaded.value, Object(e.jsonBody.value))
    else if e.body.Some? && |e.body.value| > 0 then o.body == e.body.value
    else true
  }

  /** The matcher as one condition: an expected request is equal to the observed one exactly when
      the paths agree, the methods agree ignoring case, every expected header is present with its
      value, and the body agrees. */
  lemma EqualsIffAgree(o: ObservedRequest, e: ExpectedRequest, loads: bytes -> Result<Json, Exception>)
    ensures Equals(o, Expected(e), loads) == Ok(true) <==>
      && o.path == e.path
      && Lower(o.httpMethod) == Lower(e.httpMethod)
      && (e.headers.Some? ==> forall i :: 0 <= i < |e.headers.value| ==>
            Lower(e.headers.value[i].0) in o.headers && o.headers[Lower(e.headers.value[i].0)] == e.headers.value[i].1)
      && BodyAgrees(o, e, loads(o.body))
  {
  }

  /** Headers the expectation does not name make no difference. */
  lemma ExtraHeadersIgnored(o: ObservedRequest, e: ExpectedRequest, loads: bytes -> Result<Json, Exception>,
                            name: string, value: string)
    requires e.headers.Some? ==> forall i :: 0 <= i < |e.headers.value| ==> Lower(e.headers.value[i].0) != name
    ensures Equals(o.(headers := o.headers[name := value]), Expected(e), loads) == Equals(o, Expected(e), loads)
  {
    if e.headers.Some? {
      var hs := e.headers.value;
      assert HeadersMatch(o.headers[name := value], hs) == HeadersMatch(o.headers, hs);
    }
  }

  /** Without an expected body, any observed body matches. */
  lemma AnyBodyWithoutExpectation(o: ObservedRequest, e: ExpectedRequest, loads: bytes -> Result<Json, Exception>,
                                  body: bytes)
    requires e.body.None? && e.jsonBody.None?
    ensures Equals(o.(body := body), Expected(e), loads) == Equals(o, Expected(e), loads)
  {
  }

  /** A non-empty expected JSON body decides alone: the expected raw body is not consulted. */
  lemma JsonBodyTakesPrecedence(o: ObservedRequest, e: ExpectedRequest, loads: bytes -> Result<Json, Exception>,
                                raw: Option<bytes>)
    requires e.jsonBody.Some? && |e.jsonBody.value| > 0
    ensures Equals(o, Expected(e.(body := raw)), loads) == Equals(o, Expected(e), loads)
  {
  }

  /** The method is compared ignoring case, and a header is found whatever the case of its name
      on the wire. */
  lemma CaseInsensitiveNames(path: string, m1: string, m2: string, name: string, value: string, body: bytes,
                             loads: bytes -> Result<Json, Exception>)
    requires Lower(m1) == Lower(m2)
    ensures Equals(Observe(path, m1, [(name, value)], body),
                   Expected(ExpectedRequest(path, m2, Some([(Lower(name), value)]), None, None)), loads) == Ok(true)
  {
    LowerIdempotent(name);
    var o := Observe(path, m1, [(name, value)], body);
    assert Lower([(name, value)][0].0) == Lower(name);
    assert o.headers[Lower(name)] == value;
  }
}
