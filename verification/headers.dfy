/** The bearer token of a request's `Authorization` header (section 2.1 of RFC 6750): the
    scheme before the first space, matched without regard to case (section 2.1 of RFC 7235),
    and the token after it. */
module Headers {
  import opened Common
  import opened Text

  /** `s.partition(sep)` for a one-character separator: the text before the first `sep`,
      whether there was one, and the text after it. */
  function Partition(s: string, sep: char): (r: (string, bool, string))
    ensures r.1 <==> sep in s
    ensures r.1 ==> s == r.0 + [sep] + r.2 && sep !in r.0
    ensures !r.1 ==> r.0 == s && r.2 == ""
  {
    var i := IndexOf(s, sep);
    if i == |s| then (s, false, "")
    else
      assert s == s[..i] + [sep] + s[i + 1..];
      (s[..i], true, s[i + 1..])
  }

  /** A header that starts with the scheme `bearer`, in any case, followed by nothing or by
      a space. */
  predicate StartsWithBearer(s: string) {
    |s| >= 6 && Lower(s[..6]) == "bearer" && (|s| == 6 || s[6] == ' ')
  }

  /** `get_bearer_token_from_header`: nothing for a missing or empty header or another scheme,
      else everything after the first space, later spaces included. */
  function BearerToken(auth: Option<string>): (r: Option<string>)
    ensures r.Some? <==> Truthy(auth) && StartsWithBearer(auth.value)
    ensures r.Some? && |auth.value| == 6 ==> r.value == ""
    ensures r.Some? && |auth.value| > 6 ==> r.value == auth.value[7..]
  {
    if !Truthy(auth) then None
    else
      var (scheme, _, token) := Partition(auth.value, ' ');
      SchemeIsBearer(auth.value);
      if Lower(scheme) != "bearer" then None else Some(token)
  }

  /** The scheme before the first space is `bearer` exactly when the header starts with it. */
  lemma SchemeIsBearer(s: string)
    ensures Lower(Partition(s, ' ').0) == "bearer" <==> StartsWithBearer(s)
    ensures StartsWithBearer(s) ==> |Partition(s, ' ').0| == 6
  {
    var i := IndexOf(s, ' ');
    if StartsWithBearer(s) {
      assert ' ' !in s[..6] by {
        forall k | 0 <= k < 6 ensures s[k] != ' ' {
          assert ToLower(s[k]) == "bearer"[k];
        }
      }
      if |s| > 6 {
        IndexOfPrefix(s[..6], ' ', s[6..]);
        assert s == s[..6] + s[6..];
      } else {
        assert s == s[..6];
      }
    }
    if Lower(Partition(s, ' ').0) == "bearer" {
      assert i == 6 && s[..6] == Partition(s, ' ').0;
    }
  }

  /** A header written as a bearer scheme, a space and a token yields that token. */
  lemma BearerOfToken(scheme: string, token: string)
    requires Lower(scheme) == "bearer"
    ensures BearerToken(Some(scheme + " " + token)) == Some(token)
  {
    var s := scheme + " " + token;
    assert s[..6] == scheme && s[6] == ' ' && s[7..] == token;
  }

  /** A header that is the bare scheme yields the empty token. */
  lemma BareScheme(scheme: string)
    requires Lower(scheme) == "bearer"
    ensures BearerToken(Some(scheme)) == Some("")
  {
    assert scheme[..6] == scheme;
  }
}
