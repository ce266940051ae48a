/** Authentication by a preshared secret: the bearer token must be one of the configured
    secrets. */
module Preshared {
  import opened Common
  import opened Text
  import opened Headers

  /** The configured secret: one string, or a list of them. */
  datatype SecretConfig = OneSecret(secret: string) | SecretList(secrets: seq<string>)

  /** The driver's secret set. */
  function Secrets(c: SecretConfig): (r: set<string>)
    ensures c.OneSecret? ==> r == {c.secret}
    ensures c.SecretList? ==> forall s :: s in r <==> s in c.secrets
  {
    match c
    case OneSecret(s) => {s}
    case SecretList(ss) => set s | s in ss
  }

  /** `validate_request`: a missing or empty token, then a token outside the set, is refused. */
  function ValidateRequest(secrets: set<string>, auth: Option<string>): (r: Result<(), Exception>)
    ensures r.Ok? <==> Truthy(BearerToken(auth)) && BearerToken(auth).value in secrets
    ensures r == Err(NotAuthenticated("Missing bearer token")) <==> !Truthy(BearerToken(auth))
    ensures r == Err(NotAuthenticated("Invalid bearer token")) <==>
              Truthy(BearerToken(auth)) && BearerToken(auth).value !in secrets
  {
    var token := BearerToken(auth);
    if !Truthy(token) then Err(NotAuthenticated("Missing bearer token"))
    else if token.value !in secrets then Err(NotAuthenticated("Invalid bearer token"))
    else Ok(())
  }

  /** Every configured non-empty secret is accepted as a bearer token. */
  lemma ConfiguredSecretAccepted(c: SecretConfig, s: string, scheme: string)
    requires s in Secrets(c) && s != "" && Lower(scheme) == "bearer"
    ensures ValidateRequest(Secrets(c), Some(scheme + " " + s)) == Ok(())
  {
    BearerOfToken(scheme, s);
  }

  /** An empty secret is configured in vain: no header ever presents it. */
  lemma EmptySecretNeverAccepted(secrets: set<string>, auth: Option<string>)
    requires ValidateRequest(secrets, auth).Ok?
    ensures BearerToken(auth).value != "" && BearerToken(auth).value in secrets
  {
  }

  /** The secret `something`: a wrong token, a header of another shape and no header are refused. */
  lemma SomethingSecret(wrong: string, corrupted: string)
    requires wrong == "Bearer invalid" && corrupted == "not even the right format"
    ensures ValidateRequest(Secrets(OneSecret("something")), Some(wrong)) == Err(NotAuthenticated("Invalid bearer token"))
    ensures ValidateRequest(Secrets(OneSecret("something")), Some(corrupted)) == Err(NotAuthenticated("Missing bearer token"))
    ensures ValidateRequest(Secrets(OneSecret("something")), None) == Err(NotAuthenticated("Missing bearer token"))
  {
    assert wrong == "Bearer" + " " + "invalid";
    BearerOfToken("Bearer", "invalid");
    assert Lower(corrupted[..6]) != "bearer" by {
      assert Lower(corrupted[..6])[0] == 'n';
    }
  }
}
