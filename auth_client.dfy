/** The token client of src/auth/auth_client.rs: the client-credentials grant
    of section 4.4 of RFC 6749, seen from the client. The POST to the identity
    endpoint is an oracle, `reqClient`, that maps the request to the decoded
    JSON body or to the transport error. */
module AuthClientModel {
  import opened Results
  import opened Json
  import opened RustStd
  import opened Records

  const TOKEN_URL: string := "https://accounts.spotify.com/api/token"
  const FORM_CONTENT_TYPE: string := "application/x-www-form-urlencoded"

  /** Form parameters in the order they are encoded into the body. */
  type Form = seq<(string, string)>

  datatype TokenRequest = Post(url: string, contentType: string, form: Form)

  /** Sends the request and decodes the response body as JSON; an `Err` is a
      transport or decoding failure. */
  type TokenEndpoint = TokenRequest -> Result<Json>

  datatype AuthClient = AuthClient(reqClient: TokenEndpoint, clientId: string, clientSecret: string)

  /** `AuthClient::new`: the only way to fail is the HTTP client builder,
      whose outcome is `built`; the credentials are stored as given, empty or
      not. */
  function New(clientId: string, clientSecret: string, built: Result<TokenEndpoint>): (r: Result<AuthClient>)
    ensures r.Ok? <==> built.Ok?
    ensures r.Err? ==> r.error == built.error
    ensures r.Ok? ==> r.value.reqClient == built.value
    ensures r.Ok? ==> r.value.clientId == clientId && r.value.clientSecret == clientSecret
  {
    var reqClient :- built;
    Ok(AuthClient(reqClient, clientId, clientSecret))
  }

  /** The form parameters of the grant request: the grant type, then both
      credentials verbatim, in that order. */
  function FormParams(c: AuthClient): (form: Form)
    ensures |form| == 3
    ensures form[0] == ("grant_type", "client_credentials")
    ensures form[1] == ("client_id", c.clientId)
    ensures form[2] == ("client_secret", c.clientSecret)
  {
    [("grant_type", "client_credentials"), ("client_id", c.clientId), ("client_secret", c.clientSecret)]
  }

  /** The value a form reader finds for `key`: that of its first occurrence. */
  function FormLookup(form: Form, key: string): (r: Option<string>)
    ensures r.None? <==> forall i :: 0 <= i < |form| ==> form[i].0 != key
    ensures r.Some? ==> exists i :: (0 <= i < |form| && form[i] == (key, r.value)
      && forall j :: 0 <= j < i ==> form[j].0 != key)
  {
    if form == [] then None
    else if form[0].0 == key then Some(form[0].1)
    else
      var r := FormLookup(form[1..], key);
      assert forall i :: 1 <= i < |form| ==> form[i] == form[1..][i - 1];
      r
  }

  /** A reader of the form body finds the grant type and both credentials,
      each under its own name, and nothing under any other name. */
  lemma FormCarriesCredentials(c: AuthClient)
    ensures forall k :: FormLookup(FormParams(c), k).Some? ==> k == "grant_type" || k == "client_id" || k == "client_secret"
    ensures FormLookup(FormParams(c), "grant_type") == Some("client_credentials")
    ensures FormLookup(FormParams(c), "client_id") == Some(c.clientId)
    ensures FormLookup(FormParams(c), "client_secret") == Some(c.clientSecret)
  {
    var f := FormParams(c);
    assert f[1..][1..] == [("client_secret", c.clientSecret)];
  }

  /** `get_access_token`: one form-encoded POST to the token URL. */
  function GetAccessToken(c: AuthClient): Result<Json> {
    c.reqClient(Post(TOKEN_URL, FORM_CONTENT_TYPE, FormParams(c)))
  }

  /** The field extraction of `authenticate` on a successful response (the
      fields of section 5.1 of RFC 6749 that the client reads). */
  function AuthDataFromJson(response: Json): (r: Result<AuthData>)
    ensures r.Ok? <==>
      Index(response, "access_token").JStr? && Index(response, "token_type").JStr?
      && IsI64(Index(response, "expires_in"))
    ensures !Index(response, "access_token").JStr? ==> r == Err("Missing access_token")
    ensures Index(response, "access_token").JStr? && !Index(response, "token_type").JStr?
      ==> r == Err("Missing token_type")
    ensures Index(response, "access_token").JStr? && Index(response, "token_type").JStr?
      && !IsI64(Index(response, "expires_in"))
      ==> r == Err("Missing expires_in")
    ensures r.Ok? ==>
      && r.value.accessToken == Index(response, "access_token").s
      && r.value.tokenType == Index(response, "token_type").s
      && r.value.expiresIn == WrapU32(Index(response, "expires_in").i)
  {
    var accessToken :- match AsStr(Index(response, "access_token"))
      case Some(s) => Ok(s)
      case None => Err("Missing access_token");
    var tokenType :- match AsStr(Index(response, "token_type"))
      case Some(s) => Ok(s)
      case None => Err("Missing token_type");
    var expiresIn :- match AsI64(Index(response, "expires_in"))
      case Some(n) => Ok(n)
      case None => Err("Missing expires_in");
    Ok(AuthData(accessToken, tokenType, WrapU32(expiresIn)))
  }

  /** `authenticate`: the grant request followed by the field extraction; a
      transport failure is returned as it is. */
  function Authenticate(c: AuthClient): (r: Result<AuthData>)
    ensures GetAccessToken(c).Err? ==> r == Err(GetAccessToken(c).error)
    ensures GetAccessToken(c).Ok? ==> r == AuthDataFromJson(GetAccessToken(c).value)
  {
    var responseData :- GetAccessToken(c);
    AuthDataFromJson(responseData)
  }

  /** A response that carries the three fields yields exactly them, with an
      `expires_in` below 2^32 kept as it is. */
  lemma ValidResponseDecodes(accessToken: string, tokenType: string, expiresIn: int, rest: map<string, Json>)
    requires 0 <= expiresIn < U32_MODULUS
    ensures AuthDataFromJson(JObj(rest["access_token" := JStr(accessToken)]
      ["token_type" := JStr(tokenType)]["expires_in" := JInt(expiresIn)]))
      == Ok(AuthData(accessToken, tokenType, expiresIn))
  {
  }
}
