/** The earlier revision of the token client, src/auth.rs, in which the grant
    request and the field extraction sit in one `authenticate`. It keeps its
    own client type; the credential record is the shared `AuthData`. */
module LegacyAuth {
  import opened Results
  import opened Json
  import opened RustStd
  import opened Records
  import AuthClientModel

  datatype AuthClient = AuthClient(reqClient: AuthClientModel.TokenEndpoint, clientId: string, clientSecret: string)

  /** `AuthClient::new`: stores the credentials as given. */
  function New(clientId: string, clientSecret: string, built: Result<AuthClientModel.TokenEndpoint>): (r: Result<AuthClient>)
    ensures r.Ok? <==> built.Ok?
    ensures r.Err? ==> r.error == built.error
    ensures r.Ok? ==> r.value.reqClient == built.value
    ensures r.Ok? ==> r.value.clientId == clientId && r.value.clientSecret == clientSecret
  {
    var reqClient :- built;
    Ok(AuthClient(reqClient, clientId, clientSecret))
  }

  /** The grant request of `authenticate`: the three form parameters posted
      to the token URL. */
  function GrantRequest(c: AuthClient): (req: AuthClientModel.TokenRequest)
    ensures req.url == AuthClientModel.TOKEN_URL && req.contentType == AuthClientModel.FORM_CONTENT_TYPE
    ensures req.form == AuthClientModel.FormParams(AuthClientModel.AuthClient(c.reqClient, c.clientId, c.clientSecret))
  {
    AuthClientModel.Post(AuthClientModel.TOKEN_URL, AuthClientModel.FORM_CONTENT_TYPE,
      [("grant_type", "client_credentials"), ("client_id", c.clientId), ("client_secret", c.clientSecret)])
  }

  /** `authenticate`: posts the grant request, then reads access_token,
      token_type and expires_in exactly as the later revision's extraction
      does, whose contract states the success condition, the order of the
      error messages and the copied fields. */
  function Authenticate(c: AuthClient): (r: Result<AuthData>)
    ensures c.reqClient(GrantRequest(c)).Err? ==> r == Err(c.reqClient(GrantRequest(c)).error)
    ensures c.reqClient(GrantRequest(c)).Ok? ==> r == AuthClientModel.AuthDataFromJson(c.reqClient(GrantRequest(c)).value)
  {
    var params := [("grant_type", "client_credentials"), ("client_id", c.clientId), ("client_secret", c.clientSecret)];
    var responseData :- c.reqClient(AuthClientModel.Post(AuthClientModel.TOKEN_URL, AuthClientModel.FORM_CONTENT_TYPE, params));
    var accessToken :- match AsStr(Index(responseData, "access_token"))
      case Some(s) => Ok(s)
      case None => Err("Missing access_token");
    var tokenType :- match AsStr(Index(responseData, "token_type"))
      case Some(s) => Ok(s)
      case None => Err("Missing token_type");
    var expiresIn :- match AsI64(Index(responseData, "expires_in"))
      case Some(n) => Ok(n)
      case None => Err("Missing expires_in");
    Ok(AuthData(accessToken, tokenType, WrapU32(expiresIn)))
  }

  /** The two revisions send the same request and decode the same response in
      the same way: for the same endpoint and credentials they agree on every
      outcome, success and error alike. */
  lemma AgreesWithAuthClient(reqClient: AuthClientModel.TokenEndpoint, clientId: string, clientSecret: string)
    ensures Authenticate(AuthClient(reqClient, clientId, clientSecret))
         == AuthClientModel.Authenticate(AuthClientModel.AuthClient(reqClient, clientId, clientSecret))
  {
  }
}
