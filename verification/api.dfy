/**
 * The request functions of `src/api.ts`. The network is an oracle `net`
 * that maps the request issued to what `fetch` delivers; what remains is the
 * decision logic: the error mapping of `handleResponse`, the missing-token
 * short-circuits, and the write-back of refreshed tokens.
 */
module Api {
  import opened Wrappers
  import opened Config
  import Decimal

  datatype Method = Get | Post

  /** The JSON body of a request. */
  datatype Payload = NoPayload | CredentialsPayload(credentials: Credentials) | RefreshPayload(refreshToken: string)

  /** A request as issued: method, path below the API base URL, `Authorization` header, body. */
  datatype Request = Request(verb: Method, path: string, authorization: Option<string>, payload: Payload)

  /**
   * What `response.json()` makes of a body: a syntax error with the engine's
   * message, or a JSON object decoded as `T` together with its `message` field.
   */
  datatype Body<T> = NotJson(syntaxError: string) | Json(decoded: T, message: Option<string>)

  datatype Response<T> = Response(ok: bool, status: nat, body: Body<T>)

  /** What `fetch` yields: a response, or a rejection of the transport. */
  datatype Delivery<T> = Delivered(response: Response<T>) | TransportFailure(reason: string)

  /**
   * A thrown error: an `ApiError` with its HTTP status, or any other rejection
   * (transport failure, JSON syntax error) with its message.
   */
  datatype ApiFailure = ApiError(status: nat, message: string) | Rejected(message: string)

  /** The request a call issued (if any) and what it resolved or rejected with. */
  datatype Call<T> = Call(sent: Option<Request>, result: Result<T, ApiFailure>)

  /** A call that reads or writes the credential store. */
  datatype Session<T> = Session(call: Call<T>, store: Store)

  const HttpErrorPrefix: string := "HTTP error! status: "
  const NoRefreshTokenMessage: string := "No refresh token available"
  const NoAccessTokenMessage: string := "No access token available"
  const Unauthorized: nat := 401
  const SignInPath: string := "/auth/signin"
  const SignUpPath: string := "/auth/signup"
  const RefreshPath: string := "/auth/refresh"
  const UserPath: string := "/users/me"
  const BearerPrefix: string := "Bearer "

  /** JavaScript truthiness of a `message` field read as a string. */
  predicate Truthy(m: Option<string>) {
    m.Some? && m.value != ""
  }

  /** Whether the body parsed and carries a truthy `message`. */
  predicate HasServerMessage<T>(resp: Response<T>) {
    resp.body.Json? && Truthy(resp.body.message)
  }

  /**
   * The message of the `ApiError` thrown for a non-ok response: the body's
   * `message` when present and truthy, otherwise a fallback from which the
   * status can be read back.
   */
  function ErrorMessage<T>(resp: Response<T>): (m: string)
    ensures m != ""
    ensures HasServerMessage(resp) ==> m == resp.body.message.value
    ensures !HasServerMessage(resp) ==>
      && |m| > |HttpErrorPrefix| && m[..|HttpErrorPrefix|] == HttpErrorPrefix
      && Decimal.AllDigits(m[|HttpErrorPrefix|..])
      && Decimal.ValueOf(m[|HttpErrorPrefix|..]) == resp.status
      && (m[|HttpErrorPrefix|] == '0' ==> |m| == |HttpErrorPrefix| + 1)
      && m[|HttpErrorPrefix|..] == Decimal.Digits(resp.status)
  {
    var fallback := HttpErrorPrefix + Decimal.Digits(resp.status);
    assert fallback[|HttpErrorPrefix|..] == Decimal.Digits(resp.status);
    Decimal.ValueOfDigits(resp.status);
    if HasServerMessage(resp) then resp.body.message.value else fallback
  }

  /**
   * `handleResponse`: an ok response resolves with its decoded body (or
   * rejects if the body is not JSON); any other response rejects with an
   * `ApiError` carrying exactly its status.
   */
  function HandleResponse<T>(resp: Response<T>): (r: Result<T, ApiFailure>)
    ensures r.Success? <==> resp.ok && resp.body.Json?
    ensures r.Success? ==> r.value == resp.body.decoded
    ensures r.Failure? && r.error.ApiError? <==> !resp.ok
    ensures !resp.ok ==> r.error.status == resp.status && r.error.message == ErrorMessage(resp)
    ensures resp.ok && resp.body.NotJson? ==> r.error == Rejected(resp.body.syntaxError)
  {
    if !resp.ok then
      Failure(ApiError(resp.status, ErrorMessage(resp)))
    else match resp.body
      case Json(v, _) => Success(v)
      case NotJson(e) => Failure(Rejected(e))
  }

  /** `await fetch(...)` followed by `handleResponse`. */
  function Await<T>(d: Delivery<T>): Result<T, ApiFailure> {
    match d
    case TransportFailure(reason) => Failure(Rejected(reason))
    case Delivered(resp) => HandleResponse(resp)
  }

  /** The delivery resolves `handleResponse`: an ok response with a JSON body. */
  predicate Answered<T>(d: Delivery<T>) {
    d.Delivered? && d.response.ok && d.response.body.Json?
  }

  function CredentialsRequest(path: string, c: Credentials): Request {
    Request(Post, path, None, CredentialsPayload(c))
  }

  /** `api.signIn`: one POST of the credentials to the sign-in endpoint. */
  function SignIn(c: Credentials, net: Request -> Delivery<AuthTokens>): (call: Call<AuthTokens>)
    ensures call.sent == Some(CredentialsRequest(SignInPath, c))
    ensures call.result == Await(net(call.sent.value))
    ensures call.result.Success? <==> Answered(net(call.sent.value))
    ensures call.result.Success? ==> call.result.value == net(call.sent.value).response.body.decoded
  {
    var req := CredentialsRequest(SignInPath, c);
    Call(Some(req), Await(net(req)))
  }

  /** `api.signUp`: one POST of the credentials to the sign-up endpoint. */
  function SignUp(c: Credentials, net: Request -> Delivery<AuthTokens>): (call: Call<AuthTokens>)
    ensures call.sent == Some(CredentialsRequest(SignUpPath, c))
    ensures call.result == Await(net(call.sent.value))
    ensures call.result.Success? <==> Answered(net(call.sent.value))
    ensures call.result.Success? ==> call.result.value == net(call.sent.value).response.body.decoded
  {
    var req := CredentialsRequest(SignUpPath, c);
    Call(Some(req), Await(net(req)))
  }

  /**
   * `api.refreshToken`: without a refresh token it rejects with 401 and sends
   * nothing; otherwise it posts the token, and only a successful reply is
   * written back into the store.
   */
  function RefreshToken(s: Store, net: Request -> Delivery<AuthTokens>): (r: Session<AuthTokens>)
    ensures var g := GetRefreshToken(s);
      && (g.value == "" ==> r == Session(Call(None, Failure(ApiError(Unauthorized, NoRefreshTokenMessage))), g.store))
      && (g.value != "" ==> r.call.sent == Some(Request(Post, RefreshPath, None, RefreshPayload(g.value))))
      && (r.call.result.Success? ==> r.store == SetTokens(g.store, r.call.result.value))
      && (r.call.result.Failure? ==> r.store == g.store)
    ensures r.call.sent.Some? ==> r.call.result == Await(net(r.call.sent.value))
    ensures GetRefreshToken(s).value != "" ==>
      && (r.call.result.Success? <==> Answered(net(r.call.sent.value)))
      && (r.call.result.Success? ==> r.call.result.value == net(r.call.sent.value).response.body.decoded)
    ensures r.call.result.Failure? ==>
      && r.store.storage == s.storage
      && GetAccessToken(r.store).value == GetAccessToken(s).value
      && GetRefreshToken(r.store).value == GetRefreshToken(s).value
    ensures r.call.result.Success? ==>
      && GetAccessToken(r.store).value == r.call.result.value.accessToken
      && GetRefreshToken(r.store).value == r.call.result.value.refreshToken
  {
    var g := GetRefreshToken(s);
    if g.value == "" then
      Session(Call(None, Failure(ApiError(Unauthorized, NoRefreshTokenMessage))), g.store)
    else
      var req := Request(Post, RefreshPath, None, RefreshPayload(g.value));
      match Await(net(req))
      case Success(tokens) => Session(Call(Some(req), Success(tokens)), SetTokens(g.store, tokens))
      case Failure(e) => Session(Call(Some(req), Failure(e)), g.store)
  }

  /**
   * `api.getUserDetails`: without an access token it rejects with 401 and
   * sends nothing; otherwise it sends a GET bearing that token. It never
   * writes tokens.
   */
  function GetUserDetails(s: Store, net: Request -> Delivery<UserDetails>): (r: Session<UserDetails>)
    ensures var g := GetAccessToken(s);
      && r.store == g.store
      && (g.value == "" ==> r.call == Call(None, Failure(ApiError(Unauthorized, NoAccessTokenMessage))))
      && (g.value != "" ==> r.call.sent == Some(Request(Get, UserPath, Some(BearerPrefix + g.value), NoPayload)))
    ensures r.store.storage == s.storage
    ensures r.call.sent.Some? <==> IsAuthenticated(s).value
    ensures r.call.sent.Some? ==> r.call.result == Await(net(r.call.sent.value))
    ensures GetAccessToken(s).value != "" ==>
      && (r.call.result.Success? <==> Answered(net(r.call.sent.value)))
      && (r.call.result.Success? ==> r.call.result.value == net(r.call.sent.value).response.body.decoded)
  {
    var g := GetAccessToken(s);
    if g.value == "" then
      Session(Call(None, Failure(ApiError(Unauthorized, NoAccessTokenMessage))), g.store)
    else
      var req := Request(Get, UserPath, Some(BearerPrefix + g.value), NoPayload);
      Session(Call(Some(req), Await(net(req))), g.store)
  }

  /** Every `ApiError` this module throws has a non-empty message. */
  lemma ApiErrorsHaveMessages<T>(resp: Response<T>, s: Store, an: Request -> Delivery<AuthTokens>, un: Request -> Delivery<UserDetails>)
    ensures var r := HandleResponse(resp); r.Failure? && r.error.ApiError? ==> r.error.message != ""
    ensures var r := RefreshToken(s, an).call.result; r.Failure? && r.error.ApiError? ==> r.error.message != ""
    ensures var r := GetUserDetails(s, un).call.result; r.Failure? && r.error.ApiError? ==> r.error.message != ""
  {
  }
}
