/**
 * The view controller of `src/main.ts` as a state machine over the form
 * mode, the loading flag, the rendered view and the credential store.
 *
 * A submit is split at its `await`: `Submit` runs the guards and issues the
 * request, `Reply` runs the continuation once the network answers. Between
 * the two, other events (a mode switch, a pending timer) may run, exactly as
 * the single-threaded event loop allows. The one-second delayed switch to the
 * success screen is a counted pending timer; banner auto-hide timers are not
 * modelled.
 */
module App {
  import opened Wrappers
  import opened JsText
  import opened Config
  import opened Validation
  import opened Api

  datatype Mode = SignIn | SignUp

  /** What the success screen shows once the user fetch has settled. */
  datatype Panel = Details(user: UserDetails) | FetchFailed

  /** The auth form with its error and success banners, or the success screen. */
  datatype View = AuthForm(error: Option<string>, success: Option<string>) | Welcome(panel: Panel)

  /**
   * The controller state: `inFlight` is the sign-in/sign-up request whose
   * reply is awaited, `welcomeTimers` the number of scheduled, not yet fired
   * calls to `renderSuccessScreen`.
   */
  datatype Controller = Controller(mode: Mode, isLoading: bool, view: View, store: Store,
                     inFlight: Option<Request>, welcomeTimers: nat)

  /** The state after an event and the request it issued, if any. */
  datatype Transition = Transition(app: Controller, sent: Option<Request>)

  datatype Event =
    | Submitted(emailInput: string, passwordInput: string)
    | Replied
    | ModeSwitched
    | SignedOut
    | WelcomeTimerFired

  const FillInMessage: string := "Please fill in all fields"
  const InvalidEmailMessage: string := "Please enter a valid email address"
  const WeakPasswordMessage: string := "Password must be at least 8 characters with uppercase, lowercase, and number"

  /** A freshly rendered auth form: both banners empty. */
  const BlankForm: View := AuthForm(None, None)

  function SuccessText(m: Mode): string {
    if m == SignIn then "Successfully signed in!" else "Successfully signed up!"
  }

  function FailureText(m: Mode): string {
    if m == SignIn then "Sign in failed" else "Sign up failed"
  }

  function Toggle(m: Mode): Mode {
    if m == SignIn then SignUp else SignIn
  }

  function AuthRequest(m: Mode, c: Credentials): Request {
    CredentialsRequest(if m == SignIn then SignInPath else SignUpPath, c)
  }

  predicate IsAuthRequest(req: Request) {
    req.verb == Post && (req.path == SignInPath || req.path == SignUpPath) && req.payload.CredentialsPayload?
  }

  /**
   * The validation chain of `handleSubmit`: the email is trimmed, the
   * password is not; an empty field, then the email, then the password is
   * checked, and the first failing guard decides the message.
   */
  function CheckForm(emailInput: string, password: string): (r: Result<Credentials, string>)
    ensures r.Success? <==> WellFormedEmail(Trim(emailInput)) && StrongPassword(password)
    ensures r.Success? ==> r.value == Credentials(Trim(emailInput), password)
    ensures Trim(emailInput) == "" || password == "" ==> r == Failure(FillInMessage)
    ensures Trim(emailInput) != "" && password != "" && !WellFormedEmail(Trim(emailInput)) ==>
      r == Failure(InvalidEmailMessage)
    ensures Trim(emailInput) != "" && password != "" && WellFormedEmail(Trim(emailInput)) && !StrongPassword(password) ==>
      r == Failure(WeakPasswordMessage)
  {
    var email := Trim(emailInput);
    ValidateEmailCharacterisation(email);
    ValidatePasswordCharacterisation(password);
    assert WellFormedEmail(email) ==> email != "";
    if email == "" || password == "" then Failure(FillInMessage)
    else if !ValidateEmail(email) then Failure(InvalidEmailMessage)
    else if !ValidatePassword(password) then Failure(WeakPasswordMessage)
    else Success(Credentials(email, password))
  }

  /**
   * `handleSubmit` up to its `await`: ignored while loading (or when no form
   * is on screen); a failing guard shows its message and sends nothing; valid
   * input sets the loading flag and sends the request of the current mode.
   */
  function Submit(app: Controller, emailInput: string, passwordInput: string): (r: Transition)
    ensures app.isLoading || !app.view.AuthForm? ==> r == Transition(app, None)
    ensures r.sent.Some? ==>
      && r.sent.value == AuthRequest(app.mode, Credentials(Trim(emailInput), passwordInput))
      && IsAuthRequest(r.sent.value)
      && r.app == app.(isLoading := true, inFlight := r.sent)
    ensures r.sent.None? ==> r.app.isLoading == app.isLoading && r.app.inFlight == app.inFlight
    ensures r.app.store == app.store && r.app.mode == app.mode && r.app.welcomeTimers == app.welcomeTimers
  {
    if app.isLoading || !app.view.AuthForm? then Transition(app, None)
    else match CheckForm(emailInput, passwordInput)
      case Failure(msg) => Transition(app.(view := app.view.(error := Some(msg))), None)
      case Success(c) =>
        var req := AuthRequest(app.mode, c);
        Transition(app.(isLoading := true, inFlight := Some(req)), Some(req))
  }

  /** The banner text for a rejected submit: the error's message, or a per-mode fallback. */
  function ShownError(e: ApiFailure, m: Mode): (text: string)
    ensures text != ""
    ensures e.message != "" ==> text == e.message
    ensures e.message == "" ==> text == FailureText(m)
  {
    if e.message != "" then e.message else FailureText(m)
  }

  /**
   * `handleSubmit` after its `await`: on success the returned tokens are
   * stored, the success banner (worded by the mode at this moment) is shown
   * and the delayed success screen is scheduled; on failure nothing is stored
   * and the error banner is shown. Either way the loading flag ends false.
   * Banners only appear while the auth form is on screen.
   */
  function Reply(app: Controller, net: Request -> Delivery<AuthTokens>): (r: Transition)
    ensures r.sent.None? && !r.app.isLoading && r.app.inFlight.None?
    ensures app.inFlight.None? ==> r.app == app.(isLoading := false)
    ensures app.inFlight.Some? && Await(net(app.inFlight.value)).Success? ==>
      var t := Await(net(app.inFlight.value)).value;
      && GetAccessToken(r.app.store).value == t.accessToken
      && GetRefreshToken(r.app.store).value == t.refreshToken
      && r.app.store == SetTokens(app.store, t)
      && r.app.welcomeTimers == app.welcomeTimers + 1
      && (app.view.AuthForm? ==> r.app.view == app.view.(success := Some(SuccessText(app.mode))))
    ensures app.inFlight.Some? && Await(net(app.inFlight.value)).Failure? ==>
      var e := Await(net(app.inFlight.value)).error;
      && r.app.store == app.store
      && r.app.welcomeTimers == app.welcomeTimers
      && (app.view.AuthForm? ==> r.app.view == app.view.(error := Some(ShownError(e, app.mode))))
    ensures !app.view.AuthForm? ==> r.app.view == app.view
    ensures r.app.mode == app.mode
  {
    match app.inFlight
    case None => Transition(app.(isLoading := false), None)
    case Some(req) =>
      var done := app.(isLoading := false, inFlight := None);
      match Await(net(req))
      case Success(t) =>
        var view := if app.view.AuthForm? then app.view.(success := Some(SuccessText(app.mode))) else app.view;
        Transition(done.(store := SetTokens(app.store, t), view := view, welcomeTimers := app.welcomeTimers + 1), None)
      case Failure(e) =>
        var view := if app.view.AuthForm? then app.view.(error := Some(ShownError(e, app.mode))) else app.view;
        Transition(done.(view := view), None)
  }

  /**
   * `renderSuccessScreen`: fetches the user and shows the details, or the
   * error panel when the fetch rejects (including when no access token is
   * held, in which case nothing is sent).
   */
  function RenderSuccessScreen(app: Controller, net: Request -> Delivery<UserDetails>): (r: Transition)
    ensures r.app.view.Welcome?
    ensures r.app.view.panel.Details? <==> GetUserDetails(app.store, net).call.result.Success?
    ensures r.app.view.panel.Details? ==> r.app.view.panel.user == GetUserDetails(app.store, net).call.result.value
    ensures r.sent == GetUserDetails(app.store, net).call.sent
    ensures r.sent.Some? <==> IsAuthenticated(app.store).value
    ensures r.app.store.storage == app.store.storage
    ensures Coherent(app.store) ==> Coherent(r.app.store)
    ensures r.app.mode == app.mode && r.app.isLoading == app.isLoading && r.app.inFlight == app.inFlight
    ensures r.app.welcomeTimers == app.welcomeTimers
  {
    var s := GetUserDetails(app.store, net);
    var panel := match s.call.result
      case Success(u) => Details(u)
      case Failure(_) => FetchFailed;
    Transition(app.(view := Welcome(panel), store := s.store), s.call.sent)
  }

  /** A scheduled delayed call to `renderSuccessScreen` fires; without one pending nothing happens. */
  function WelcomeTimer(app: Controller, net: Request -> Delivery<UserDetails>): (r: Transition)
    ensures app.welcomeTimers == 0 ==> r == Transition(app, None)
    ensures app.welcomeTimers > 0 ==> r.app.view.Welcome? && r.app.welcomeTimers == app.welcomeTimers - 1
    ensures app.welcomeTimers > 0 ==> r == RenderSuccessScreen(app.(welcomeTimers := app.welcomeTimers - 1), net)
  {
    if app.welcomeTimers == 0 then Transition(app, None)
    else RenderSuccessScreen(app.(welcomeTimers := app.welcomeTimers - 1), net)
  }

  /** The switch button: flips the mode and re-renders a blank form; it exists only on the form. */
  function SwitchMode(app: Controller): (r: Transition)
    ensures r.sent.None?
    ensures app.view.AuthForm? ==> r.app.mode != app.mode && r.app.view == BlankForm
    ensures app.view.AuthForm? ==> r.app == app.(mode := r.app.mode, view := BlankForm)
    ensures !app.view.AuthForm? ==> r.app == app
  {
    if app.view.AuthForm? then Transition(app.(mode := Toggle(app.mode), view := BlankForm), None)
    else Transition(app, None)
  }

  /** The sign-out button: clears the tokens and returns to a blank sign-in form; it exists only on the success screen. */
  function SignOut(app: Controller): (r: Transition)
    ensures r.sent.None?
    ensures app.view.Welcome? ==>
      && r.app.mode == SignIn && r.app.view == BlankForm
      && !IsAuthenticated(r.app.store).value
      && r.app.store == ClearTokens(app.store)
      && r.app.isLoading == app.isLoading
    ensures app.view.Welcome? ==> r.app == app.(store := ClearTokens(app.store), mode := SignIn, view := BlankForm)
    ensures !app.view.Welcome? ==> r.app == app
  {
    if app.view.Welcome? then Transition(app.(store := ClearTokens(app.store), mode := SignIn, view := BlankForm), None)
    else Transition(app, None)
  }

  /**
   * Page load: the success screen when `isAuthenticated()` holds for the
   * persisted storage, otherwise a blank sign-in form.
   */
  function Start(storage: map<string, string>, net: Request -> Delivery<UserDetails>): (r: Transition)
    ensures r.app.view.Welcome? <==> AccessKey in storage && storage[AccessKey] != ""
    ensures r.app.mode == SignIn && !r.app.isLoading && r.app.store.storage == storage
    ensures !r.app.view.Welcome? ==> r == Transition(Controller(SignIn, false, BlankForm, Loaded(storage), None, 0), None)
    ensures r.app.view.Welcome? ==>
      var u := GetUserDetails(Loaded(storage), net);
      && r.sent == u.call.sent
      && (r.app.view.panel.Details? <==> u.call.result.Success?)
      && (r.app.view.panel.Details? ==> r.app.view.panel.user == u.call.result.value)
      && r.app.welcomeTimers == 0 && r.app.inFlight.None?
    ensures Consistent(r.app)
  {
    var a := IsAuthenticated(Loaded(storage));
    var app := Controller(SignIn, false, BlankForm, a.store, None, 0);
    if a.value then RenderSuccessScreen(app, net) else Transition(app, None)
  }

  /** One event of the page's event loop. */
  function Step(app: Controller, ev: Event, authNet: Request -> Delivery<AuthTokens>,
                userNet: Request -> Delivery<UserDetails>): Transition
  {
    match ev
    case Submitted(e, p) => Submit(app, e, p)
    case Replied => Reply(app, authNet)
    case ModeSwitched => SwitchMode(app)
    case SignedOut => SignOut(app)
    case WelcomeTimerFired => WelcomeTimer(app, userNet)
  }

  /**
   * The loading flag is set exactly while a sign-in or sign-up request is
   * awaited, and the token memory agrees with storage.
   */
  predicate Consistent(app: Controller) {
    && (app.isLoading <==> app.inFlight.Some?)
    && (app.inFlight.Some? ==> IsAuthRequest(app.inFlight.value))
    && Coherent(app.store)
  }

  /** Every event keeps the controller consistent. */
  lemma StepKeepsConsistent(app: Controller, ev: Event, authNet: Request -> Delivery<AuthTokens>,
                            userNet: Request -> Delivery<UserDetails>)
    requires Consistent(app)
    ensures Consistent(Step(app, ev, authNet, userNet).app)
  {
  }

  /** A sign-in or sign-up request is only ever sent when none is awaited: at most one is in flight. */
  lemma OneAuthRequestAtATime(app: Controller, ev: Event, authNet: Request -> Delivery<AuthTokens>,
                              userNet: Request -> Delivery<UserDetails>)
    requires Consistent(app)
    ensures var r := Step(app, ev, authNet, userNet);
      r.sent.Some? && IsAuthRequest(r.sent.value) ==> !app.isLoading && r.app.inFlight == r.sent
  {
  }

  /**
   * On the idle form, a submit sends a request exactly when the guards pass,
   * and otherwise shows the message of the first failing guard.
   */
  lemma SubmitFollowsGuards(app: Controller, emailInput: string, passwordInput: string)
    requires !app.isLoading && app.view.AuthForm?
    ensures var r := Submit(app, emailInput, passwordInput);
      && (r.sent.Some? <==> CheckForm(emailInput, passwordInput).Success?)
      && (r.sent.None? ==> r.app == app.(view := app.view.(error := Some(CheckForm(emailInput, passwordInput).error))))
  {
  }

  /** Whitespace around the email input never changes the outcome of the guards; the password is taken verbatim. */
  lemma EmailIsTrimmed(pre: string, email: string, post: string, password: string)
    requires AllSpace(pre) && AllSpace(post)
    ensures CheckForm(pre + email + post, password) == CheckForm(email, password)
  {
    TrimIgnoresPadding(pre, email, post);
  }

  /**
   * Input failing either validator is rejected before any request, in
   * sign-in mode as much as in sign-up mode.
   */
  lemma InvalidInputSendsNothing(app: Controller, emailInput: string, passwordInput: string)
    requires !WellFormedEmail(Trim(emailInput)) || !StrongPassword(passwordInput)
    ensures Submit(app, emailInput, passwordInput).sent.None?
    ensures Submit(app.(mode := Toggle(app.mode)), emailInput, passwordInput).sent.None?
    ensures Submit(app, emailInput, passwordInput).app.store == app.store
  {
  }

  /**
   * The request a submit leaves in flight, and what `Reply` makes of the
   * network's answer, are those of `api.signIn` or `api.signUp` for the mode.
   */
  lemma AuthRequestIsApiCall(m: Mode, c: Credentials, net: Request -> Delivery<AuthTokens>)
    ensures var call := if m == SignIn then Api.SignIn(c, net) else Api.SignUp(c, net);
      && call.sent == Some(AuthRequest(m, c))
      && call.result == Await(net(AuthRequest(m, c)))
  {
  }

  /** Two clicks of the switch button restore the form as it was freshly rendered. */
  lemma SwitchModeTwice(app: Controller)
    requires app.view.AuthForm?
    ensures SwitchMode(SwitchMode(app).app).app == app.(view := BlankForm)
  {
  }

  /**
   * The success banner reads the mode when the reply arrives, not when the
   * request left: a sign-in request followed by a switch to sign-up before
   * the reply reports "Successfully signed up!".
   */
  lemma BannerFollowsCurrentMode(app: Controller, net: Request -> Delivery<AuthTokens>)
    requires Consistent(app) && app.view.AuthForm? && !app.isLoading && app.mode == SignIn
    requires Answered(net(CredentialsRequest(SignInPath, Credentials("a@b.com", "Abcdef12"))))
    ensures var s1 := Submit(app, "a@b.com", "Abcdef12");
      && s1.sent == Some(CredentialsRequest(SignInPath, Credentials("a@b.com", "Abcdef12")))
      && Reply(SwitchMode(s1.app).app, net).app.view.success == Some("Successfully signed up!")
  {
    SampleInputValid();
  }

  /**
   * Signing in with a valid address and password against a server that
   * answers with tokens stores exactly those tokens, and once the delayed
   * timer fires the success screen is shown.
   */
  lemma SignInScenario(net: Request -> Delivery<AuthTokens>, userNet: Request -> Delivery<UserDetails>)
    requires var c := Credentials("a@b.com", "Abcdef12");
      net(AuthRequest(SignIn, c)) == Delivered(Response(true, 200, Json(AuthTokens("t1", "r1"), None)))
    ensures var s0 := Start(map[], userNet).app;
      var s1 := Submit(s0, "a@b.com", "Abcdef12");
      var s2 := Reply(s1.app, net).app;
      var s3 := WelcomeTimer(s2, userNet).app;
      && s1.sent == Some(CredentialsRequest(SignInPath, Credentials("a@b.com", "Abcdef12")))
      && GetAccessToken(s2.store).value == "t1" && GetRefreshToken(s2.store).value == "r1"
      && s2.view.success == Some("Successfully signed in!")
      && s3.view.Welcome?
  {
    var e: string := "a@b.com";
    var p: string := "Abcdef12";
    var c := Credentials(e, p);
    assert CheckForm(e, p) == Success(c) by { SampleInputValid(); }
    var s0 := Start(map[], userNet).app;
    assert s0 == Controller(SignIn, false, BlankForm, Loaded(map[]), None, 0);
    var s1 := Submit(s0, e, p);
    assert s1.sent == Some(AuthRequest(SignIn, c));
    var s2 := Reply(s1.app, net).app;
    assert Await(net(AuthRequest(SignIn, c))) == Success(AuthTokens("t1", "r1"));
  }

  /** The sample credentials pass every guard. */
  lemma SampleInputValid()
    ensures CheckForm("a@b.com", "Abcdef12") == Success(Credentials("a@b.com", "Abcdef12"))
  {
    SampleEmailTrimmed();
    SampleEmailWellFormed();
    SamplePasswordStrong();
  }

  lemma SampleEmailTrimmed()
    ensures Trim("a@b.com") == "a@b.com"
  {
    var e: string := "a@b.com";
    assert AllSpace(e[..0]) && AllSpace(e[|e|..]);
    assert Unpadded(e);
    assert Surrounds(e, e, 0);
    TrimUnique(e, e, 0);
  }

  lemma SampleEmailWellFormed()
    ensures WellFormedEmail("a@b.com")
  {
    var e: string := "a@b.com";
    LowerRun(e[..1]);
    LowerRun(e[2..3]);
    LowerRun(e[4..]);
    ValidateEmailIsWellFormed(e, 1, 3);
  }

  lemma LowerRun(t: string)
    requires |t| > 0 && forall k | 0 <= k < |t| :: IsAsciiLower(t[k])
    ensures EmailClassRun(t)
  {
  }

  lemma SamplePasswordStrong()
    ensures StrongPassword("Abcdef12")
  {
    var p: string := "Abcdef12";
    assert IsAsciiLower(p[1]) && IsAsciiUpper(p[0]) && IsAsciiDigit(p[6]);
  }
}
