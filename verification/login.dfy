/** The login screen's view-model: field events, the blank-field validator, the
    e-mail/password login with its verified-account check, Google sign-in, and
    re-sending the verification e-mail. The authentication provider's answers
    (`isValidEmail`, `hasVerifiedUser`, `hasUser`, the response runs) are inputs. */
module Login {
  import opened KotlinRuntime
  import opened Responses
  import opened Dispatch
  import opened Models

  datatype LoginState = LoginState(
    loginErrorMsg: Option<string>,
    isLoading: bool,
    isValidEmailAddress: bool,
    email: string,
    password: string,
    isSuccessLogin: bool,
    currentUser: Option<FirebaseUser>,
    isUSerVerified: Option<bool>,
    showResendBtn: bool)

  /** `LoginState()`. */
  const InitialState: LoginState := LoginState(None, false, false, "", "", false, None, None, false)

  const BlankFieldsMessage: string := "Password or Email can not be empty"
  const InvalidEmailMessage: string := "Invalid Email Address"

  /** The raw-string message of the unverified-account exception once
      `trimIndent` has removed its common 17-space indent and its blank first and
      last lines; the user's e-mail, or "null", is appended to the second line. */
  const VerificationNotice: string :=
    "We've sent a verification link to your email. \nPlease check your inbox and click the link to activate your account."

  function VerificationMessage(user: Option<FirebaseUser>): (m: string)
    ensures |m| >= |VerificationNotice| && m[..|VerificationNotice|] == VerificationNotice
    ensures user.None? ==> m == VerificationNotice + "null"
    ensures user.Some? ==> m == VerificationNotice + TemplateOf(user.value.email)
  {
    VerificationNotice + TemplateOf(if user.Some? then user.value.email else None)
  }

  /** `validateLoginForm`: neither field is blank. */
  predicate ValidateLoginForm(s: LoginState) {
    IsNotBlank(s.email) && IsNotBlank(s.password)
  }

  /** Whitespace-only input fails validation, as does the initial empty form;
      a form that passes has two non-empty fields. */
  lemma BlankFieldsFailValidation(s: LoginState)
    ensures IsBlank(s.email) || IsBlank(s.password) ==> !ValidateLoginForm(s)
    ensures ValidateLoginForm(s) ==> s.email != "" && s.password != ""
    ensures !ValidateLoginForm(s.(email := " \t")) && !ValidateLoginForm(InitialState)
  {
    var t := s.(email := " \t");
    assert IsWhitespace(t.email[0]) && IsWhitespace(t.email[1]);
    if ValidateLoginForm(s) {
      NotBlankIsNotEmpty(s.email);
      NotBlankIsNotEmpty(s.password);
    }
  }

  /** `hasNotVerifiedThrowError`: an unverified account shows the resend button and
      throws the verification notice; a verified one passes unchanged. */
  function RequireVerified(st: LoginState, hasVerifiedUser: bool): (r: Step<LoginState>)
    ensures hasVerifiedUser <==> r == Done(st)
    ensures !hasVerifiedUser ==>
              && r.Threw? && r.state == st.(showResendBtn := true)
              && r.exception.message == Some(VerificationMessage(st.currentUser))
  {
    if !hasVerifiedUser then
      Threw(st.(showResendBtn := true), IllegalArgument(VerificationMessage(st.currentUser)))
    else Done(st)
  }

  /** `hasUserVerified`: somebody is signed in and that account is verified. */
  function HasUserVerified(hasUser: bool, hasVerifiedUser: bool): (r: bool)
    ensures r ==> hasVerifiedUser
    ensures !hasUser ==> !r
    ensures hasUser ==> r == hasVerifiedUser
  {
    hasUser && hasVerifiedUser
  }

  /** The trailing `stateReducer` lambda shared by login and Google sign-in. */
  function OnSignedIn<A>(hasVerifiedUser: bool): (LoginState, A) -> Step<LoginState> {
    (st: LoginState, _) =>
      match RequireVerified(st, hasVerifiedUser)
      case Done(x) => Done(x.(isSuccessLogin := true, isLoading := false))
      case Threw(x, e) => Threw(x, e)
  }

  /** The handlers `login` passes to `collectAndHandle`. */
  function LoginHandlers<A>(hasVerifiedUser: bool): Handlers<LoginState, A> {
    Handlers(
      (st: LoginState, e) => Done(st.(isSuccessLogin := false, isLoading := false, loginErrorMsg := MessageOf(e))),
      (st: LoginState) => Done(st.(isLoading := true)),
      OnSignedIn(hasVerifiedUser))
  }

  /** The `try` block of `login`: clear the message, the two checks in order,
      then the repository call with the form's credentials. */
  function LoginAttempt<A>(s: LoginState, isValidEmail: string -> bool, hasVerifiedUser: bool,
                           login: (string, string) -> Emissions<A>): Step<LoginState> {
    var cleared := s.(loginErrorMsg := None);
    if !ValidateLoginForm(cleared) then Threw(cleared, IllegalArgument(BlankFieldsMessage))
    else if !isValidEmail(cleared.email) then Threw(cleared, IllegalArgument(InvalidEmailMessage))
    else
      var started := cleared.(isLoading := true);
      CollectAndHandle(LoginHandlers(hasVerifiedUser), started, login(started.email, started.password))
  }

  /** The `try` block writes only the spinner, the success flag, the message and
      the resend button, whichever way it ends. */
  lemma LoginAttemptFrame<A>(s: LoginState, isValidEmail: string -> bool, hasVerifiedUser: bool,
                             login: (string, string) -> Emissions<A>)
    ensures var t := LoginAttempt(s, isValidEmail, hasVerifiedUser, login).state;
            t == s.(isLoading := t.isLoading, isSuccessLogin := t.isSuccessLogin,
                    loginErrorMsg := t.loginErrorMsg, showResendBtn := t.showResendBtn)
  {
    var cleared := s.(loginErrorMsg := None);
    if ValidateLoginForm(cleared) && isValidEmail(cleared.email) {
      var started := cleared.(isLoading := true);
      var run := login(started.email, started.password);
      var h := LoginHandlers<A>(hasVerifiedUser);
      var collected := CollectAll(h, started, run.items);
      if hasVerifiedUser {
        VerifiedResponses(started, run.items);
      } else {
        UnverifiedResponses(started, run.items);
      }
      assert collected.state == started.(isLoading := collected.state.isLoading,
                                         isSuccessLogin := collected.state.isSuccessLogin,
                                         loginErrorMsg := collected.state.loginErrorMsg,
                                         showResendBtn := collected.state.showResendBtn);
      assert CollectAndHandle(h, started, run).state == collected.state;
    }
  }

  /** `login`, with its `catch` (the exception's message becomes `loginErrorMsg`)
      and its `finally` (the spinner is switched off). The credentials, the
      current user and the verification fields are never written. */
  function DoLogin<A>(s: LoginState, isValidEmail: string -> bool, hasVerifiedUser: bool,
                      login: (string, string) -> Emissions<A>): (r: LoginState)
    ensures !r.isLoading
    ensures r == s.(isLoading := false, isSuccessLogin := r.isSuccessLogin,
                    loginErrorMsg := r.loginErrorMsg, showResendBtn := r.showResendBtn)
    ensures !ValidateLoginForm(s) ==> r == s.(loginErrorMsg := Some(BlankFieldsMessage), isLoading := false)
    ensures ValidateLoginForm(s) && !isValidEmail(s.email) ==>
              r == s.(loginErrorMsg := Some(InvalidEmailMessage), isLoading := false)
  {
    var attempt := LoginAttempt(s, isValidEmail, hasVerifiedUser, login);
    var caught := if attempt.Threw? then attempt.state.(loginErrorMsg := attempt.exception.message) else attempt.state;
    LoginAttemptFrame(s, isValidEmail, hasVerifiedUser, login);
    caught.(isLoading := false)
  }

  /** A form that fails either check never reaches the repository or the
      verified-account query: the outcome is the same whatever they answer. */
  lemma RejectedLoginSkipsRepository<A>(s: LoginState, isValidEmail: string -> bool, v1: bool, v2: bool,
                                        login1: (string, string) -> Emissions<A>,
                                        login2: (string, string) -> Emissions<A>)
    requires !ValidateLoginForm(s) || !isValidEmail(s.email)
    ensures DoLogin(s, isValidEmail, v1, login1) == DoLogin(s, isValidEmail, v2, login2)
  {
  }

  /** With a verified account no handler throws. `isSuccessLogin` ends as the last
      non-`Loading` response decides (set by `Success`, cleared by `Error`), the
      message is that of the last `Error` (a later `Success` keeps it), the
      spinner is on exactly when the last response was `Loading`, and only the
      spinner, the success flag and the message are ever written. */
  lemma {:induction false} VerifiedResponses<A>(st: LoginState, rs: seq<Response<A>>)
    ensures CollectAll(LoginHandlers(true), st, rs).Done?
    ensures var out := CollectAll(LoginHandlers(true), st, rs).state;
            && out == st.(isLoading := out.isLoading, isSuccessLogin := out.isSuccessLogin,
                          loginErrorMsg := out.loginErrorMsg)
            && out.isSuccessLogin == FlagAfter(rs, st.isSuccessLogin)
            && out.loginErrorMsg == LastErrorMessage(rs, st.loginErrorMsg)
            && out.isLoading == (if |rs| == 0 then st.isLoading else rs[|rs| - 1].Loading?)
    decreases |rs|
  {
    if |rs| > 0 {
      var init, last := rs[..|rs| - 1], rs[|rs| - 1];
      assert rs == init + [last];
      VerifiedResponses(st, init);
      CollectAllSnoc(LoginHandlers<A>(true), st, init, last);
    }
  }

  /** A verified login that gets past validation ends as its responses decide:
      the flag follows the last settled response, and the message is the last
      `Error`'s, even when a `Success` came after it. Only the spinner, the flag
      and the message are written. */
  lemma VerifiedLogin<A>(s: LoginState, isValidEmail: string -> bool, login: (string, string) -> Emissions<A>)
    requires ValidateLoginForm(s) && isValidEmail(s.email)
    ensures var run := login(s.email, s.password);
            var r := DoLogin(s, isValidEmail, true, login);
            && r.isSuccessLogin == FlagAfter(run.items, s.isSuccessLogin)
            && r == s.(isLoading := false, isSuccessLogin := r.isSuccessLogin, loginErrorMsg := r.loginErrorMsg)
            && r.showResendBtn == s.showResendBtn
            && (run.failure.Some? ==> r.loginErrorMsg == run.failure.value.message)
            && (run.failure.None? ==> r.loginErrorMsg == LastErrorMessage(run.items, None))
  {
    VerifiedResponses(s.(loginErrorMsg := None, isLoading := true), login(s.email, s.password).items);
  }

  /** With an unverified account the success flag is never set; the first `Success`
      shows the resend button and throws the verification notice, which ends the
      collection. A run without `Success` is `WithoutSuccessVerificationUnused`. */
  lemma {:induction false} UnverifiedResponses<A>(st: LoginState, rs: seq<Response<A>>)
    ensures var res := CollectAll(LoginHandlers(false), st, rs);
            && (res.state.isSuccessLogin ==> st.isSuccessLogin)
            && res.state == st.(isLoading := res.state.isLoading, isSuccessLogin := res.state.isSuccessLogin,
                                loginErrorMsg := res.state.loginErrorMsg, showResendBtn := res.state.showResendBtn)
            && (res.Threw? <==> exists i :: 0 <= i < |rs| && rs[i].Success?)
            && (res.Threw? ==> res.state.showResendBtn &&
                                res.exception == IllegalArgument(VerificationMessage(st.currentUser)))
            && (res.Done? ==> res.state.showResendBtn == st.showResendBtn)
    decreases |rs|
  {
    if |rs| > 0 {
      var step := Handle(LoginHandlers<A>(false), st, rs[0]);
      if !rs[0].Success? {
        UnverifiedResponses(step.state, rs[1..]);
        var res := CollectAll(LoginHandlers<A>(false), st, rs);
        if exists i :: 0 <= i < |rs| && rs[i].Success? {
          var i :| 0 <= i < |rs| && rs[i].Success?;
          assert rs[1..][i - 1].Success?;
        }
        if exists i :: 0 <= i < |rs[1..]| && rs[1..][i].Success? {
          var i :| 0 <= i < |rs[1..]| && rs[1..][i].Success?;
          assert rs[i + 1].Success?;
        }
      }
    }
  }

  /** The account is consulted only by the `Success` reducer: without a `Success`
      an unverified account's responses end exactly as a verified account's. */
  lemma WithoutSuccessVerificationUnused<A>(st: LoginState, rs: seq<Response<A>>)
    requires forall i :: 0 <= i < |rs| ==> !rs[i].Success?
    ensures CollectAll(LoginHandlers(false), st, rs) == CollectAll(LoginHandlers(true), st, rs)
  {
    NoSuccessNeverReduces(LoginHandlers<A>(true), LoginHandlers<A>(false).stateReducer, st, rs);
    assert LoginHandlers<A>(true).(stateReducer := LoginHandlers<A>(false).stateReducer) == LoginHandlers<A>(false);
  }

  /** An unverified login never sets `isSuccessLogin`; once a `Success` arrives the
      resend button is shown and the verification notice becomes the error message.
      Only the spinner, the flag, the message and the resend button are written.
      Without a `Success` (a wrong password, say) it ends as a verified login does. */
  lemma UnverifiedLogin<A>(s: LoginState, isValidEmail: string -> bool, login: (string, string) -> Emissions<A>)
    ensures var r := DoLogin(s, isValidEmail, false, login);
            && (r.isSuccessLogin ==> s.isSuccessLogin)
            && r.email == s.email && r.password == s.password && r.currentUser == s.currentUser
            && r == s.(isLoading := false, isSuccessLogin := r.isSuccessLogin,
                       loginErrorMsg := r.loginErrorMsg, showResendBtn := r.showResendBtn)
    ensures var items := login(s.email, s.password).items;
            var r := DoLogin(s, isValidEmail, false, login);
            ValidateLoginForm(s) && isValidEmail(s.email) && (exists i :: 0 <= i < |items| && items[i].Success?) ==>
              && r.showResendBtn
              && r.loginErrorMsg == Some(VerificationMessage(s.currentUser))
    ensures var items := login(s.email, s.password).items;
            (forall i :: 0 <= i < |items| ==> !items[i].Success?) ==>
              DoLogin(s, isValidEmail, false, login) == DoLogin(s, isValidEmail, true, login)
  {
    var started := s.(loginErrorMsg := None, isLoading := true);
    var items := login(s.email, s.password).items;
    UnverifiedResponses(started, items);
    if forall i :: 0 <= i < |items| ==> !items[i].Success? {
      WithoutSuccessVerificationUnused(started, items);
    }
  }

  /** The handlers of Google sign-in: unlike `login`, an `Error` only records its
      message, and there is no `try` around the collection. */
  function GoogleHandlers<A>(hasVerifiedUser: bool): Handlers<LoginState, A> {
    Handlers(
      (st: LoginState, e) => Done(st.(loginErrorMsg := MessageOf(e))),
      (st: LoginState) => Done(st.(isLoading := true)),
      OnSignedIn(hasVerifiedUser))
  }

  /** `SignInWithGoogle`: a `Threw` result is an exception that escapes the
      coroutine uncaught. */
  function GoogleSignIn<A>(s: LoginState, hasVerifiedUser: bool, run: Emissions<A>): (r: Step<LoginState>)
    ensures run.failure.Some? ==> r.Threw?
  {
    CollectAndHandle(GoogleHandlers(hasVerifiedUser), s, run)
  }

  /** For an unverified Google account the first `Success` throws the verification
      notice out of the sign-in, after showing the resend button, whether or not
      the producer would have failed later. */
  lemma UnverifiedGoogleSignInThrows<A>(st: LoginState, pre: seq<Response<A>>, v: A, post: seq<Response<A>>,
                                        failure: Option<Throwable>)
    requires forall i :: 0 <= i < |pre| ==> !pre[i].Success?
    ensures var r := GoogleSignIn(st, false, Emissions(pre + [Success(v)] + post, failure));
            && r.Threw?
            && r.state.showResendBtn && r.state.isSuccessLogin == st.isSuccessLogin
            && r.exception.message == Some(VerificationMessage(st.currentUser))
  {
    var h := GoogleHandlers<A>(false);
    NoSuccessNeverReduces(GoogleHandlers<A>(true), h.stateReducer, st, pre);
    assert GoogleHandlers<A>(true).(stateReducer := h.stateReducer) == h;
    VerifiedGoogleResponses(st, pre);
    CollectAllSnoc(h, st, pre, Success(v));
    ThrowDiscardsRest(h, st, pre + [Success(v)], post);
  }

  /** For a verified Google account nothing throws unless the producer does; unlike
      `login`, an `Error` does not clear the success flag, so the flag ends set
      exactly when it was set before or some `Success` arrived, the message is
      that of the last `Error`, and only the spinner, the flag and the message
      are written. `Loading` switches the spinner on and `Success` off, while an
      `Error` leaves it as it was. */
  lemma {:induction false} VerifiedGoogleResponses<A>(st: LoginState, rs: seq<Response<A>>)
    ensures CollectAll(GoogleHandlers(true), st, rs).Done?
    ensures var out := CollectAll(GoogleHandlers(true), st, rs).state;
            && out.isSuccessLogin == (st.isSuccessLogin || exists i :: 0 <= i < |rs| && rs[i].Success?)
            && out.loginErrorMsg == LastErrorMessage(rs, st.loginErrorMsg)
            && out == st.(isLoading := out.isLoading, isSuccessLogin := out.isSuccessLogin,
                          loginErrorMsg := out.loginErrorMsg)
            && (|rs| > 0 && !rs[|rs| - 1].Error? ==> out.isLoading == rs[|rs| - 1].Loading?)
            && (|rs| > 0 && rs[|rs| - 1].Error? ==>
                  out.isLoading == CollectAll(GoogleHandlers(true), st, rs[..|rs| - 1]).state.isLoading)
    decreases |rs|
  {
    if |rs| > 0 {
      var init, last := rs[..|rs| - 1], rs[|rs| - 1];
      assert rs == init + [last];
      VerifiedGoogleResponses(st, init);
      CollectAllSnoc(GoogleHandlers<A>(true), st, init, last);
      if exists i :: 0 <= i < |rs| && rs[i].Success? {
        var i :| 0 <= i < |rs| && rs[i].Success?;
        if i < |init| {
          assert init[i].Success?;
        }
      }
      if exists i :: 0 <= i < |init| && init[i].Success? {
        var i :| 0 <= i < |init| && init[i].Success?;
        assert rs[i].Success?;
      }
    }
  }

  /** How the verification e-mail request ended: the provider never called back
      (no signed-in user), or called `onSuccess`, or `onError`. */
  datatype MailResult = NoCallback | MailSent | MailFailed(error: Option<Throwable>)

  /** `resendVerification`: success hides the resend button, failure shows the
      error's message; nothing else changes. */
  function ResendVerification(s: LoginState, result: MailResult): (r: LoginState)
    ensures result.MailSent? ==> !r.showResendBtn
    ensures result.MailFailed? ==> r.loginErrorMsg == MessageOf(result.error)
    ensures result.NoCallback? ==> r == s
    ensures r == s.(showResendBtn := r.showResendBtn, loginErrorMsg := r.loginErrorMsg)
  {
    match result
    case NoCallback => s
    case MailSent => s.(showResendBtn := false)
    case MailFailed(e) => s.(loginErrorMsg := MessageOf(e))
  }

  /** The answers of the authentication provider for one event. */
  datatype AuthAnswers<A> = AuthAnswers(
    isValidEmail: string -> bool,
    hasVerifiedUser: bool,
    login: (string, string) -> Emissions<A>,
    googleSignIn: Emissions<A>,
    verificationMail: MailResult)

  datatype LoginEvent =
    | OnEmailChange(email: string)
    | OnPasswordChange(password: string)
    | LoginClicked
    | OnResendVerification
    | SignInWithGoogle
    | LogOut

  /** `loginEvent`. Signing out is the provider's business; the screen learns of it
      through `CurrentUserChanged`. */
  function OnEvent<A>(s: LoginState, e: LoginEvent, env: AuthAnswers<A>): (r: Step<LoginState>)
    ensures !e.SignInWithGoogle? ==> r.Done?
    ensures e.OnEmailChange? ==> r.state.email == e.email && r.state.(email := s.email) == s
    ensures e.OnPasswordChange? ==> r.state.password == e.password && r.state.(password := s.password) == s
    ensures e.LogOut? ==> r == Done(s)
  {
    match e
    case OnEmailChange(x) => Done(s.(email := x))
    case OnPasswordChange(x) => Done(s.(password := x))
    case LoginClicked => Done(DoLogin(s, env.isValidEmail, env.hasVerifiedUser, env.login))
    case OnResendVerification => Done(ResendVerification(s, env.verificationMail))
    case SignInWithGoogle => GoogleSignIn(s, env.hasVerifiedUser, env.googleSignIn)
    case LogOut => Done(s)
  }

  /** The view-model's subscription to the provider's current user. */
  function CurrentUserChanged(s: LoginState, user: Option<FirebaseUser>): (r: LoginState)
    ensures r.currentUser == user && r.(currentUser := s.currentUser) == s
  {
    s.(currentUser := user)
  }
}
