/** The sign-up screen's view-model: form-field events, the form validator, and
    `createUser`, which validates, calls the account-creation repository and folds
    its responses into the screen state. */
module Registration {
  import opened KotlinRuntime
  import opened Responses
  import opened Dispatch

  datatype SignUpState = SignUpState(
    firstName: string,
    lastName: string,
    email: string,
    password: string,
    confirmPassword: string,
    agreeTerms: bool,
    isLoading: bool,
    isSuccessLogin: bool,
    isVerificationEmailSent: bool,
    loginErrorMsg: Option<string>)

  /** `SignUpState()`: every text empty, every flag false, no error. */
  const InitialState: SignUpState := SignUpState("", "", "", "", "", false, false, false, false, None)

  datatype SignUpEvent =
    | OnEmailChange(email: string)
    | OnFirstNameChange(firstName: string)
    | OnLastNameChange(lastName: string)
    | OnPasswordChange(password: string)
    | OnConfirmPasswordChange(confirmPassword: string)
    | OnAgreeTermsChange(agree: bool)
    | SignUp
    | OnIsEmailVerificationChange

  const FieldsEmptyMessage: string := "Fields Can not be empty"
  const PasswordMismatchMessage: string := "Password do not Match"

  /** `validateSignUpForm`: every text field filled in and the terms accepted. */
  predicate ValidateSignUpForm(s: SignUpState) {
    && IsNotEmpty(s.firstName) && IsNotEmpty(s.lastName) && IsNotEmpty(s.email)
    && IsNotEmpty(s.password) && IsNotEmpty(s.confirmPassword) && s.agreeTerms
  }

  /** The form can be submitted exactly when no text field is "" and the terms are accepted. */
  lemma ValidateSignUpFormMeaning(s: SignUpState)
    ensures ValidateSignUpForm(s) <==>
              && s.firstName != "" && s.lastName != "" && s.email != ""
              && s.password != "" && s.confirmPassword != "" && s.agreeTerms
    ensures !ValidateSignUpForm(InitialState)
  {
  }

  /** The `when (it)` inside `createUser`'s collection: `Loading` keeps the spinner on,
      `Success` marks the sign-up done, and `Error` records the failure and then
      throws an `IllegalArgumentException` whose cause is the response's error. */
  function CreateUserHandlers<A>(): Handlers<SignUpState, A> {
    Handlers(
      (st: SignUpState, e) => Threw(st.(isSuccessLogin := false, isLoading := false), IllegalArgumentCausedBy(e)),
      (st: SignUpState) => Done(st.(isLoading := true)),
      (st: SignUpState, _) => Done(st.(isSuccessLogin := true, isLoading := false)))
  }

  /** The `try` block of `createUser`: the two validation checks, in their order,
      then the repository call with the form's email and password. */
  function CreateUserAttempt<A>(s: SignUpState, createUser: (string, string) -> Emissions<A>): Step<SignUpState> {
    if !ValidateSignUpForm(s) then Threw(s, IllegalArgument(FieldsEmptyMessage))
    else if s.password != s.confirmPassword then Threw(s, IllegalArgument(PasswordMismatchMessage))
    else
      var started := s.(isLoading := true, loginErrorMsg := None);
      CollectAndHandle(CreateUserHandlers(), started, createUser(started.email, started.password))
  }

  /** `createUser`, including its `catch` (the message becomes `loginErrorMsg`)
      and its `finally` (the spinner is switched off). */
  function CreateUser<A>(s: SignUpState, createUser: (string, string) -> Emissions<A>): (r: SignUpState)
    ensures !r.isLoading
    ensures r == s.(isLoading := r.isLoading, isSuccessLogin := r.isSuccessLogin, loginErrorMsg := r.loginErrorMsg)
    ensures !ValidateSignUpForm(s) ==> r == s.(isLoading := false, loginErrorMsg := Some(FieldsEmptyMessage))
    ensures ValidateSignUpForm(s) && s.password != s.confirmPassword ==>
              r == s.(isLoading := false, loginErrorMsg := Some(PasswordMismatchMessage))
  {
    var attempt := CreateUserAttempt(s, createUser);
    FieldsKeptByCollection(s.(isLoading := true, loginErrorMsg := None), createUser(s.email, s.password));
    var caught := if attempt.Threw? then attempt.state.(loginErrorMsg := attempt.exception.message) else attempt.state;
    caught.(isLoading := false)
  }

  /** Handling `createUser`'s responses writes only `isLoading` and `isSuccessLogin`. */
  lemma FieldsKeptByCollection<A>(st: SignUpState, run: Emissions<A>)
    ensures var out := CollectAndHandle(CreateUserHandlers(), st, run).state;
            out == st.(isLoading := out.isLoading, isSuccessLogin := out.isSuccessLogin)
  {
    FieldsKeptByResponses(st, run.items);
  }

  lemma {:induction false} FieldsKeptByResponses<A>(st: SignUpState, rs: seq<Response<A>>)
    ensures var out := CollectAll(CreateUserHandlers(), st, rs).state;
            out == st.(isLoading := out.isLoading, isSuccessLogin := out.isSuccessLogin)
    decreases |rs|
  {
    if |rs| > 0 {
      var step := Handle(CreateUserHandlers(), st, rs[0]);
      if step.Done? {
        FieldsKeptByResponses(step.state, rs[1..]);
      }
    }
  }

  /** A form that fails either check never reaches the repository: the outcome is
      the same whatever the repository would have emitted. */
  lemma RejectedFormSkipsRepository<A>(s: SignUpState, repo1: (string, string) -> Emissions<A>, repo2: (string, string) -> Emissions<A>)
    requires !ValidateSignUpForm(s) || s.password != s.confirmPassword
    ensures CreateUser(s, repo1) == CreateUser(s, repo2)
    ensures CreateUser(s, repo1).loginErrorMsg ==
              Some(if !ValidateSignUpForm(s) then FieldsEmptyMessage else PasswordMismatchMessage)
  {
  }

  /** A form that passes both checks reaches the repository, with the form's own
      email and password: only what the repository emits for that pair matters, and
      collection starts with the spinner on and the previous message cleared. */
  lemma AcceptedFormCallsRepository<A>(s: SignUpState, repo1: (string, string) -> Emissions<A>, repo2: (string, string) -> Emissions<A>)
    requires ValidateSignUpForm(s) && s.password == s.confirmPassword
    ensures repo1(s.email, s.password) == repo2(s.email, s.password) ==> CreateUser(s, repo1) == CreateUser(s, repo2)
    ensures CreateUserAttempt<A>(s, (e: string, p: string) => Emissions([], None))
              == Done(s.(isLoading := true, loginErrorMsg := None))
  {
  }

  /** Responses up to the first `Error` only ever switch the spinner and the
      success flag; the flag ends up set exactly when one of them was a `Success`,
      and the spinner is on exactly when the last of them was `Loading`. */
  lemma {:induction false} ErrorFreeResponses<A>(st: SignUpState, rs: seq<Response<A>>)
    requires forall i :: 0 <= i < |rs| ==> !rs[i].Error?
    ensures CollectAll(CreateUserHandlers(), st, rs).Done?
    ensures var out := CollectAll(CreateUserHandlers(), st, rs).state;
            && out.isSuccessLogin == (st.isSuccessLogin || exists i :: 0 <= i < |rs| && rs[i].Success?)
            && out.isLoading == (if |rs| == 0 then st.isLoading else rs[|rs| - 1].Loading?)
            && out == st.(isLoading := out.isLoading, isSuccessLogin := out.isSuccessLogin)
    decreases |rs|
  {
    if |rs| > 0 {
      var step := Handle(CreateUserHandlers(), st, rs[0]);
      assert step.Done?;
      ErrorFreeResponses(step.state, rs[1..]);
      var out := CollectAll(CreateUserHandlers(), st, rs).state;
      if rs[0].Success? {
        assert out.isSuccessLogin;
      } else {
        if exists i :: 0 <= i < |rs| && rs[i].Success? {
          var i :| 0 <= i < |rs| && rs[i].Success?;
          assert rs[1..][i - 1].Success?;
        }
      }
      if exists i :: 0 <= i < |rs[1..]| && rs[1..][i].Success? {
        var i :| 0 <= i < |rs[1..]| && rs[1..][i].Success?;
        assert rs[i + 1].Success?;
      }
    }
  }

  /** The first `Error` ends the sign-up: the success flag is cleared, the message
      is the one `IllegalArgumentException(cause)` derives from the error, and
      nothing emitted after it matters. */
  lemma FirstErrorEndsSignUp<A>(s: SignUpState, createUser: (string, string) -> Emissions<A>,
                                pre: seq<Response<A>>, e: Option<Throwable>, post: seq<Response<A>>)
    requires ValidateSignUpForm(s) && s.password == s.confirmPassword
    requires createUser(s.email, s.password).items == pre + [Error(e)] + post
    requires forall i :: 0 <= i < |pre| ==> !pre[i].Error?
    ensures CreateUser(s, createUser) ==
              s.(isLoading := false, isSuccessLogin := false,
                 loginErrorMsg := if e.Some? then Some(Describe(e.value)) else None)
  {
    var started := s.(isLoading := true, loginErrorMsg := None);
    var h := CreateUserHandlers<A>();
    ErrorFreeResponses(started, pre);
    CollectAllSnoc(h, started, pre, Error(e));
    ThrowDiscardsRest(h, started, pre + [Error(e)], post);
    var thrown := CollectAll(h, started, pre + [Error(e)]);
    assert thrown.state == s.(isLoading := false, isSuccessLogin := false, loginErrorMsg := None);
  }

  /** Without an `Error`, the sign-up succeeds exactly when a `Success` arrived;
      an exception of the producer itself still lands in `loginErrorMsg`. */
  lemma ErrorFreeSignUp<A>(s: SignUpState, createUser: (string, string) -> Emissions<A>)
    requires ValidateSignUpForm(s) && s.password == s.confirmPassword
    requires var items := createUser(s.email, s.password).items;
             forall i :: 0 <= i < |items| ==> !items[i].Error?
    ensures var run := createUser(s.email, s.password);
            CreateUser(s, createUser) ==
              s.(isLoading := false,
                 isSuccessLogin := s.isSuccessLogin || (exists i :: 0 <= i < |run.items| && run.items[i].Success?),
                 loginErrorMsg := if run.failure.Some? then run.failure.value.message else None)
  {
    var started := s.(isLoading := true, loginErrorMsg := None);
    ErrorFreeResponses(started, createUser(s.email, s.password).items);
  }

  /** The `onSuccess` callback of the verification e-mail, which the authentication
      provider invokes later, after a successful account creation. */
  function VerificationEmailSent(s: SignUpState): (r: SignUpState)
    ensures r.isVerificationEmailSent
    ensures r.(isVerificationEmailSent := s.isVerificationEmailSent) == s
  {
    s.(isVerificationEmailSent := true)
  }

  /** `signUpEvent`. */
  function OnEvent<A>(s: SignUpState, e: SignUpEvent, createUser: (string, string) -> Emissions<A>): (r: SignUpState)
    ensures e.SignUp? ==> r == CreateUser(s, createUser)
    ensures e.OnIsEmailVerificationChange? ==>
              !r.isVerificationEmailSent && r.(isVerificationEmailSent := s.isVerificationEmailSent) == s
  {
    match e
    case OnEmailChange(x) => s.(email := x)
    case OnFirstNameChange(x) => s.(firstName := x)
    case OnLastNameChange(x) => s.(lastName := x)
    case OnPasswordChange(x) => s.(password := x)
    case OnConfirmPasswordChange(x) => s.(confirmPassword := x)
    case OnAgreeTermsChange(b) => s.(agreeTerms := b)
    case SignUp => CreateUser(s, createUser)
    case OnIsEmailVerificationChange => s.(isVerificationEmailSent := false)
  }

  /** Each field-change event sets its own field to the event's value and leaves
      every other field as it was; applying it twice is applying it once. */
  lemma FieldEventsFrame<A>(s: SignUpState, e: SignUpEvent, repo: (string, string) -> Emissions<A>)
    requires !e.SignUp? && !e.OnIsEmailVerificationChange?
    ensures var r := OnEvent(s, e, repo);
            && OnEvent(r, e, repo) == r
            && (e.OnEmailChange? ==> r.email == e.email && r.(email := s.email) == s)
            && (e.OnFirstNameChange? ==> r.firstName == e.firstName && r.(firstName := s.firstName) == s)
            && (e.OnLastNameChange? ==> r.lastName == e.lastName && r.(lastName := s.lastName) == s)
            && (e.OnPasswordChange? ==> r.password == e.password && r.(password := s.password) == s)
            && (e.OnConfirmPasswordChange? ==>
                  r.confirmPassword == e.confirmPassword && r.(confirmPassword := s.confirmPassword) == s)
            && (e.OnAgreeTermsChange? ==> r.agreeTerms == e.agree && r.(agreeTerms := s.agreeTerms) == s)
  {
  }
}
