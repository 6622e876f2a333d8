/** The forgot-password screen's view-model: the e-mail field and sending the
    password-reset link. */
module ForgotPassword {
  import opened KotlinRuntime
  import opened Responses
  import opened Dispatch

  datatype ForgotPasswordState = ForgotPasswordState(
    email: string,
    errorMsg: Option<string>,
    isLoading: bool,
    isPasswordLinkSent: bool)

  /** `ForgotPasswordState()`. */
  const InitialState: ForgotPasswordState := ForgotPasswordState("", None, false, false)

  datatype ForgotPasswordEvent = SendForgotPasswordLink | OnEmailChange(email: string)

  const InvalidEmailMessage: string := "Invalid Email Address"

  /** The handlers passed to `collectAndHandle` for the reset-link request. */
  function ResetLinkHandlers(): Handlers<ForgotPasswordState, bool> {
    Handlers(
      (st: ForgotPasswordState, e) => Done(st.(isPasswordLinkSent := false, isLoading := false, errorMsg := MessageOf(e))),
      (st: ForgotPasswordState) => Done(st.(isLoading := true)),
      (st: ForgotPasswordState, _) => Done(st.(isPasswordLinkSent := true, isLoading := false)))
  }

  /** `SendForgotPasswordLink`: clear the message, reject an invalid address, else
      collect the repository's responses; the `catch` turns an exception into the
      message. There is no `finally`, so a producer that throws after a `Loading`
      leaves the spinner on. */
  function SendLink(s: ForgotPasswordState, isValidEmail: string -> bool,
                    sendPasswordResetLink: string -> Emissions<bool>): (r: ForgotPasswordState)
    ensures r.email == s.email
    ensures !isValidEmail(s.email) ==> r == s.(errorMsg := Some(InvalidEmailMessage))
  {
    var cleared := s.(errorMsg := None);
    var attempt :=
      if !isValidEmail(cleared.email) then Threw(cleared, IllegalArgument(InvalidEmailMessage))
      else CollectAndHandle(ResetLinkHandlers(), cleared, sendPasswordResetLink(cleared.email));
    ResetLinkResponses(cleared, sendPasswordResetLink(cleared.email).items);
    if attempt.Threw? then attempt.state.(errorMsg := attempt.exception.message) else attempt.state
  }

  /** What the reset-link responses do: nothing throws; the link counts as sent when
      the last non-`Loading` response is a `Success`; the spinner follows the last
      response; the message is the last `Error`'s, which a later `Success` keeps;
      the e-mail is never written. */
  lemma {:induction false} ResetLinkResponses(st: ForgotPasswordState, rs: seq<Response<bool>>)
    ensures CollectAll(ResetLinkHandlers(), st, rs).Done?
    ensures var out := CollectAll(ResetLinkHandlers(), st, rs).state;
            && out.email == st.email
            && out.isPasswordLinkSent == FlagAfter(rs, st.isPasswordLinkSent)
            && out.errorMsg == LastErrorMessage(rs, st.errorMsg)
            && out.isLoading == (if |rs| == 0 then st.isLoading else rs[|rs| - 1].Loading?)
    decreases |rs|
  {
    if |rs| > 0 {
      var init, last := rs[..|rs| - 1], rs[|rs| - 1];
      assert rs == init + [last];
      ResetLinkResponses(st, init);
      CollectAllSnoc(ResetLinkHandlers(), st, init, last);
    }
  }

  /** A valid address reaches the repository, and the screen ends as its responses
      decide; an exception of the producer becomes the message. */
  lemma ValidAddressOutcome(s: ForgotPasswordState, isValidEmail: string -> bool,
                            sendPasswordResetLink: string -> Emissions<bool>)
    requires isValidEmail(s.email)
    ensures var run := sendPasswordResetLink(s.email);
            var r := SendLink(s, isValidEmail, sendPasswordResetLink);
            && r.isPasswordLinkSent == FlagAfter(run.items, s.isPasswordLinkSent)
            && r.isLoading == (if |run.items| == 0 then s.isLoading else run.items[|run.items| - 1].Loading?)
            && (run.failure.Some? ==> r.errorMsg == run.failure.value.message)
            && (run.failure.None? ==> r.errorMsg == LastErrorMessage(run.items, None))
  {
    ResetLinkResponses(s.(errorMsg := None), sendPasswordResetLink(s.email).items);
  }

  /** An empty address is never valid, so it is rejected before the repository is
      asked, whatever the repository would answer. */
  lemma EmptyAddressRejected(s: ForgotPasswordState, isValidEmail: string -> bool,
                             send1: string -> Emissions<bool>, send2: string -> Emissions<bool>)
    requires !isValidEmail("")
    ensures SendLink(s.(email := ""), isValidEmail, send1) == SendLink(s.(email := ""), isValidEmail, send2)
    ensures SendLink(s.(email := ""), isValidEmail, send1).errorMsg == Some(InvalidEmailMessage)
  {
  }

  /** `forgotPasswordEvent`. */
  function OnEvent(s: ForgotPasswordState, e: ForgotPasswordEvent, isValidEmail: string -> bool,
                   sendPasswordResetLink: string -> Emissions<bool>): (r: ForgotPasswordState)
    ensures e.OnEmailChange? ==> r.email == e.email && r.(email := s.email) == s
    ensures e.SendForgotPasswordLink? ==> r.email == s.email
  {
    match e
    case OnEmailChange(x) => s.(email := x)
    case SendForgotPasswordLink => SendLink(s, isValidEmail, sendPasswordResetLink)
  }
}
