/** The access-code form shown while the session is not authenticated. */
module LoginPage {

  /** The single shared access code, compared exactly and case-sensitively. */
  const AccessCode: string := "mel8beans"

  const IncorrectCodeMessage: string := "Incorrect Code. Try again!"

  /** The form's state: the code typed so far and the error shown under it ("" shows nothing). */
  datatype LoginForm = LoginForm(code: string, error: string)

  /** The outcome of submitting: the next form state and whether `onLogin` was called. */
  datatype LoginOutcome = LoginOutcome(form: LoginForm, loggedIn: bool)

  /**
   * Submitting calls `onLogin` exactly when the code is the access code; any other code
   * shows the error and clears the field.
   */
  function Submit(f: LoginForm): (r: LoginOutcome)
    ensures r.loggedIn <==> f.code == AccessCode
    ensures r.loggedIn ==> r.form == f
    ensures !r.loggedIn ==> r.form.error == IncorrectCodeMessage && r.form.code == ""
  {
    if f.code == AccessCode then LoginOutcome(f, true)
    else LoginOutcome(LoginForm("", IncorrectCodeMessage), false)
  }

  /** Typing replaces the code and clears any error. */
  function ChangeCode(f: LoginForm, code: string): (r: LoginForm)
    ensures r.code == code && r.error == ""
  {
    LoginForm(code, "")
  }

  /** The comparison is case-sensitive: the upper-case spelling of the code is refused. */
  lemma UpperCaseCodeRefused()
    ensures !Submit(LoginForm("MEL8BEANS", "")).loggedIn
  {
  }
}
