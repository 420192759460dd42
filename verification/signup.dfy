/** The web sign-up page (client/src/pages/signup.tsx): the input constraints the
    form declares, the password check of its submit handler, the request it sends,
    and the text of the failure toast. Lengths count characters. */
module SignupPage {
  import opened Wrappers
  import Text

  const MinPassword: nat := 8
  const MinUsername: nat := 3
  const MaxUsername: nat := 50

  /** The body posted to `/api/auth/signup`; an empty email is left out. */
  datatype SignupRequest = SignupRequest(username: string, password: string, email: Option<string>)

  /** What submitting does: a destructive toast with a title, or a request. */
  datatype SubmitOutcome = Refused(title: string) | Request(body: SignupRequest)

  /** `handleSubmit`: passwords under eight characters are refused before any request
      is made; otherwise the fields are passed on as typed. */
  function HandleSubmit(username: string, password: string, email: string): (r: SubmitOutcome)
    ensures r.Request? <==> |password| >= MinPassword
    ensures r.Refused? ==> r.title == "Invalid password"
    ensures r.Request? ==> && r.body.username == username && r.body.password == password
                           && (r.body.email.None? <==> email == [])
                           && (r.body.email.Some? ==> r.body.email.value == email)
  {
    if |password| < MinPassword then Refused("Invalid password")
    else Request(SignupRequest(username, password, if email == [] then None else Some(email)))
  }

  /** The constraints the input elements declare: a username of 3 to 50 characters and
      a password of at least 8. */
  predicate InputsValid(username: string, password: string) {
    MinUsername <= |username| <= MaxUsername && |password| >= MinPassword
  }

  /** The handler's own check agrees with the password field's declared minimum, so a
      form meeting its constraints is always sent, with the email restored from the
      request. */
  lemma ValidInputsAreSent(username: string, password: string, email: string)
    requires InputsValid(username, password)
    ensures HandleSubmit(username, password, email).Request?
    ensures HandleSubmit(username, password, email).body.email.GetOr([]) == email
  {
  }

  const SignupFailed: string := "Failed to create account. Please try again."

  /** The failure toast shows the error's message, or the sign-up failure text when it
      is empty. */
  function FailureText(message: string): (r: string)
    ensures r != []
    ensures message != [] ==> r == message
    ensures message == [] ==> r == SignupFailed
  {
    Text.OrElse(message, SignupFailed)
  }
}
