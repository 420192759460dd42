/** The mobile landing screen (mobile/src/screens/landing.tsx): the sign-in / sign-up
    form, its empty-field check, the authentication call it makes in each mode, and
    the loading flag around that call. The call's outcome is an input. */
module MobileLanding {
  import opened Wrappers
  import Text

  /** The screen state: the mode (sign in or sign up), the two fields and the loading flag. */
  datatype Landing = Landing(isLogin: bool, email: string, password: string, loading: bool)

  const InitialLanding: Landing := Landing(true, "", "", false)

  /** The authentication calls. */
  datatype AuthCall = Login(email: string, password: string) | Signup(email: string, password: string)

  /** One press of the submit button: the call made, the loading flag while the call
      runs, the alert text shown, and the state afterwards. */
  datatype Submission = Submission(call: Option<AuthCall>, loadingDuringCall: bool, alert: Option<string>, after: Landing)

  /** `handleSubmit`. An empty field alerts and calls nothing. Otherwise the mode picks
      the call, loading is on while it runs and off afterwards whatever the outcome,
      and a failure alerts with its message or a fixed text. `failure` is the error
      message of the call, if it failed. The button is disabled while loading. */
  function Submit(st: Landing, failure: Option<string>): (r: Submission)
    ensures st.loading ==> r == Submission(None, true, None, st)
    ensures !st.loading && (st.email == [] || st.password == []) ==>
              r == Submission(None, false, Some("Please fill in all fields"), st)
    ensures r.call.Some? <==> !st.loading && st.email != [] && st.password != []
    ensures r.call.Some? ==> r.loadingDuringCall && r.after == st
    ensures r.call.Some? ==> (r.call.value.Login? <==> st.isLogin)
    ensures r.call.Some? ==> r.call.value.email == st.email && r.call.value.password == st.password
    ensures r.call.Some? ==> (r.alert.Some? <==> failure.Some?)
    ensures r.call.Some? && failure.Some? ==>
              r.alert == Some(if failure.value == [] then "Authentication failed" else failure.value)
  {
    if st.loading then Submission(None, true, None, st)
    else if st.email == [] || st.password == [] then Submission(None, false, Some("Please fill in all fields"), st)
    else
      var call := if st.isLogin then Login(st.email, st.password) else Signup(st.email, st.password);
      var alert := match failure
        case None => None
        case Some(m) => Some(Text.OrElse(m, "Authentication failed"));
      Submission(Some(call), true, alert, st.(loading := false))
  }

  /** From a screen that is not loading, every press leaves it not loading, whether the
      call succeeded, failed, or was never made. */
  lemma LoadingCleared(st: Landing, failure: Option<string>)
    requires !st.loading
    ensures !Submit(st, failure).after.loading
    ensures Submit(st, failure).after == st
  {
  }

  /** The mode link switches between sign in and sign up, and nothing else. */
  function ToggleMode(st: Landing): (r: Landing)
    ensures r.isLogin != st.isLogin
    ensures r == st.(isLogin := r.isLogin)
  {
    st.(isLogin := !st.isLogin)
  }

  /** Toggling twice restores the mode, and the call a toggled screen makes is the
      other kind on the same credentials. */
  lemma ToggleSwitchesCall(st: Landing, failure: Option<string>)
    requires !st.loading && st.email != [] && st.password != []
    ensures ToggleMode(ToggleMode(st)) == st
    ensures Submit(ToggleMode(st), failure).call.value.Login? != Submit(st, failure).call.value.Login?
  {
  }
}
