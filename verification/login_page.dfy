/**
 * The login page (src/pages/LoginPage.js): where to go after signing in,
 * and the busy / error / navigate lifecycle of a form submission. The outcome
 * of the `login` call is a parameter.
 */
module LoginPage {
  import opened Wrappers
  import opened JsValue
  import Session
  import Routing
  import Api

  datatype Form = Form(email: string, password: string, busy: bool, err: string)

  const LoginFailed := "Login failed"

  /** `location.state?.from?.pathname || '/'`; `from` is the location the guard recorded, if any. */
  function Target(from: Option<Routing.Location>): (t: string)
    ensures from.Some? && from.value.pathname != "" ==> t == from.value.pathname
    ensures from.None? || from.value.pathname == "" ==> t == "/"
  {
    OrElse(if from.Some? then from.value.pathname else "", "/")
  }

  /** `disabled={busy}`: the only submit control is disabled while a login runs. */
  predicate CanSubmit(f: Form) {
    !f.busy
  }

  datatype Navigation = Navigate(to: string, replace: bool)

  /** A submission: ignored while the control is disabled, or the form while and after `login` runs, and where it navigates. */
  datatype Submission = Ignored | Ran(during: Form, after: Form, nav: Option<Navigation>)

  /**
   * `onSubmit`: clear the error, set busy, await `login`; on success navigate
   * to the target with replace, on failure show the message or "Login failed";
   * clear busy in both cases.
   */
  function Submit(f: Form, from: Option<Routing.Location>, outcome: Session.Outcome): (r: Submission)
    ensures r.Ignored? <==> !CanSubmit(f)
    ensures r.Ran? ==> r.during == f.(busy := true, err := "") && !CanSubmit(r.during)
    ensures r.Ran? ==> !r.after.busy && r.after.email == f.email && r.after.password == f.password
    ensures r.Ran? ==> (r.nav.Some? <==> outcome.Succeeded?)
    ensures r.Ran? && outcome.Succeeded? ==> r.nav == Some(Navigate(Target(from), true)) && r.after.err == ""
    ensures r.Ran? && outcome.Threw? ==>
              && r.after.err != ""
              && (outcome.message != "" ==> r.after.err == outcome.message)
              && (outcome.message == "" ==> r.after.err == LoginFailed)
  {
    if f.busy then Ignored
    else
      var during := f.(err := "", busy := true);
      match outcome
      case Succeeded => Ran(during, during.(busy := false), Some(Navigate(Target(from), true)))
      case Threw(m) => Ran(during, during.(err := OrElse(m, LoginFailed), busy := false), None)
  }

  /**
   * The round trip of the guard and the login page: a signed-out visit to a
   * guarded path P redirects to the login page with P recorded; a login that
   * succeeds with a truthy user navigates back to P, and P then renders in the
   * shell. The search and hash of the first visit are not carried over.
   */
  lemma RedirectThenLoginReturns(s: Session.Session, here: Routing.Location, f: Form,
                                 email: string, password: string, response: JsValue.Json, user: JsValue.Json)
    requires !Session.SignedIn(s) && here.pathname != Routing.LoginPath && here.pathname != ""
    requires CanSubmit(f)
    requires Present(Session.ResponseToken(response)) && Truthy(user)
    ensures var sc := Routing.Route(s, here);
            var step := Session.LoginValidated(s, email, password, Api.Done(response), Api.Done(user));
            var sub := Submit(f, Some(sc.from), step.outcome);
            && sc.Redirected?
            && step.outcome.Succeeded?
            && sub.Ran? && sub.nav == Some(Navigate(here.pathname, true))
            && Routing.Route(step.session, Routing.Location(here.pathname, "", "")) == Routing.Shell(Routing.ShellPage(here.pathname))
  {
  }
}
