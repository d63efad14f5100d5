/**
 * The session held by the authentication provider (src/auth/AuthContext.js):
 * the token in client storage, the current user and the `initializing` flag,
 * with the mount-time bootstrap, login and logout as transitions. How the
 * `/auth/login` and `/auth/me` requests settle is given as parameters.
 */
module Session {
  import opened Wrappers
  import opened JsValue
  import Api

  /** `token` is what `localStorage` holds under the token key; `user` is the state value (null when absent). */
  datatype Session = Session(token: Option<string>, user: Json, initializing: bool)

  /** `!!user`: what the route guard and the header test. */
  predicate SignedIn(s: Session) {
    Truthy(s.user)
  }

  /** The session as first rendered: storage as found, no user, still initializing. */
  function Start(stored: Option<string>): (s: Session)
    ensures s.token == stored && !SignedIn(s) && s.initializing
  {
    Session(stored, JNull, true)
  }

  /** A new session together with the API calls issued to reach it, in order. */
  datatype Effect = Effect(session: Session, calls: seq<Api.Call>)

  /**
   * The mount effect: without a truthy stored token, stop initializing and call
   * nothing; otherwise ask `/auth/me` once, keep the user it returns, or on
   * failure remove the token and clear the user; stop initializing either way.
   */
  function Bootstrap(stored: Option<string>, identity: Api.ApiResult): (r: Effect)
    ensures !r.session.initializing
    ensures !Api.TokenSet(stored) ==> r.calls == [] && r.session.token == stored && !SignedIn(r.session)
    ensures Api.TokenSet(stored) ==> r.calls == [Api.MeCall()]
    ensures Api.TokenSet(stored) && identity.Done? ==>
              r.session.token == stored && r.session.user == identity.data
    ensures Api.TokenSet(stored) && identity.Failed? ==>
              r.session.token == None && !SignedIn(r.session)
  {
    var s := Start(stored);
    if !Api.TokenSet(stored) then Effect(s.(initializing := false), [])
    else Effect(LateIdentitySettle(s, identity), [Api.MeCall()])
  }

  /**
   * The `.then`/`.catch`/`.finally` of the mount-time `/auth/me` call, applied
   * to whatever session is current when that call settles: the user it
   * returns replaces the current one, or a failure removes whatever token is
   * stored and clears the user; initializing ends either way. `Bootstrap`
   * applies it to the first render; nothing stops a login from running
   * while the call is pending, and then it applies to the session the login
   * left.
   */
  function LateIdentitySettle(s: Session, identity: Api.ApiResult): (r: Session)
    ensures !r.initializing
    ensures identity.Done? ==> r.token == s.token && r.user == identity.data
    ensures identity.Failed? ==> r.token == None && !SignedIn(r)
  {
    match identity
    case Done(u) => s.(user := u, initializing := false)
    case Failed(_) => s.(token := None, user := JNull, initializing := false)
  }

  /** How a call of `login` ends for its caller: it resolves, or throws an Error with a message. */
  datatype Outcome = Succeeded | Threw(message: string)

  datatype LoginStep = LoginStep(session: Session, calls: seq<Api.Call>, outcome: Outcome)

  const InvalidLoginResponse := "Invalid login response"

  /** `res?.token` */
  function ResponseToken(response: Json): Option<Json> {
    Member(response, "token")
  }

  /** What `localStorage.setItem` stores for the token value: its string form. */
  function StoredToken(token: Json): string {
    ToJsString(token)
  }

  /**
   * `login(email, password)` as written: call `/auth/login`; without a truthy
   * `token` in the answer throw "Invalid login response"; otherwise store the
   * token, then call `/auth/me` and set the user from it. A failure of either
   * call propagates, and a failure of `/auth/me` leaves the new token stored.
   */
  function Login(s: Session, email: string, password: string,
                 response: Api.ApiResult, identity: Api.ApiResult): (r: LoginStep)
    ensures |r.calls| >= 1 && r.calls[0] == Api.LoginCall(email, password)
    ensures r.session.initializing == s.initializing
    ensures response.Failed? ==> r == LoginStep(s, [Api.LoginCall(email, password)], Threw(response.message))
    ensures response.Done? && !Present(ResponseToken(response.data)) ==>
              r == LoginStep(s, [Api.LoginCall(email, password)], Threw(InvalidLoginResponse))
    ensures response.Done? && Present(ResponseToken(response.data)) ==>
              && r.calls == [Api.LoginCall(email, password), Api.MeCall()]
              && r.session.token == Some(StoredToken(ResponseToken(response.data).value))
              && (identity.Done? ==> r.session.user == identity.data && r.outcome == Succeeded)
              && (identity.Failed? ==> r.session.user == s.user && r.outcome == Threw(identity.message))
  {
    var first := [Api.LoginCall(email, password)];
    match response
    case Failed(m) => LoginStep(s, first, Threw(m))
    case Done(data) =>
      var token := ResponseToken(data);
      if !Present(token) then LoginStep(s, first, Threw(InvalidLoginResponse))
      else
        var stored := s.(token := Some(StoredToken(token.value)));
        match identity
        case Done(u) => LoginStep(stored.(user := u), first + [Api.MeCall()], Succeeded)
        case Failed(m) => LoginStep(stored, first + [Api.MeCall()], Threw(m))
  }

  /**
   * `login` with the evident intent restored: when `/auth/me` rejects the new
   * token, remove it and clear the user, as the bootstrap does for the same
   * failure, before propagating the error.
   */
  function LoginValidated(s: Session, email: string, password: string,
                          response: Api.ApiResult, identity: Api.ApiResult): (r: LoginStep)
    ensures r.calls == Login(s, email, password, response, identity).calls
    ensures r.outcome == Login(s, email, password, response, identity).outcome
    ensures r.outcome.Succeeded? ==> r == Login(s, email, password, response, identity)
    ensures |r.calls| == 1 ==> r == Login(s, email, password, response, identity)
    ensures !(response.Done? && Present(ResponseToken(response.data))) ==> r.session == s
    ensures r.session.initializing == s.initializing
    ensures |r.calls| == 2 && identity.Failed? ==> r.session.token == None && !SignedIn(r.session)
  {
    var written := Login(s, email, password, response, identity);
    if |written.calls| == 2 && identity.Failed? then
      written.(session := written.session.(token := None, user := JNull))
    else written
  }

  /** `logout()`: remove the token and clear the user; `initializing` is untouched. */
  function Logout(s: Session): (r: Session)
    ensures r.token == None && !SignedIn(r) && r.initializing == s.initializing
  {
    s.(token := None, user := JNull)
  }

  // ---------------------------------------------------------------------------
  // The signed-in user belongs to the stored token

  /**
   * Whenever a user is shown, storage holds a token and the user is what the
   * identity endpoint answers for that token. `server` is that endpoint's
   * answer as a function of the token it is sent.
   */
  ghost predicate Consistent(s: Session, server: string -> Api.ApiResult) {
    SignedIn(s) ==> s.token.Some? && server(s.token.value) == Api.Done(s.user)
  }

  /** The first render and the bootstrap establish consistency. */
  lemma BootstrapConsistent(stored: Option<string>, server: string -> Api.ApiResult, identity: Api.ApiResult)
    requires Api.TokenSet(stored) ==> identity == server(stored.value)
    ensures Consistent(Start(stored), server)
    ensures Consistent(Bootstrap(stored, identity).session, server)
  {
  }

  /** A stored token that the identity check rejects is gone after the bootstrap. */
  lemma RejectedTokenRemoved(t: string, message: string)
    requires t != ""
    ensures Bootstrap(Some(t), Api.Failed(message)).session.token == None
    ensures Bootstrap(Some(t), Api.Failed(message)).calls == [Api.MeCall()]
  {
  }

  lemma LogoutConsistent(s: Session, server: string -> Api.ApiResult)
    ensures Consistent(Logout(s), server)
  {
  }

  /** Storage changes during a login only when the login answer carries a truthy token. */
  lemma LoginTouchesStorageOnlyWithToken(s: Session, email: string, password: string,
                                         response: Api.ApiResult, identity: Api.ApiResult)
    ensures Login(s, email, password, response, identity).session.token != s.token ==>
              response.Done? && Present(ResponseToken(response.data))
    ensures !(response.Done? && Present(ResponseToken(response.data))) ==>
              Login(s, email, password, response, identity).session == s
  {
  }

  /** The identity call made by a login carries the token just stored. */
  lemma IdentityCallCarriesNewToken(s: Session, email: string, password: string,
                                    response: Api.ApiResult, identity: Api.ApiResult, base: string)
    requires response.Done? && Present(ResponseToken(response.data))
    requires StoredToken(ResponseToken(response.data).value) != ""
    ensures var r := Login(s, email, password, response, identity);
            var q := Api.Prepare(base, r.session.token, r.calls[1]);
            q.url == base + "/auth/me" &&
            q.headers[Api.Authorization] == "Bearer " + StoredToken(ResponseToken(response.data).value)
  {
  }

  /** As written, a successful login keeps consistency, and so does any login from a signed-out session. */
  lemma LoginConsistentWhenIdentityAgrees(s: Session, email: string, password: string,
                                          response: Api.ApiResult, identity: Api.ApiResult,
                                          server: string -> Api.ApiResult)
    requires Consistent(s, server)
    requires !SignedIn(s) || identity.Done?
    requires response.Done? && Present(ResponseToken(response.data)) ==>
               identity == server(StoredToken(ResponseToken(response.data).value))
    ensures Consistent(Login(s, email, password, response, identity).session, server)
  {
  }

  /**
   * As written, consistency breaks: signed in as one user, a login whose
   * new token the identity endpoint rejects leaves the new token stored and the
   * previous user shown.
   */
  lemma LoginBreaksConsistency()
    ensures var server := (t: string) => if t == "old" then Api.Done(JObj(map["id" := JNum(1)])) else Api.Failed("Unauthorized");
            var s := Session(Some("old"), JObj(map["id" := JNum(1)]), false);
            var r := Login(s, "b@x.io", "pw", Api.Done(JObj(map["token" := JStr("new")])), Api.Failed("Unauthorized"));
            Consistent(s, server) && !Consistent(r.session, server)
              && r.session.token == Some("new") && SignedIn(r.session) && r.outcome.Threw?
  {
  }

  /**
   * A login made while the mount-time identity check of an older stored
   * token is still pending (the guard sends every path to `/login` then):
   * the corrected login signs in user 2 consistently, but when the old check
   * settles afterwards, a success puts user 1 back over the new token and a
   * failure removes the new token and signs user 2 out.
   */
  lemma PendingCheckRaceUndoesLogin()
    ensures var user1 := JObj(map["id" := JNum(1)]);
            var user2 := JObj(map["id" := JNum(2)]);
            var server := (t: string) => if t == "old" then Api.Done(user1)
                                         else if t == "new" then Api.Done(user2)
                                         else Api.Failed("Unauthorized");
            var s := LoginValidated(Start(Some("old")), "b@x.io", "pw",
                                    Api.Done(JObj(map["token" := JStr("new")])), Api.Done(user2)).session;
            && s.token == Some("new") && s.user == user2 && Consistent(s, server)
            && !Consistent(LateIdentitySettle(s, Api.Done(user1)), server)
            && LateIdentitySettle(s, Api.Failed("Unauthorized")).token == None
            && !SignedIn(LateIdentitySettle(s, Api.Failed("Unauthorized")))
  {
    var answer := JObj(map["token" := JStr("new")]);
    assert ResponseToken(answer) == Some(JStr("new"));
    assert StoredToken(JStr("new")) == "new";
    var r := Login(Start(Some("old")), "b@x.io", "pw", Api.Done(answer), Api.Done(JObj(map["id" := JNum(2)])));
    assert r.session.token == Some("new");
    var user1 := JObj(map["id" := JNum(1)]);
    var user2 := JObj(map["id" := JNum(2)]);
    assert user1.fields["id"] != user2.fields["id"];
    assert user1 != user2;
  }

  /** With the correction, every login keeps consistency. */
  lemma LoginValidatedConsistent(s: Session, email: string, password: string,
                                 response: Api.ApiResult, identity: Api.ApiResult,
                                 server: string -> Api.ApiResult)
    requires Consistent(s, server)
    requires response.Done? && Present(ResponseToken(response.data)) ==>
               identity == server(StoredToken(ResponseToken(response.data).value))
    ensures Consistent(LoginValidated(s, email, password, response, identity).session, server)
  {
  }
}
