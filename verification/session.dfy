/** The session routes: the `checkLogin` gate, GET /welcome behind it, and
    GET /logout. */
module SessionRoutes {
  import opened Wrappers
  import opened Model

  /** `checkLogin`: with a session the wrapped handler runs on the unchanged state;
      without one the gate answers 401 itself, whatever the handler would do. */
  function CheckLogin(s: State, handler: State -> Step): (r: Step)
    ensures s.session.None? ==> r == Fail(s, StatusUnauthorized, LoginRequired)
    ensures s.session.Some? ==> r == handler(s)
  {
    if s.session.Some? then handler(s) else Fail(s, StatusUnauthorized, LoginRequired)
  }

  predicate OccursAt(msg: string, name: string, i: int)
  {
    0 <= i && i + |name| <= |msg| && msg[i..i + |name|] == name
  }

  /** The template `안녕하세요, ${username}님`: the name sits right after the prefix. */
  function Greeting(name: string): (g: string)
    ensures |g| == |GreetingPrefix| + |name| + |GreetingSuffix|
    ensures g[..|GreetingPrefix|] == GreetingPrefix
    ensures OccursAt(g, name, |GreetingPrefix|)
    ensures g[|GreetingPrefix| + |name|..] == GreetingSuffix
  {
    GreetingPrefix + name + GreetingSuffix
  }

  /** True when `name` occurs in `msg`. */
  ghost predicate Mentions(msg: string, name: string)
  {
    exists i :: OccursAt(msg, name, i)
  }

  /** The body of the /welcome route, including its own else branch. */
  function WelcomeHandler(s: State): (r: Step)
    ensures r.next == s
    ensures s.session.Some? ==>
      r.status == StatusOk && r.body.MessageBody? && Mentions(r.body.message, s.session.value.username)
  {
    if s.session.Some? then
      var name := s.session.value.username;
      Step(StatusOk, MessageBody(Greeting(name)), s)
    else Fail(s, StatusUnauthorized, LoginRequired)
  }

  /** GET /welcome: 200 with a greeting naming the session user, 401 without a
      session. */
  function Welcome(s: State): (r: Step)
    ensures r.next == s
    ensures r.status == StatusOk <==> s.session.Some?
    ensures r.status == StatusUnauthorized <==> s.session.None?
    ensures s.session.None? ==> r.body == ErrorBody(LoginRequired)
    ensures s.session.Some? ==> r.body.MessageBody? && Mentions(r.body.message, s.session.value.username)
  {
    CheckLogin(s, WelcomeHandler)
  }

  /** The handler's own else branch is dead behind the gate, and it answers exactly
      what the gate does, so the gated route and the bare handler agree. */
  lemma GateMakesElseBranchRedundant(s: State)
    ensures Welcome(s) == WelcomeHandler(s)
    ensures s.session.None? ==> Welcome(s) == CheckLogin(s, _ => Step(StatusOk, NoBody, s))
  {
  }

  /** GET /logout: destroy the session; a failed destruction answers 500 and the
      model leaves the session in place. */
  function Logout(s: State, fault: bool): (r: Step)
    ensures fault ==> r == Fail(s, StatusServerError, LogoutFailed)
    ensures !fault ==> r.status == StatusOk && r.body == MessageBody(LogoutDone)
    ensures !fault ==> r.next.session.None?
    ensures r.next.posts == s.posts && r.next.nextId == s.nextId && r.next.users == s.users
  {
    if fault then Fail(s, StatusServerError, LogoutFailed)
    else Step(StatusOk, MessageBody(LogoutDone), s.(session := None))
  }

  /** After a successful logout the gate turns the welcome route away. */
  lemma WelcomeAfterLogout(s: State)
    ensures Welcome(Logout(s, false).next) == Fail(Logout(s, false).next, StatusUnauthorized, LoginRequired)
  {
  }
}
