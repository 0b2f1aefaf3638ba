/** The routing table of the server: one request at a time, each taken by its
    route handler, and the invariants that hold over any sequence of requests. */
module Server {
  import opened Wrappers
  import opened Model
  import opened PostRoutes
  import opened UserRoutes
  import opened SessionRoutes

  /** A request with its inputs; `fault` makes the route's first store call (or the
      session destruction, for logout) fail, and `salt` is bcrypt's random salt. */
  datatype Request =
    | ListReq(fault: bool)
    | GetReq(id: PathId, fault: bool)
    | CreateReq(title: Field, content: Field, fault: bool)
    | UpdateReq(id: PathId, title: Field, content: Field, fault: bool)
    | DeleteReq(id: PathId, fault: bool)
    | SignupReq(username: Field, password: Field, salt: nat, fault: bool)
    | LoginReq(username: Field, password: Field, fault: bool)
    | UsersReq(fault: bool)
    | LogoutReq(fault: bool)
    | WelcomeReq

  /** The route table: every answer carries one of the status codes the routes use. */
  function Handle(s: State, req: Request): (r: Step)
    ensures r.status in {StatusOk, StatusCreated, StatusNoContent, StatusBadRequest,
                         StatusUnauthorized, StatusNotFound, StatusServerError}
    ensures r.status == StatusUnauthorized ==> req.LoginReq? || req.WelcomeReq?
    ensures r.status == StatusCreated ==> req.CreateReq? || req.SignupReq?
  {
    match req
    case ListReq(f) => ListPosts(s, f)
    case GetReq(id, f) => GetContent(s, id, f)
    case CreateReq(t, c, f) => CreateContent(s, t, c, f)
    case UpdateReq(id, t, c, f) => UpdateContent(s, id, t, c, f)
    case DeleteReq(id, f) => DeleteContent(s, id, f)
    case SignupReq(u, p, salt, f) => Signup(s, u, p, salt, f)
    case LoginReq(u, p, f) => Login(s, u, p, f)
    case UsersReq(f) => ListUsers(s, f)
    case LogoutReq(f) => Logout(s, f)
    case WelcomeReq => Welcome(s)
  }

  /** The state after handling `reqs` in order. */
  function Run(s: State, reqs: seq<Request>): State
    decreases |reqs|
  {
    if |reqs| == 0 then s else Run(Handle(s, reqs[0]).next, reqs[1..])
  }

  /** A signup appends a name no stored user has, so usernames stay distinct. */
  lemma SignupPreservesValid(s: State, username: Field, password: Field, salt: nat, fault: bool)
    requires Valid(s)
    ensures Valid(Signup(s, username, password, salt, fault).next)
  {
  }

  /** Every route keeps the invariant. */
  lemma HandlePreservesValid(s: State, req: Request)
    requires Valid(s)
    ensures Valid(Handle(s, req).next)
  {
  }

  /** The invariant holds after any sequence of requests: in particular any mix of
      signups never produces two users with the same name, and a session always
      holds a stored user. */
  lemma {:induction false} RunPreservesValid(s: State, reqs: seq<Request>)
    requires Valid(s)
    ensures Valid(Run(s, reqs))
    decreases |reqs|
  {
    if |reqs| > 0 {
      HandlePreservesValid(s, reqs[0]);
      RunPreservesValid(Handle(s, reqs[0]).next, reqs[1..]);
    }
  }

  /** From a freshly started server the invariant holds after any run of requests. */
  lemma RunFromStartValid(reqs: seq<Request>)
    ensures Valid(Run(Init(), reqs))
  {
    RunPreservesValid(Init(), reqs);
  }

  /** Only the post routes touch posts and only signup touches users; signup and
      the post routes never touch the session. */
  lemma RoutesFrame(s: State, req: Request)
    ensures !(req.CreateReq? || req.UpdateReq? || req.DeleteReq?) ==>
      Handle(s, req).next.posts == s.posts && Handle(s, req).next.nextId == s.nextId
    ensures !req.SignupReq? ==> Handle(s, req).next.users == s.users
    ensures !(req.LoginReq? || req.LogoutReq?) ==> Handle(s, req).next.session == s.session
  {
  }

  /** Reached from a valid state, a welcome that answers 200 greets a user who is
      stored in the user collection. */
  lemma WelcomeGreetsStoredUser(s: State)
    requires Valid(s)
    requires Welcome(s).status == StatusOk
    ensures exists i :: 0 <= i < |s.users| && Mentions(Welcome(s).body.message, s.users[i].username)
  {
  }

  /** Sign up "a"/"p", sign up again, log in with a wrong then the right password,
      visit /welcome, log out, visit /welcome again: 201, 400, 401, 200, 200, 200, 401. */
  lemma AccountLifecycle(s: State, salt: nat)
    requires forall i :: 0 <= i < |s.users| ==> s.users[i].username != "a"
    ensures var s1 := Signup(s, Some("a"), Some("p"), salt, false);
      var s2 := Signup(s1.next, Some("a"), Some("p"), salt, false);
      var s3 := Login(s2.next, Some("a"), Some("wrong"), false);
      var s4 := Login(s3.next, Some("a"), Some("p"), false);
      var s5 := Welcome(s4.next);
      var s6 := Logout(s5.next, false);
      var s7 := Welcome(s6.next);
      && s1.status == StatusCreated
      && s2 == Fail(s1.next, StatusBadRequest, UsernameTaken)
      && s3 == Fail(s2.next, StatusUnauthorized, WrongPassword)
      && s4.status == StatusOk && s4.body == LoginBody(LoginDone, PublicUser("a"))
      && s5.status == StatusOk && Mentions(s5.body.message, "a")
      && s6.status == StatusOk
      && s7 == Fail(s6.next, StatusUnauthorized, LoginRequired)
  {
  }
}
