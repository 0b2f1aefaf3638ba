/** The account routes: POST /signup, POST /login and GET /users. */
module UserRoutes {
  import opened Wrappers
  import opened Credentials
  import opened Model

  /** `findOne({username})` on the user collection: the first stored record with
      that username, if any. */
  function FindUser(users: seq<User>, name: string): (r: Option<User>)
    ensures r.Some? ==> r.value in users && r.value.username == name
    ensures r.None? <==> forall i :: 0 <= i < |users| ==> users[i].username != name
  {
    if |users| == 0 then None
    else if users[0].username == name then Some(users[0])
    else FindUser(users[1..], name)
  }

  /** `find({}, {projection: {password: 0}})`: the users without their hashes. */
  function Publish(users: seq<User>): (r: seq<PublicUser>)
    ensures |r| == |users|
    ensures forall i :: 0 <= i < |users| ==> r[i].username == users[i].username
  {
    seq(|users|, i requires 0 <= i < |users| => PublicUser(users[i].username))
  }

  /** POST /signup: store `{username, hash(password)}` unless the name is taken.
      No session is created. */
  function Signup(s: State, username: Field, password: Field, salt: nat, fault: bool): (r: Step)
    ensures r.next.posts == s.posts && r.next.nextId == s.nextId && r.next.session == s.session
    ensures !(Present(username) && Present(password)) ==> r == Fail(s, StatusBadRequest, CredentialsRequired)
    ensures Present(username) && Present(password) && fault ==> r == Fail(s, StatusServerError, DbError)
    ensures Present(username) && Present(password) && !fault
            && (exists i :: 0 <= i < |s.users| && s.users[i].username == username.value)
            ==> r == Fail(s, StatusBadRequest, UsernameTaken)
    ensures r.status == StatusCreated <==>
      && Present(username) && Present(password) && !fault
      && forall i :: 0 <= i < |s.users| ==> s.users[i].username != username.value
    ensures r.status == StatusCreated ==>
      && r.body == MessageBody(SignupDone)
      && |r.next.users| == |s.users| + 1
      && r.next.users[..|s.users|] == s.users
      && r.next.users[|s.users|].username == username.value
      && Verify(password.value, r.next.users[|s.users|].password)
    ensures r.status != StatusCreated ==> r.next == s
  {
    if !Present(username) || !Present(password) then Fail(s, StatusBadRequest, CredentialsRequired)
    else if fault then Fail(s, StatusServerError, DbError)
    else if FindUser(s.users, username.value).Some? then Fail(s, StatusBadRequest, UsernameTaken)
    else
      var user := User(username.value, Hash(password.value, salt));
      Step(StatusCreated, MessageBody(SignupDone), s.(users := s.users + [user]))
  }

  /** POST /login: look the user up, compare the password with the stored hash, and
      on success put the whole stored record into the session. The body carries the
      username only. Unknown user and wrong password share 401 but not the message. */
  function Login(s: State, username: Field, password: Field, fault: bool): (r: Step)
    ensures r.next.posts == s.posts && r.next.nextId == s.nextId && r.next.users == s.users
    ensures !(Present(username) && Present(password)) ==> r == Fail(s, StatusBadRequest, CredentialsRequired)
    ensures Present(username) && Present(password) && fault ==> r == Fail(s, StatusServerError, DbError)
    ensures r == Fail(s, StatusUnauthorized, NoSuchUser) <==>
      && Present(username) && Present(password) && !fault
      && forall i :: 0 <= i < |s.users| ==> s.users[i].username != username.value
    ensures r == Fail(s, StatusUnauthorized, WrongPassword) <==>
      && Present(username) && Present(password) && !fault
      && FindUser(s.users, username.value).Some?
      && !Verify(password.value, FindUser(s.users, username.value).value.password)
    ensures r.status == StatusOk <==>
      && Present(username) && Present(password) && !fault
      && FindUser(s.users, username.value).Some?
      && Verify(password.value, FindUser(s.users, username.value).value.password)
    ensures r.status == StatusOk ==> r.next.session == FindUser(s.users, username.value)
    ensures r.status == StatusOk ==>
      && r.body == LoginBody(LoginDone, PublicUser(username.value))
      && r.next.session.Some?
      && r.next.session.value in s.users
      && r.next.session.value.username == username.value
      && Verify(password.value, r.next.session.value.password)
    ensures r.status != StatusOk ==> r.next == s
  {
    if !Present(username) || !Present(password) then Fail(s, StatusBadRequest, CredentialsRequired)
    else if fault then Fail(s, StatusServerError, DbError)
    else match FindUser(s.users, username.value)
      case None => Fail(s, StatusUnauthorized, NoSuchUser)
      case Some(user) =>
        if !Verify(password.value, user.password) then Fail(s, StatusUnauthorized, WrongPassword)
        else Step(StatusOk, LoginBody(LoginDone, PublicUser(username.value)), s.(session := Some(user)))
  }

  /** GET /users: every user, in the order they were appended, with the password field removed. */
  function ListUsers(s: State, fault: bool): (r: Step)
    ensures r.next == s
    ensures fault ==> r == Fail(s, StatusServerError, DbError)
    ensures !fault ==>
      && r.status == StatusOk && r.body.UsersBody?
      && |r.body.users| == |s.users|
      && forall i :: 0 <= i < |s.users| ==> r.body.users[i].username == s.users[i].username
  {
    if fault then Fail(s, StatusServerError, DbError)
    else Step(StatusOk, UsersBody(Publish(s.users)), s)
  }

  /** With distinct usernames the lookup finds the one record carrying the name. */
  lemma FindUniqueUser(users: seq<User>, i: nat)
    requires UniqueUsernames(users)
    requires i < |users|
    ensures FindUser(users, users[i].username) == Some(users[i])
  {
  }

  /** Whoever signed up can log in with the same password; the reply names the
      user and holds no password field. */
  lemma SignupThenLogin(s: State, username: string, password: string, salt: nat)
    requires username != "" && password != ""
    requires Signup(s, Some(username), Some(password), salt, false).status == StatusCreated
    ensures var l := Login(Signup(s, Some(username), Some(password), salt, false).next, Some(username), Some(password), false);
      && l.status == StatusOk
      && l.body == LoginBody(LoginDone, PublicUser(username))
      && l.next.session.Some? && l.next.session.value.username == username
  {
  }

  /** Under distinct usernames, login succeeds exactly when some stored user has the
      name and the password verifies against that user's hash. */
  lemma LoginSucceedsIff(s: State, username: string, password: string)
    requires UniqueUsernames(s.users)
    requires username != "" && password != ""
    ensures Login(s, Some(username), Some(password), false).status == StatusOk <==>
      exists i :: 0 <= i < |s.users| && s.users[i].username == username && Verify(password, s.users[i].password)
  {
  }

  /** Under distinct usernames the public listing names every user exactly once. */
  lemma ListedUsernamesDistinct(s: State)
    requires UniqueUsernames(s.users)
    ensures var r := ListUsers(s, false);
      forall i, j :: 0 <= i < j < |r.body.users| ==> r.body.users[i] != r.body.users[j]
  {
  }

  /** After a successful signup the users listing gains exactly the new name, at
      the end, and is otherwise as before. */
  lemma SignupThenListUsers(s: State, username: string, password: string, salt: nat)
    requires Signup(s, Some(username), Some(password), salt, false).status == StatusCreated
    ensures var before := ListUsers(s, false).body.users;
      var after := ListUsers(Signup(s, Some(username), Some(password), salt, false).next, false).body.users;
      after == before + [PublicUser(username)]
  {
  }
}
