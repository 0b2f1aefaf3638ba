/** The application state the request handlers of the message board act on, the
    shapes of their responses, and the invariant every handler preserves. */
module Model {
  import opened Wrappers
  import opened Credentials

  /** A MongoDB ObjectId, abstracted to a number issued by a counter. */
  type ObjectId = nat

  /** The stored part of a post document: `{title, content}`. */
  datatype Entry = Entry(title: string, content: string)

  /** A post document as it is returned to the client: `{_id, title, content}`. */
  datatype Post = Post(id: ObjectId, title: string, content: string)

  function AsPost(id: ObjectId, e: Entry): Post
  {
    Post(id, e.title, e.content)
  }

  /** A user document: `{username, password}` where password holds the hash. */
  datatype User = User(username: string, password: Digest)

  /** A user document with the password projected away. */
  datatype PublicUser = PublicUser(username: string)

  /** The collections `post` and `user`, the id counter, and the requesting
      client's session slot `req.session.user`. */
  datatype State = State(
    posts: map<ObjectId, Entry>,
    nextId: ObjectId,
    users: seq<User>,
    session: Option<User>)

  /** A field of a JSON request body: absent, or a string. */
  type Field = Option<string>

  /** JavaScript truthiness of a string field: absent and "" are both missing. */
  function Present(f: Field): (ok: bool)
    ensures ok <==> f != None && f != Some("")
  {
    f.Some? && f.value != ""
  }

  /** The `:id` route parameter after `new ObjectId(...)`: either it parses,
      or the constructor throws. */
  datatype PathId = WellFormed(oid: ObjectId) | Malformed(raw: string)

  /** JSON response bodies. Every error body is `{error: ...}`. */
  datatype Body =
    | ErrorBody(error: string)
    | MessageBody(message: string)
    | PostBody(post: Post)
    | PostsBody(posts: seq<Post>)
    | UsersBody(users: seq<PublicUser>)
    | LoginBody(message: string, user: PublicUser)
    | NoBody

  /** One handled request: the status code, the body, and the state afterwards. */
  datatype Step = Step(status: int, body: Body, next: State)

  const StatusOk: int := 200
  const StatusCreated: int := 201
  const StatusNoContent: int := 204
  const StatusBadRequest: int := 400
  const StatusUnauthorized: int := 401
  const StatusNotFound: int := 404
  const StatusServerError: int := 500

  const DbError: string := "Database query error"
  const PostNotFound: string := "Post not found"
  const FieldsRequired: string := "Title and content are required"
  const CredentialsRequired: string := "Username and password are required"
  const UsernameTaken: string := "이미 존재하는 사용자명입니다."
  const SignupDone: string := "회원가입이 완료되었습니다."
  const NoSuchUser: string := "사용자가 존재하지 않습니다."
  const WrongPassword: string := "비밀번호가 일치하지 않습니다."
  const LoginDone: string := "로그인 성공"
  const LoginRequired: string := "로그인이 필요합니다."
  const LogoutFailed: string := "세션 제거 오류"
  const LogoutDone: string := "로그아웃되었습니다."
  const GreetingPrefix: string := "안녕하세요, "
  const GreetingSuffix: string := "님"

  /** An error response that leaves the state as it was. */
  function Fail(s: State, status: int, msg: string): Step
  {
    Step(status, ErrorBody(msg), s)
  }

  ghost predicate UniqueUsernames(users: seq<User>)
  {
    forall i, j :: 0 <= i < j < |users| ==> users[i].username != users[j].username
  }

  /** The state invariant: every stored id was issued before the counter, usernames
      are distinct, and a session holds a user record that is stored. */
  ghost predicate Valid(s: State)
  {
    && (forall id :: id in s.posts ==> id < s.nextId)
    && UniqueUsernames(s.users)
    && (s.session.Some? ==> s.session.value in s.users)
  }

  /** A freshly started server: empty collections and no session. */
  function Init(): (s: State)
    ensures Valid(s)
    ensures |s.posts| == 0 && |s.users| == 0 && s.session.None?
  {
    State(map[], 0, [], None)
  }
}
