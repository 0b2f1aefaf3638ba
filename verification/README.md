# Message-board backend: the request handlers as a verified state machine

This project models the request-handling layer of a small Express message board
(`server.js`): the post routes (`/list`, `/content`, `/content/:id` with GET, PUT and
DELETE), the account routes (`/signup`, `/login`, `/users`), the `checkLogin` gate,
`/welcome` and `/logout`. Each route is a pure function from an application state and
the request's inputs to a `Step`: the status code, the JSON body and the next state.

The state (`Model.State`) holds:

- `posts`: the `post` collection, a map from ObjectId to `{title, content}`;
- `nextId`: the ObjectId counter (ObjectIds are never reused);
- `users`: the `user` collection in the order records were appended, records `{username, password-hash}`;
- `session`: the requesting client's `req.session.user`, absent or a stored user record.

External libraries are replaced by abstract stand-ins:

- bcrypt is `Credentials.Hash` / `Credentials.Verify`. A password verifies against its own hash and no other password does. The real library only reads the first 72 UTF-8 bytes of a password, so this holds for passwords up to that length (see "## Left out"). The random salt is an input.
- MongoDB is the map and the sequence above. `findOne({username})` returns the first match in that sequence.
- A thrown database error is a `fault` flag on the request. It makes the route's first store call fail.
- A failing `req.session.destroy` is the `fault` flag of `/logout`.
- The `:id` path parameter arrives as a `PathId`: either the ObjectId it parses to, or `Malformed`. For a malformed id, `new ObjectId(id)` throws inside the `try`.
- Request body fields are `Option<string>`. Following JavaScript truthiness, an absent field and `""` both count as missing.

`Server.Handle` dispatches a request to its route. `Server.Run` folds a sequence of
requests. `Model.Valid` is the invariant that every route preserves:

- every stored id is below the counter;
- usernames are distinct;
- a session holds a stored user.

A malformed post id answers 500, not 404, because `new ObjectId(id)` throws inside the
route's `try` block (server.js:113, server.js:121-123).

## Model

| member | source | states |
|---|---|---|
| Credentials.Hash | server.js:334-335 | the stored hash verifies against the signup password and against no other password (for passwords of at most 72 bytes, see Left out) |
| Credentials.Verify | server.js:397 | a password verifies exactly when the digest is the one made from that password with the digest's own salt |
| Credentials.SaltedHashesDiffer | server.js:334 | a fact about the stand-in: the same password hashed with two different salts gives two different digests, and both verify |
| Model.Present | server.js:161 | a body field counts as given exactly when it is neither absent nor the empty string, as the truthiness tests at lines 161, 262, 323 and 385 decide |
| PostRoutes.SortedIds | server.js:81 | the listed ids are exactly the stored ids, each once, in ascending order |
| PostRoutes.Listing | server.js:81-82 | the list holds exactly the stored posts, as many as are stored, in ascending id order |
| PostRoutes.ListPosts | server.js:79-87 | 200 with every stored post, or 500 on a query fault; the state never changes |
| PostRoutes.GetContent | server.js:110-125 | 200 with the stored post for a present id, 404 for a well-formed absent id, 500 for a malformed id or a fault; the state never changes |
| PostRoutes.CreateContent | server.js:157-175 | missing or empty title or content gives 400 and no change; a fault gives 500 and no change; otherwise 201 with a post holding the given fields under an id not previously stored, and the other posts, users and session are unchanged |
| PostRoutes.UpdateContent | server.js:257-286 | fields are checked first (400, no change); then a malformed id or fault gives 500, an absent id 404 with no change; a match replaces both fields and answers the new values, with the other posts untouched |
| PostRoutes.DeleteContent | server.js:198-215 | a present id gives 204 with no body and removes exactly that id; an absent id gives 404 with the not-found body, a malformed id or fault 500 with the query-error body, both with no change |
| PostRoutes.CreateThenGet | server.js:166-170 | after a successful create, GET of the returned id answers 200 with the same post |
| PostRoutes.DeleteTwiceNotFound | server.js:201-207 | after a delete of an id, a second delete of the same id answers 404 |
| PostRoutes.UpdateThenGet | server.js:268-281 | after a successful update, GET of the id answers 200 with the updated post |
| PostRoutes.ListAgreesWithGet | server.js:81-120 | a post is in the list exactly when GET of its id answers 200 with that post |
| PostRoutes.PostLifecycle | server.js:110-215 | create, get, delete, get answers 201, 200 with the created post, 204, 404 |
| UserRoutes.FindUser | server.js:328 | the username lookup returns a stored record with that name, and finds none exactly when no stored user has the name |
| UserRoutes.Publish | server.js:437 | the projection keeps one entry per user, in order, with the username and no password field |
| UserRoutes.Signup | server.js:319-345 | missing fields give 400; a fault gives 500; a taken name gives 400 with the duplicate message; otherwise 201 and exactly one record is appended whose hash verifies the password; the session and posts never change |
| UserRoutes.Login | server.js:381-411 | missing fields 400; fault 500; unknown user 401 with the no-such-user message; wrong password 401 with the wrong-password message; 200 exactly when the lookup finds a record whose hash verifies the password, with a body of only the username, and the session is set to that very record |
| UserRoutes.ListUsers | server.js:435-443 | 200 with every user's username in the model's append order and no password, or 500 on a fault; the state never changes |
| UserRoutes.FindUniqueUser | server.js:390 | with distinct usernames the lookup returns the one record with the name |
| UserRoutes.SignupThenLogin | server.js:334-406 | after a successful signup, login with the same credentials succeeds, and the body carries only the username |
| UserRoutes.LoginSucceedsIff | server.js:390-404 | with distinct usernames, login succeeds exactly when some stored user has the name and the password verifies against that user's hash |
| UserRoutes.SignupThenListUsers | server.js:338-437 | after a successful signup the users listing is the previous listing with the new username appended, in the model's append order |
| UserRoutes.ListedUsernamesDistinct | server.js:437-438 | with distinct usernames the users listing has no repeated entry |
| SessionRoutes.CheckLogin | server.js:15-24 | without a session the gate answers 401 with the same body whatever the handler is; with a session it answers what the handler answers |
| SessionRoutes.Greeting | server.js:508 | the greeting is the fixed prefix, then the username, then the fixed suffix |
| SessionRoutes.WelcomeHandler | server.js:505-514 | with a session the handler answers 200 with a message containing the session user's name |
| SessionRoutes.Welcome | server.js:505-509 | the gated route answers 200 exactly when there is a session, with a greeting containing the session user's name, and 401 otherwise; the state never changes |
| SessionRoutes.GateMakesElseBranchRedundant | server.js:510-512 | the handler's own 401 branch answers the same as the gate, so the gated route and the bare handler agree |
| SessionRoutes.Logout | server.js:465-475 | success gives 200 and an empty session; a destroy fault gives 500; posts and users never change |
| SessionRoutes.WelcomeAfterLogout | server.js:467-473 | after a successful logout, /welcome answers 401 |
| Server.Handle | server.js:79-514 | routes each request by its kind (in the body); the contract bounds the answers: every answer carries one of the status codes the routes use, 401 only from login or the welcome gate, and 201 only from create or signup |
| Server.SignupPreservesValid | server.js:327-338 | a signup keeps usernames distinct and keeps the session a stored user |
| Server.HandlePreservesValid | server.js:79-514 | every route preserves the state invariant |
| Server.RunPreservesValid | server.js:323-338 | the invariant holds after any sequence of requests, so any run of signups keeps usernames distinct |
| Model.Init | server.js:42-51 | a fixture, not source behaviour: empty collections and no session form a valid state |
| Server.RunFromStartValid | server.js:323-338 | starting from an empty database and no session, the invariant holds after any run of requests |
| Server.RoutesFrame | server.js:110-475 | only the create, update and delete routes change posts; only signup changes users; only login and logout change the session |
| Server.WelcomeGreetsStoredUser | server.js:404-508 | from a valid state, a 200 from /welcome greets a stored user |
| Server.AccountLifecycle | server.js:319-514 | signup, repeated signup, wrong-password login, login, welcome, logout, welcome answer 201, 400, 401, 200, 200, 200, 401 |

## Left out

- Hash: bcrypt reads only the first 72 UTF-8 bytes of a password; the model compares whole passwords. Two passwords that share their first 72 bytes (24 Korean syllables, say) log in alike in the source but not in the model. So Hash, Verify, the wrong-password branch of Login and LoginSucceedsIff match the source only for passwords of at most 72 bytes.
- ListUsers: the source's unsorted `find({}, {projection: {password: 0}}).toArray()` (server.js:437) promises no order. The model lists users in the order they were appended, so SignupThenListUsers places the new name last because of that choice.
- Init: the server connects to a database that persists across restarts (server.js:45-47). `Init` is an empty-database fixture, and RunFromStartValid is stated from that start only.
- ListPosts: the source's unsorted `find({}).toArray()` (server.js:81) promises no order. The model fixes the order to ascending id, which is one of the orders the source may return.
- The static `GET /` greeting (server.js:63-65): it returns a constant body and touches no state.
- Express wiring, the session middleware configuration, `app.listen` and the asynchronous MongoDB connection (server.js:1-12, server.js:26-51): these are bootstrap and I/O.
- swagger.js and the `/api-docs` mount: they only generate documentation.
- bcrypt internals: salting, the work factor and constant-time comparison. Only the hash/verify facts are modelled.
- Which strings `new ObjectId(...)` accepts is decided by the bson library, so the route parameter arrives already classified as well-formed or malformed.
- CreateContent: a fault is modelled only on the first store call. In the source, `insertOne` can succeed and then the re-read `findOne` can fail; that answers 500 with the post already stored.
- UpdateContent: a fault on the re-read after a successful `updateOne` is not modelled. Neither is a re-read that finds nothing because of a concurrent delete.
- Logout: the model keeps the session when destruction fails, because the library does not promise what is left behind.
- Non-string JSON field values are not modelled; fields here are strings or absent. What happens to them in the source depends on the route:
  - Non-zero numbers, `true`, objects and arrays are truthy. On the post routes they would be stored as they are.
  - `0`, `false` and `null` are falsy, so they answer 400 at the presence checks (server.js:161, 262, 323, 385).
  - A truthy non-string password that reaches `bcrypt.hash` or `bcrypt.compare` makes it reject (server.js:334, server.js:397). The route then answers 500 and stores nothing. Signup with a taken username answers 400 earlier (server.js:329-330). Login with an unknown username answers 401 earlier (server.js:392-393).
  - An object username such as `{"$ne": ""}` is used by `findOne({username})` as a query operator, not as a value (server.js:328, server.js:390).
- The `_id` field of user documents is not modelled. It appears in the `/users` listing and in the session record.
- Sessions of other clients are not modelled. The state holds one session slot, that of the requesting client.
- The check-then-insert race between concurrent signups is not modelled. The model handles one request at a time, so only the sequential uniqueness invariant is proved.
- The text logged by `console.error` is not modelled.
