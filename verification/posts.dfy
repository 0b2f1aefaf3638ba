/** The post routes: GET /list, GET /content/:id, POST /content,
    PUT /content/:id and DELETE /content/:id.

    Each `fault` flag stands for the first database call of the route throwing;
    the state is then unchanged and the route answers 500. */
module PostRoutes {
  import opened Wrappers
  import opened Model

  predicate IsLeast(k: ObjectId, keys: set<ObjectId>)
  {
    k in keys && forall j :: j in keys ==> k <= j
  }

  lemma {:induction false} LeastExists(keys: set<ObjectId>)
    requires keys != {}
    ensures exists k :: IsLeast(k, keys)
  {
    var x :| x in keys;
    if keys != {x} {
      LeastExists(keys - {x});
      var m :| IsLeast(m, keys - {x});
      assert forall j :: j in keys ==> j == x || j in keys - {x};
      if x < m {
        assert IsLeast(x, keys);
      } else {
        assert IsLeast(m, keys);
      }
    } else {
      assert IsLeast(x, keys);
    }
  }

  predicate Ascending(ids: seq<ObjectId>)
  {
    forall i, j :: 0 <= i < j < |ids| ==> ids[i] < ids[j]
  }

  /** The ids in `keys`, each once, in ascending order. The unsorted query of the
      list route promises no order; the model fixes it to ascending id. */
  function SortedIds(keys: set<ObjectId>): (r: seq<ObjectId>)
    ensures |r| == |keys|
    ensures forall id :: id in r <==> id in keys
    ensures Ascending(r)
    decreases |keys|
  {
    if keys == {} then []
    else
      LeastExists(keys);
      assert forall a, b :: IsLeast(a, keys) && IsLeast(b, keys) ==> a == b;
      var k: ObjectId :| IsLeast(k, keys);
      var rest := SortedIds(keys - {k});
      PrependLeast(k, keys, rest);
      [k] + rest
  }

  /** Putting the least key in front of a sorted listing of the others gives a
      sorted listing of all keys. */
  lemma PrependLeast(k: ObjectId, keys: set<ObjectId>, rest: seq<ObjectId>)
    requires IsLeast(k, keys)
    requires |rest| == |keys - {k}|
    requires forall id :: id in rest <==> id in keys - {k}
    requires Ascending(rest)
    ensures |[k] + rest| == |keys|
    ensures forall id :: id in [k] + rest <==> id in keys
    ensures Ascending([k] + rest)
  {
    var r := [k] + rest;
    forall i, j | 0 <= i < j < |r|
      ensures r[i] < r[j]
    {
      assert r[j] == rest[j - 1];
      assert r[j] in keys - {k};
      if i > 0 {
        assert r[i] == rest[i - 1];
      }
    }
  }

  /** Every stored post, each once, in ascending id order. */
  function Listing(posts: map<ObjectId, Entry>): (r: seq<Post>)
    ensures |r| == |posts|
    ensures forall p: Post :: p in r <==> p.id in posts && p == AsPost(p.id, posts[p.id])
    ensures forall i, j :: 0 <= i < j < |r| ==> r[i].id < r[j].id
  {
    var ids := SortedIds(posts.Keys);
    var r := seq(|ids|, i requires 0 <= i < |ids| => AsPost(ids[i], posts[ids[i]]));
    assert forall p: Post :: p.id in posts && p == AsPost(p.id, posts[p.id]) ==> p in r by {
      forall p: Post | p.id in posts && p == AsPost(p.id, posts[p.id])
        ensures p in r
      {
        var i :| 0 <= i < |ids| && ids[i] == p.id;
        assert r[i] == p;
      }
    }
    r
  }

  /** GET /list: every stored post, or 500 when the query fails. */
  function ListPosts(s: State, fault: bool): (r: Step)
    ensures r.next == s
    ensures fault ==> r == Fail(s, StatusServerError, DbError)
    ensures !fault ==> r.status == StatusOk && r.body.PostsBody?
    ensures !fault ==> |r.body.posts| == |s.posts|
    ensures !fault ==> forall p :: p in r.body.posts <==> p.id in s.posts && p == AsPost(p.id, s.posts[p.id])
    ensures !fault ==> forall i, j :: 0 <= i < j < |r.body.posts| ==> r.body.posts[i].id < r.body.posts[j].id
  {
    if fault then Fail(s, StatusServerError, DbError)
    else Step(StatusOk, PostsBody(Listing(s.posts)), s)
  }

  /** GET /content/:id. A malformed id makes the ObjectId constructor throw inside
      the try block, so it answers 500 like a database fault, not 404. */
  function GetContent(s: State, id: PathId, fault: bool): (r: Step)
    ensures r.next == s
    ensures r.status == StatusOk <==> id.WellFormed? && !fault && id.oid in s.posts
    ensures r.status == StatusOk ==> r.body == PostBody(AsPost(id.oid, s.posts[id.oid]))
    ensures r.status == StatusNotFound <==> id.WellFormed? && !fault && id.oid !in s.posts
    ensures r.status == StatusNotFound ==> r.body == ErrorBody(PostNotFound)
    ensures r.status == StatusServerError <==> id.Malformed? || fault
    ensures r.status == StatusServerError ==> r.body == ErrorBody(DbError)
  {
    match id
    case Malformed(_) => Fail(s, StatusServerError, DbError)
    case WellFormed(oid) =>
      if fault then Fail(s, StatusServerError, DbError)
      else if oid !in s.posts then Fail(s, StatusNotFound, PostNotFound)
      else Step(StatusOk, PostBody(AsPost(oid, s.posts[oid])), s)
  }

  /** POST /content: insert `{title, content}` under a newly issued id and answer
      with the document as it reads back from the store. */
  function CreateContent(s: State, title: Field, content: Field, fault: bool): (r: Step)
    ensures !(Present(title) && Present(content)) ==> r == Fail(s, StatusBadRequest, FieldsRequired)
    ensures Present(title) && Present(content) && fault ==> r == Fail(s, StatusServerError, DbError)
    ensures r.status == StatusCreated <==> Present(title) && Present(content) && !fault
    ensures r.status == StatusCreated ==>
      && r.body.PostBody?
      && r.body.post.title == title.value
      && r.body.post.content == content.value
      && r.next.posts == s.posts[r.body.post.id := Entry(title.value, content.value)]
      && r.body.post.id < r.next.nextId
      && r.next.users == s.users
      && r.next.session == s.session
    ensures Valid(s) && r.status == StatusCreated ==> r.body.post.id !in s.posts && Valid(r.next)
  {
    if !Present(title) || !Present(content) then Fail(s, StatusBadRequest, FieldsRequired)
    else if fault then Fail(s, StatusServerError, DbError)
    else
      var id := s.nextId;
      var e := Entry(title.value, content.value);
      Step(StatusCreated, PostBody(AsPost(id, e)), s.(posts := s.posts[id := e], nextId := id + 1))
  }

  /** PUT /content/:id: the fields are checked before the id is parsed, so missing
      fields win over a malformed id. A match replaces both fields wholesale. */
  function UpdateContent(s: State, id: PathId, title: Field, content: Field, fault: bool): (r: Step)
    ensures !(Present(title) && Present(content)) ==> r == Fail(s, StatusBadRequest, FieldsRequired)
    ensures Present(title) && Present(content) && (id.Malformed? || fault) ==> r == Fail(s, StatusServerError, DbError)
    ensures r.status == StatusNotFound <==> Present(title) && Present(content) && id.WellFormed? && !fault && id.oid !in s.posts
    ensures r.status == StatusNotFound ==> r == Fail(s, StatusNotFound, PostNotFound)
    ensures r.status == StatusOk <==> Present(title) && Present(content) && id.WellFormed? && !fault && id.oid in s.posts
    ensures r.status == StatusOk ==>
      && r.body == PostBody(Post(id.oid, title.value, content.value))
      && r.next.posts.Keys == s.posts.Keys
      && r.next.posts[id.oid] == Entry(title.value, content.value)
      && (forall k :: k in s.posts && k != id.oid ==> r.next.posts[k] == s.posts[k])
      && r.next.nextId == s.nextId && r.next.users == s.users && r.next.session == s.session
  {
    if !Present(title) || !Present(content) then Fail(s, StatusBadRequest, FieldsRequired)
    else match id
      case Malformed(_) => Fail(s, StatusServerError, DbError)
      case WellFormed(oid) =>
        if fault then Fail(s, StatusServerError, DbError)
        else if oid !in s.posts then Fail(s, StatusNotFound, PostNotFound)
        else
          var e := Entry(title.value, content.value);
          var s' := s.(posts := s.posts[oid := e]);
          Step(StatusOk, PostBody(AsPost(oid, s'.posts[oid])), s')
  }

  /** DELETE /content/:id: 204 with no body when one document was removed. */
  function DeleteContent(s: State, id: PathId, fault: bool): (r: Step)
    ensures r.status == StatusNoContent <==> id.WellFormed? && !fault && id.oid in s.posts
    ensures r.status == StatusNoContent ==>
      && r.body == NoBody
      && r.next.posts.Keys == s.posts.Keys - {id.oid}
      && (forall k :: k in r.next.posts ==> r.next.posts[k] == s.posts[k])
      && r.next.nextId == s.nextId && r.next.users == s.users && r.next.session == s.session
    ensures r.status == StatusNotFound <==> id.WellFormed? && !fault && id.oid !in s.posts
    ensures r.status == StatusNotFound ==> r.body == ErrorBody(PostNotFound)
    ensures r.status == StatusServerError <==> id.Malformed? || fault
    ensures r.status == StatusServerError ==> r.body == ErrorBody(DbError)
    ensures r.status != StatusNoContent ==> r.next == s
  {
    match id
    case Malformed(_) => Fail(s, StatusServerError, DbError)
    case WellFormed(oid) =>
      if fault then Fail(s, StatusServerError, DbError)
      else if oid !in s.posts then Fail(s, StatusNotFound, PostNotFound)
      else Step(StatusNoContent, NoBody, s.(posts := s.posts - {oid}))
  }

  /** A created post reads back unchanged through GET /content/:id. */
  lemma CreateThenGet(s: State, title: Field, content: Field)
    requires Present(title) && Present(content)
    ensures var c := CreateContent(s, title, content, false);
      && c.status == StatusCreated
      && GetContent(c.next, WellFormed(c.body.post.id), false) == Step(StatusOk, c.body, c.next)
  {
  }

  /** Deleting is idempotent in what it reports: after any delete of an id without
      a fault, a second delete of the same id finds nothing. */
  lemma DeleteTwiceNotFound(s: State, oid: ObjectId)
    ensures var d := DeleteContent(s, WellFormed(oid), false);
      && (d.status == StatusNoContent || d.status == StatusNotFound)
      && DeleteContent(d.next, WellFormed(oid), false) == Fail(d.next, StatusNotFound, PostNotFound)
  {
  }

  /** Create, read, delete, read again: 201, 200 with the same body, 204, 404. */
  lemma PostLifecycle(s: State, title: string, content: string)
    requires title != "" && content != ""
    ensures var c := CreateContent(s, Some(title), Some(content), false);
      var id := WellFormed(c.body.post.id);
      var g := GetContent(c.next, id, false);
      var d := DeleteContent(c.next, id, false);
      var g2 := GetContent(d.next, id, false);
      && c.status == StatusCreated && c.body.post.title == title && c.body.post.content == content
      && g.status == StatusOk && g.body == c.body
      && d.status == StatusNoContent
      && g2.status == StatusNotFound
  {
  }

  /** A successful update reads back with the new fields through GET /content/:id. */
  lemma UpdateThenGet(s: State, oid: ObjectId, title: string, content: string)
    requires title != "" && content != ""
    requires oid in s.posts
    ensures var u := UpdateContent(s, WellFormed(oid), Some(title), Some(content), false);
      && u.status == StatusOk
      && GetContent(u.next, WellFormed(oid), false) == Step(StatusOk, u.body, u.next)
  {
  }

  /** GET /list and GET /content/:id agree: a post is listed exactly when reading
      its id answers 200 with that post. */
  lemma ListAgreesWithGet(s: State, p: Post)
    ensures p in ListPosts(s, false).body.posts <==> GetContent(s, WellFormed(p.id), false) == Step(StatusOk, PostBody(p), s)
  {
  }
}
