/** The blog routes (`controllers/blogs.js`) as operations on a store that
    holds the blog collection and the user documents with their `blogs`
    back-reference lists. */
module BlogsController {
  import opened Wrappers

  /** Blog ids are handed out by the store; user ids come from tokens. */
  type BlogId = nat
  type UserId = string

  /** The content fields a request body supplies. */
  datatype Fields = Fields(title: string, author: string, url: string, likes: int)

  /** A stored blog: its content and the id of its owner. */
  datatype Blog = Blog(title: string, author: string, url: string, likes: int, user: UserId)

  /** A stored user document. */
  datatype User = User(username: string, name: string, blogs: seq<BlogId>)

  /** The user document the handlers find in `request.user`. */
  datatype RequestUser = RequestUser(id: UserId, username: string, name: string, blogs: seq<BlogId>)

  /** `.populate('user', { username: 1, name: 1 })`: the owner's id, username and name. */
  datatype Owner = Owner(id: UserId, username: string, name: string)

  /** A blog as `GET /` lists it; `user` is `null` when the owner document is gone. */
  datatype Listed = Listed(id: BlogId, title: string, author: string, url: string, likes: int, user: Option<Owner>)

  datatype Body =
    | NoContent
    | ErrorBody(error: string)
    | BlogBody(id: BlogId, blog: Blog)
    | NullBody
    | ListBody(blogs: seq<Listed>)

  datatype Reply = Reply(status: nat, body: Body)

  /** The Ownership check of `DELETE /:id`: the blog's owner is the requester. */
  predicate IsOwner(user: RequestUser, blog: Blog)
  {
    blog.user == user.id
  }

  /** `.populate` of one stored blog: the owner's id, username and name
      replace the owner reference, or `null` when no such user document exists. */
  function Populate(id: BlogId, blog: Blog, users: map<UserId, User>): Listed
  {
    var owner := if blog.user in users then Some(Owner(blog.user, users[blog.user].username, users[blog.user].name)) else None;
    Listed(id, blog.title, blog.author, blog.url, blog.likes, owner)
  }

  /** `order` without `id`. */
  function Without(order: seq<BlogId>, id: BlogId): (r: seq<BlogId>)
    ensures forall x :: x in r <==> x in order && x != id
    ensures (forall i, j :: 0 <= i < j < |order| ==> order[i] != order[j]) ==>
              forall i, j :: 0 <= i < j < |r| ==> r[i] != r[j]
  {
    if order == [] then []
    else if order[0] == id then Without(order[1..], id)
    else
      var rest := Without(order[1..], id);
      assert (forall i, j :: 0 <= i < j < |order| ==> order[i] != order[j]) ==> order[0] !in order[1..] by {
        if order[0] in order[1..] {
          var m :| 0 <= m < |order[1..]| && order[1..][m] == order[0];
          assert order[m + 1] == order[0];
        }
      }
      [order[0]] + rest
  }

  class BlogStore {
    /** The blog collection. */
    var blogs: map<BlogId, Blog>
    /** Storage (insertion) order of the blog collection. */
    var order: seq<BlogId>
    /** The user collection. */
    var users: map<UserId, User>
    /** Every id handed out so far is below this one. */
    var nextId: BlogId

    /** The storage order lists each stored blog once, every stored id was
        handed out, and every stored blog's owner has a user document (so
        listing always expands the owner). */
    ghost predicate Valid()
      reads this
    {
      && (forall i, j :: 0 <= i < j < |order| ==> order[i] != order[j])
      && (forall id :: id in blogs <==> id in order)
      && (forall id :: id in blogs ==> id < nextId)
      && (forall id :: id in blogs ==> blogs[id].user in users)
    }

    /** An empty blog collection beside the already registered users. */
    constructor (users: map<UserId, User>)
      ensures Valid()
      ensures blogs == map[] && order == [] && this.users == users
    {
      blogs := map[];
      order := [];
      this.users := users;
      nextId := 0;
    }

    /** `GET /`: every stored blog in storage order, owner populated; reads only. */
    method List() returns (reply: Reply)
      requires Valid()
      ensures reply.status == 200 && reply.body.ListBody?
      ensures |reply.body.blogs| == |order|
      ensures forall i :: 0 <= i < |order| ==>
                reply.body.blogs[i] == Populate(order[i], blogs[order[i]], users)
      ensures forall id :: id in blogs <==> exists i :: 0 <= i < |reply.body.blogs| && reply.body.blogs[i].id == id
      ensures forall i :: 0 <= i < |reply.body.blogs| ==> reply.body.blogs[i].user.Some?
    {
      var listed: seq<Listed> := [];
      for i := 0 to |order|
        invariant |listed| == i
        invariant forall k :: 0 <= k < i ==> listed[k] == Populate(order[k], blogs[order[k]], users)
      {
        listed := listed + [Populate(order[i], blogs[order[i]], users)];
      }
      reply := Reply(200, ListBody(listed));
      forall id | id in blogs
        ensures exists i :: 0 <= i < |listed| && listed[i].id == id
      {
        var i :| 0 <= i < |order| && order[i] == id;
        assert listed[i].id == id;
      }
    }

    /** `POST /`: 401 without a user; otherwise the blog is saved with the
        requester as owner and its id is appended to the requester's `blogs`,
        and the user document is saved. */
    method Create(user: Option<RequestUser>, body: Fields) returns (reply: Reply)
      requires Valid()
      modifies this
      ensures Valid()
      ensures user.None? ==>
                && reply == Reply(401, ErrorBody("token invalid"))
                && blogs == old(blogs) && order == old(order) && users == old(users)
      ensures user.Some? ==>
                var id := old(nextId);
                var u := user.value;
                && id !in old(blogs)
                && blogs == old(blogs)[id := Blog(body.title, body.author, body.url, body.likes, u.id)]
                && |blogs| == |old(blogs)| + 1
                && order == old(order) + [id]
                && users == old(users)[u.id := User(u.username, u.name, u.blogs + [id])]
                && reply == Reply(201, BlogBody(id, blogs[id]))
    {
      if user.None? {
        return Reply(401, ErrorBody("token invalid"));
      }
      var u := user.value;
      var id := nextId;
      var blog := Blog(body.title, body.author, body.url, body.likes, u.id);
      blogs := blogs[id := blog];
      order := order + [id];
      nextId := nextId + 1;
      users := users[u.id := User(u.username, u.name, u.blogs + [id])];
      reply := Reply(201, BlogBody(id, blog));
    }

    /** `DELETE /:id`: 401 without a user, then 404 for an unknown id, then
        403 for a non-owner, and only then 204 with the blog removed. */
    method Delete(user: Option<RequestUser>, id: BlogId) returns (reply: Reply)
      requires Valid()
      modifies this
      ensures Valid()
      ensures users == old(users) && nextId == old(nextId)
      ensures user.None? ==>
                reply == Reply(401, ErrorBody("token invalid")) && blogs == old(blogs) && order == old(order)
      ensures user.Some? && id !in old(blogs) ==>
                reply == Reply(404, ErrorBody("blog not found")) && blogs == old(blogs) && order == old(order)
      ensures user.Some? && id in old(blogs) && !IsOwner(user.value, old(blogs)[id]) ==>
                && reply == Reply(403, ErrorBody("user is not allowed to delete this blog"))
                && blogs == old(blogs) && order == old(order)
      ensures user.Some? && id in old(blogs) && IsOwner(user.value, old(blogs)[id]) ==>
                && reply == Reply(204, NoContent)
                && blogs == old(blogs) - {id}
                && order == Without(old(order), id)
    {
      if user.None? {
        return Reply(401, ErrorBody("token invalid"));
      }
      if id !in blogs {
        return Reply(404, ErrorBody("blog not found"));
      }
      if !IsOwner(user.value, blogs[id]) {
        return Reply(403, ErrorBody("user is not allowed to delete this blog"));
      }
      blogs := blogs - {id};
      order := Without(order, id);
      reply := Reply(204, NoContent);
    }

    /** `PUT /:id`: no authentication; overwrites the four content fields and
        answers with the updated blog, or with `null` when there is none. */
    method Update(id: BlogId, body: Fields) returns (reply: Reply)
      requires Valid()
      modifies this
      ensures Valid()
      ensures order == old(order) && users == old(users) && nextId == old(nextId)
      ensures id !in old(blogs) ==> blogs == old(blogs) && reply == Reply(200, NullBody)
      ensures id in old(blogs) ==>
                && blogs == old(blogs)[id := Blog(body.title, body.author, body.url, body.likes, old(blogs)[id].user)]
                && reply == Reply(200, BlogBody(id, blogs[id]))
    {
      if id !in blogs {
        return Reply(200, NullBody);
      }
      var updated := Blog(body.title, body.author, body.url, body.likes, blogs[id].user);
      blogs := blogs[id := updated];
      reply := Reply(200, BlogBody(id, updated));
    }
  }

  /** A client of the store: only the owner may delete, and creating then
      deleting as the owner leaves the blog collection as it was. */
  method OwnershipScenario(alice: RequestUser, bob: RequestUser, body: Fields)
    requires alice.id != bob.id
  {
    var store := new BlogStore(map[]);
    var before := store.blogs;
    var created := store.Create(Some(alice), body);
    var id := created.body.id;
    assert store.blogs[id].user == alice.id;
    var denied := store.Delete(Some(bob), id);
    assert denied.status == 403 && id in store.blogs;
    var anonymous := store.Delete(None, id);
    assert anonymous.status == 401;
    var deleted := store.Delete(Some(alice), id);
    assert deleted.status == 204 && store.blogs == before;
    var gone := store.Delete(Some(alice), id);
    assert gone.status == 404;
  }
}
