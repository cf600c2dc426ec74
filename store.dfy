/** The document store both controllers work on: the Post and User collections, the
    "posts" broadcast channel (as an append-only event log) and the image files that
    were unlinked (as an append-only log of paths). */
module Store {

  type PostId = nat
  type UserId = nat

  datatype Option<+T> = None | Some(value: T)

  /** One entry of the validator's error list (field name and message). */
  datatype FieldError = FieldError(param: string, msg: string)

  /** A handler's outcome: the success value, or the error's HTTP status code, its
      message and the `data` attached to it. */
  datatype Result<+T> = Ok(value: T) | Err(status: int, message: string, data: seq<FieldError>)

  /** Status code the handlers' catch blocks give any error that carries none. */
  const ServerError := 500
  /** Stand-in for the text of a runtime error (a property read on `null`, a duplicate
      key reported by the store); the text itself is not modelled. */
  const InternalMessage := "Internal server error"

  /** A bcrypt digest; only the hash function of the model produces one. */
  datatype Digest = Digest(value: string)

  datatype Post = Post(title: string, content: string, imageUrl: string, creator: UserId, createdAt: int)

  datatype User = User(email: string, name: string, password: Digest, status: string, posts: seq<PostId>)

  /** A post together with its id, as the handlers return and broadcast it. */
  datatype PostEntry = PostEntry(id: PostId, post: Post)

  /** The creator descriptor `{id, name}` embedded in a create event. */
  datatype CreatorRef = CreatorRef(id: UserId, name: string)

  /** The payloads emitted on the "posts" channel. */
  datatype Event =
    | Created(entry: PostEntry, creator: CreatorRef)
    | Updated(entry: PostEntry)
    | Deleted(postId: PostId)

  /** No two users share an email: the store's unique index on `email`. */
  ghost predicate EmailsUnique(users: map<UserId, User>) {
    forall a, b :: a in users && b in users && users[a].email == users[b].email ==> a == b
  }

  /** Every id a user lists is a stored post created by that user. */
  ghost predicate ListsOwnPosts(posts: map<PostId, Post>, users: map<UserId, User>) {
    forall u, id :: u in users && id in users[u].posts ==> id in posts && posts[id].creator == u
  }

  /** Every stored post's creator exists and lists it. */
  ghost predicate CreatorsListPosts(posts: map<PostId, Post>, users: map<UserId, User>) {
    forall id :: id in posts ==> posts[id].creator in users && id in users[posts[id].creator].posts
  }

  /** The two collections agree: a user lists exactly the posts whose creator it is. */
  ghost predicate Linked(posts: map<PostId, Post>, users: map<UserId, User>) {
    ListsOwnPosts(posts, users) && CreatorsListPosts(posts, users)
  }

  /** Mongoose's `pull(x)` on an array: every element equal to `x` is removed. */
  function Pull(s: seq<PostId>, x: PostId): (r: seq<PostId>)
    ensures multiset(r) == multiset(s)[x := 0]
    ensures x !in s ==> r == s
  {
    if s == [] then []
    else if s[0] == x then
      assert s == [s[0]] + s[1..];
      Pull(s[1..], x)
    else
      assert s == [s[0]] + s[1..];
      [s[0]] + Pull(s[1..], x)
  }

  /** `pull` keeps the order of what remains: pulling from two concatenated lists is
      pulling from each and concatenating the results. */
  lemma {:induction false} PullConcat(s: seq<PostId>, t: seq<PostId>, x: PostId)
    ensures Pull(s + t, x) == Pull(s, x) + Pull(t, x)
  {
    if s == [] {
      assert s + t == t;
    } else {
      assert (s + t)[0] == s[0];
      assert (s + t)[1..] == s[1..] + t;
      PullConcat(s[1..], t, x);
      if s[0] != x {
        assert [s[0]] + (Pull(s[1..], x) + Pull(t, x)) == ([s[0]] + Pull(s[1..], x)) + Pull(t, x);
      }
    }
  }

  /** On one element, `pull` drops it exactly when it is the pulled id. */
  lemma PullSingleton(y: PostId, x: PostId)
    ensures Pull([y], x) == if y == x then [] else [y]
  {
    assert [y][1..] == [];
  }

  lemma PullMembership(s: seq<PostId>, x: PostId, y: PostId)
    ensures y in Pull(s, x) <==> y in s && y != x
  {
    assert y in Pull(s, x) <==> y in multiset(Pull(s, x));
    assert y in s <==> y in multiset(s);
  }

  /** Appending a fresh post to its existing creator keeps the collections linked. */
  lemma {:induction false} LinkedAfterCreate(posts: map<PostId, Post>, users: map<UserId, User>, id: PostId, post: Post)
    requires Linked(posts, users)
    requires id !in posts && post.creator in users
    ensures var u := users[post.creator];
      Linked(posts[id := post], users[post.creator := u.(posts := u.posts + [id])])
  {
    var u := users[post.creator];
    var posts', users' := posts[id := post], users[post.creator := u.(posts := u.posts + [id])];
    forall v, k | v in users' && k in users'[v].posts
      ensures k in posts' && posts'[k].creator == v
    {
      if v == post.creator && k == id {
      } else {
        assert k in users[v].posts;
      }
    }
    forall k | k in posts'
      ensures posts'[k].creator in users' && k in users'[posts'[k].creator].posts
    {
      if k != id {
        var c := posts[k].creator;
        assert k in users[c].posts;
        if c == post.creator {
          assert users'[c].posts == users[c].posts + [id];
        }
      }
    }
  }

  /** Removing a post and pulling its id from its creator keeps the collections linked. */
  lemma LinkedAfterDelete(posts: map<PostId, Post>, users: map<UserId, User>, id: PostId)
    requires Linked(posts, users) && id in posts
    ensures var c := posts[id].creator; var u := users[c];
      Linked(posts - {id}, users[c := u.(posts := Pull(u.posts, id))])
  {
    var c := posts[id].creator;
    var u := users[c];
    forall k | k in Pull(u.posts, id) ensures k in u.posts && k != id {
      PullMembership(u.posts, id, k);
    }
    DeleteKeepsListsOwn(posts, users, id, c, Pull(u.posts, id));
    DeleteKeepsCreatorsListing(posts, users, id);
  }

  /** Dropping a post, while its creator's list shrinks to ids other than it, keeps every
      listed id a post of the user listing it. */
  lemma {:induction false} DeleteKeepsListsOwn(posts: map<PostId, Post>, users: map<UserId, User>, id: PostId,
                                               c: UserId, list: seq<PostId>)
    requires ListsOwnPosts(posts, users) && c in users && id in posts && posts[id].creator == c
    requires forall k :: k in list ==> k in users[c].posts && k != id
    ensures ListsOwnPosts(posts - {id}, users[c := users[c].(posts := list)])
  {
    var posts', users' := posts - {id}, users[c := users[c].(posts := list)];
    forall v, k | v in users' && k in users'[v].posts
      ensures k in posts' && posts'[k].creator == v
    {
      if v != c {
        assert users'[v] == users[v];
        assert k != id;
      }
    }
  }

  lemma {:induction false} DeleteKeepsCreatorsListing(posts: map<PostId, Post>, users: map<UserId, User>, id: PostId)
    requires Linked(posts, users) && id in posts
    ensures var c := posts[id].creator; var u := users[c];
      CreatorsListPosts(posts - {id}, users[c := u.(posts := Pull(u.posts, id))])
  {
    var c := posts[id].creator;
    var u := users[c];
    var posts', users' := posts - {id}, users[c := u.(posts := Pull(u.posts, id))];
    forall k | k in posts'
      ensures posts'[k].creator in users' && k in users'[posts'[k].creator].posts
    {
      if posts[k].creator == c {
        PullMembership(u.posts, id, k);
      }
    }
  }

  /** The shared store. Ids come from counters, standing in for ObjectId generation. */
  class Db {
    var posts: map<PostId, Post>
    var users: map<UserId, User>
    var events: seq<Event>
    var clearedImages: seq<string>
    var nextPostId: PostId
    var nextUserId: UserId

    /** Every id below its counter, and emails unique. */
    ghost predicate Valid()
      reads this
    {
      && (forall id :: id in posts ==> id < nextPostId)
      && (forall id :: id in users ==> id < nextUserId)
      && EmailsUnique(users)
    }

    /** The consistency invariant between users' post lists and the Post collection. */
    ghost predicate Consistent()
      reads this
    {
      Linked(posts, users)
    }

    constructor ()
      ensures Valid() && Consistent()
      ensures posts == map[] && users == map[] && events == [] && clearedImages == []
      ensures nextPostId == 0 && nextUserId == 0
    {
      posts, users := map[], map[];
      events, clearedImages := [], [];
      nextPostId, nextUserId := 0, 0;
    }
  }
}
