/** Whole request sequences run against a fresh store, with their observable outcome
    stated as postconditions. */
module Scenarios {
  import opened Store
  import opened Feed
  import opened Auth

  /** The post user A (id 0) publishes with an uploaded file "images\x.png". */
  function FirstPost(): Post {
    Post("Title", "Content", "images/x.png", 0, 100)
  }

  /** The upload "images\x.png" is stored as the image of the first post. */
  lemma FirstUploadStored()
    ensures NormalizeImagePath("images\\x.png") == FirstPost().imageUrl
  {
    NormalizeWindowsUpload("images", "x.png");
    assert "images" + "\\" + "x.png" == "images\\x.png";
    assert "images" + "/" + "x.png" == "images/x.png";
  }

  /** Users A and B sign up on an empty store and get ids 0 and 1. */
  method TwoUsers(hash: string -> Digest) returns (db: Db)
    ensures fresh(db) && db.Valid() && db.Consistent()
    ensures db.users == map[0 := NewUser("a@example.com", "A", "secret-a", hash),
                            1 := NewUser("b@example.com", "B", "secret-b", hash)]
    ensures db.posts == map[] && db.nextPostId == 0
    ensures db.events == [] && db.clearedImages == []
  {
    db := new Db();
    var a := Signup(db, [], "a@example.com", "A", "secret-a", hash);
    assert "b@example.com" != "a@example.com";
    var b := Signup(db, [], "b@example.com", "B", "secret-b", hash);
  }

  /** Then A publishes one post from a Windows upload path. */
  method TwoUsersOnePost(hash: string -> Digest) returns (db: Db)
    ensures fresh(db) && db.Valid() && db.Consistent()
    ensures db.users == map[0 := NewUser("a@example.com", "A", "secret-a", hash).(posts := [0]),
                            1 := NewUser("b@example.com", "B", "secret-b", hash)]
    ensures db.posts == map[0 := FirstPost()]
    ensures db.events == [Created(PostEntry(0, FirstPost()), CreatorRef(0, "A"))]
    ensures db.clearedImages == []
  {
    db := TwoUsers(hash);
    ghost var before := db.users;
    FirstUploadStored();
    var created := CreatePost(db, [], 0, "Title", "Content", Some("images\\x.png"), 100);
    var a, b := NewUser("a@example.com", "A", "secret-a", hash), NewUser("b@example.com", "B", "secret-b", hash);
    assert a.posts + [0] == [0];
    assert db.users == before[0 := a.(posts := a.posts + [0])];
    OverwriteFirst(0, 1, a, b, a.(posts := [0]));
  }

  /** Overwriting the first key of a two-key map display. */
  lemma OverwriteFirst<V>(k0: nat, k1: nat, v0: V, v1: V, w: V)
    requires k0 != k1
    ensures map[k0 := v0, k1 := v1][k0 := w] == map[k0 := w, k1 := v1]
  {
    var m, m' := map[k0 := v0, k1 := v1][k0 := w], map[k0 := w, k1 := v1];
    assert m.Keys == m'.Keys;
    assert forall k :: k in m ==> m[k] == m'[k];
  }

  /** A reads the post back; B's edit is refused with 403 and leaves no trace; A's edit to
      "images/y.png" clears the old image and emits one update event. */
  method OwnershipScenario(hash: string -> Digest)
    returns (fetched: Result<PostEntry>, denied: Result<PostEntry>, edited: Result<PostEntry>,
             cleared: seq<string>, events: seq<Event>)
    ensures fetched == Ok(PostEntry(0, FirstPost()))
    ensures denied == Err(403, NotAuthorizedMessage, [])
    ensures edited == Ok(PostEntry(0, FirstPost().(imageUrl := "images/y.png")))
    ensures cleared == [FirstPost().imageUrl]
    ensures events == [Created(PostEntry(0, FirstPost()), CreatorRef(0, "A")), Updated(edited.value)]
  {
    var db := TwoUsersOnePost(hash);
    fetched := GetPost(db.posts, 0);
    denied := UpdatePost(db, [], 1, 0, "Hijacked", "Hijacked", Some("images/z.png"), None);
    ghost var before := db.events;
    edited := UpdatePost(db, [], 0, 0, "Title", "Content", Some("images/y.png"), None);
    assert db.events == before + [Updated(edited.value)];
    cleared, events := db.clearedImages, db.events;
  }

  /** Deleting a missing post fails with 404 and B's delete with 403, both without an
      event; A's delete removes the post and its image, empties A's post list and emits
      one delete event; A can still log in. */
  method DeleteScenario(hash: string -> Digest)
    returns (missing: Result<PostId>, denied: Result<PostId>, deleted: Result<PostId>,
             session: Result<Session>, ownPosts: seq<PostId>, events: seq<Event>, cleared: seq<string>)
    ensures missing == Err(404, PostNotFoundMessage, [])
    ensures denied == Err(403, NotAuthorizedMessage, [])
    ensures deleted == Ok(0)
    ensures session == Ok(Session(Claims("a@example.com", 0, TokenLifetimeSeconds), 0))
    ensures ownPosts == []
    ensures events == [Created(PostEntry(0, FirstPost()), CreatorRef(0, "A")), Deleted(0)]
    ensures cleared == [FirstPost().imageUrl]
  {
    var db := TwoUsersOnePost(hash);
    missing := DeletePost(db, 0, 5);
    denied := DeletePost(db, 1, 0);
    deleted := DeletePost(db, 0, 0);
    assert db.users[0].posts == Pull([0], 0);
    session := Login(db.users, "a@example.com", "secret-a", hash);
    ownPosts, events, cleared := db.users[0].posts, db.events, db.clearedImages;
  }
}
