/** The feed controller: paginated listing, single-post fetch, and the create, update
    and delete handlers, with their ownership checks, their bookkeeping on the
    creator's post list, their broadcasts and the image files they clear. */
module Feed {
  import opened Store

  const PerPage := 2

  const ValidationFailedMessage := "Validation failed , entered data is incorrect."
  const NoImageMessage := "No image provided."
  const NoFilePickedMessage := "No file picked!"
  const PostNotFoundMessage := "Could not find post!"
  const NotAuthorizedMessage := "Not Authorized!"

  /** `path.replace("\\", "/")`. */
  function NormalizeImagePath(path: string): (r: string)
    ensures |r| == |path|
  {
    if path == [] then []
    else if path[0] == '\\' then ['/'] + path[1..]
    else [path[0]] + NormalizeImagePath(path[1..])
  }

  /** Text before the first backslash is left as it is. */
  lemma {:induction false} NormalizeKeepsPrefix(pre: string, rest: string)
    requires '\\' !in pre
    ensures NormalizeImagePath(pre + rest) == pre + NormalizeImagePath(rest)
  {
    if pre != [] {
      assert (pre + rest)[1..] == pre[1..] + rest;
      assert (pre + rest)[0] == pre[0];
      NormalizeKeepsPrefix(pre[1..], rest);
      assert [pre[0]] + (pre[1..] + NormalizeImagePath(rest)) == pre + NormalizeImagePath(rest);
    } else {
      assert pre + rest == rest;
    }
  }

  /** A path without a backslash is stored as it is. */
  lemma NormalizeWithoutBackslash(path: string)
    requires '\\' !in path
    ensures NormalizeImagePath(path) == path
  {
    NormalizeKeepsPrefix(path, []);
    assert path + [] == path;
  }

  /** A string pattern replaces only the FIRST occurrence: the first backslash becomes a
      slash and everything after it, later backslashes included, is kept. */
  lemma NormalizeFirstBackslash(path: string, i: nat)
    requires i < |path| && path[i] == '\\' && '\\' !in path[..i]
    ensures NormalizeImagePath(path) == path[..i] + "/" + path[i + 1..]
  {
    NormalizeKeepsPrefix(path[..i], path[i..]);
    assert path[..i] + path[i..] == path;
    assert path[i..][1..] == path[i + 1..];
  }

  /** A Windows upload path becomes a URL path. */
  lemma NormalizeWindowsUpload(dir: string, name: string)
    requires '\\' !in dir
    ensures NormalizeImagePath(dir + "\\" + name) == dir + "/" + name
  {
    var path := dir + "\\" + name;
    assert path[..|dir|] == dir;
    NormalizeFirstBackslash(path, |dir|);
    assert path[|dir| + 1..] == name;
  }

  /** Of two backslashes only the first is replaced. */
  lemma NormalizeReplacesOnlyFirst()
    ensures NormalizeImagePath("a\\b\\c") == "a/b\\c"
  {
    NormalizeFirstBackslash("a\\b\\c", 1);
    assert "a\\b\\c"[..1] == "a";
    assert "a\\b\\c"[2..] == "b\\c";
  }

  /** The image an update will store: an uploaded file overrides `body.image`; an absent
      `body.image` is as falsy as an empty one. */
  function ImageUrlFor(bodyImage: Option<string>, file: Option<string>): (r: string)
    ensures file.Some? ==> r == NormalizeImagePath(file.value)
    ensures file.Some? ==> |r| == |file.value| && ('\\' !in file.value ==> r == file.value)
    ensures file.None? && bodyImage.Some? ==> r == bodyImage.value
    ensures r == [] <==> if file.Some? then file.value == [] else bodyImage.None? || bodyImage.value == []
  {
    match file
    case Some(path) =>
      assert '\\' !in path ==> NormalizeImagePath(path) == path by {
        if '\\' !in path { NormalizeWithoutBackslash(path); }
      }
      NormalizeImagePath(path)
    case None => if bodyImage.Some? then bodyImage.value else ""
  }

  // ---------------------------------------------------------------- reading

  /** `sort({createdAt: -1})` as a total order: newer first, and among posts created at
      the same instant, the larger id first. */
  predicate NewerOrSame(posts: map<PostId, Post>, a: PostId, b: PostId)
    requires a in posts && b in posts
  {
    posts[a].createdAt > posts[b].createdAt
    || (posts[a].createdAt == posts[b].createdAt && a >= b)
  }

  predicate IsNewest(posts: map<PostId, Post>, ids: set<PostId>, id: PostId)
    requires ids <= posts.Keys
  {
    id in ids && forall k :: k in ids ==> NewerOrSame(posts, id, k)
  }

  lemma {:induction false} NewestExists(posts: map<PostId, Post>, ids: set<PostId>)
    requires ids <= posts.Keys && ids != {}
    ensures exists id :: IsNewest(posts, ids, id)
    decreases |ids|
  {
    var x :| x in ids;
    if ids != {x} {
      NewestExists(posts, ids - {x});
      var m :| IsNewest(posts, ids - {x}, m);
      if NewerOrSame(posts, x, m) {
        forall k | k in ids ensures NewerOrSame(posts, x, k) {
          if k != x {
            assert NewerOrSame(posts, m, k);
          }
        }
        assert IsNewest(posts, ids, x);
      } else {
        assert IsNewest(posts, ids, m);
      }
    } else {
      assert IsNewest(posts, ids, x);
    }
  }

  /** The ids in `ids`, each once, newest first. */
  function NewestFirst(posts: map<PostId, Post>, ids: set<PostId>): (r: seq<PostId>)
    requires ids <= posts.Keys
    ensures |r| == |ids|
    ensures forall k :: k in r <==> k in ids
    ensures r != [] ==> IsNewest(posts, ids, r[0])
    decreases |ids|
  {
    if ids == {} then []
    else
      NewestExists(posts, ids);
      var id :| IsNewest(posts, ids, id);
      [id] + NewestFirst(posts, ids - {id})
  }

  /** The listing order holds each post once, and never an older post before a newer one. */
  lemma {:induction false} NewestFirstSorted(posts: map<PostId, Post>, ids: set<PostId>)
    requires ids <= posts.Keys
    ensures forall i, j :: 0 <= i < j < |NewestFirst(posts, ids)| ==>
      NewestFirst(posts, ids)[i] != NewestFirst(posts, ids)[j]
      && NewerOrSame(posts, NewestFirst(posts, ids)[i], NewestFirst(posts, ids)[j])
    decreases |ids|
  {
    var r := NewestFirst(posts, ids);
    if r != [] {
      var tail := r[1..];
      assert tail == NewestFirst(posts, ids - {r[0]});
      NewestFirstSorted(posts, ids - {r[0]});
      forall i, j | 0 <= i < j < |r| ensures r[i] != r[j] && NewerOrSame(posts, r[i], r[j]) {
        assert r[j] == tail[j - 1];
        if i > 0 {
          assert r[i] == tail[i - 1];
        } else {
          assert r[j] in ids - {r[0]};
        }
      }
    }
  }

  /** `req.query.page || 1`. */
  function CurrentPage(page: Option<int>): (r: int)
    ensures page.None? ==> r == 1
    ensures page.Some? ==> r == page.value
  {
    match page
    case None => 1
    case Some(p) => p
  }

  /** The `skip` of the query. */
  function Skip(page: Option<int>): int {
    (CurrentPage(page) - 1) * PerPage
  }

  /** The skip is a whole number of pages, non-negative exactly from page 1 on, and 0 when
      the query gives no page. */
  lemma SkipWindow(page: Option<int>)
    ensures Skip(page) % PerPage == 0
    ensures Skip(page) >= 0 <==> CurrentPage(page) >= 1
    ensures page.None? ==> Skip(page) == 0
  {
  }

  function Min(a: int, b: int): int {
    if a <= b then a else b
  }

  /** The posts at positions `lo` to `hi - 1` of `order`, with their ids. */
  function Entries(posts: map<PostId, Post>, order: seq<PostId>, lo: nat, hi: nat): (r: seq<PostEntry>)
    requires lo <= hi <= |order|
    requires forall i :: 0 <= i < |order| ==> order[i] in posts
    ensures |r| == hi - lo
    ensures forall i :: 0 <= i < |r| ==> r[i].id == order[lo + i] && r[i].post == posts[order[lo + i]]
  {
    seq(hi - lo, i requires 0 <= i < hi - lo => PostEntry(order[lo + i], posts[order[lo + i]]))
  }

  datatype PostPage = PostPage(posts: seq<PostEntry>, totalItems: nat)

  /** `getPosts`: the window of at most two posts that starts at `(page - 1) * 2` in the
      newest-first order, and the total number of posts. The store refuses a negative
      skip, which ends in the catch block's 500. */
  function GetPosts(posts: map<PostId, Post>, page: Option<int>): (r: Result<PostPage>)
    ensures r.Err? <==> Skip(page) < 0
    ensures r.Err? ==> r.status == ServerError
    ensures r.Ok? ==> r.value.totalItems == |posts|
    ensures r.Ok? ==> |r.value.posts| == if Skip(page) >= |posts| then 0 else Min(PerPage, |posts| - Skip(page))
    ensures r.Ok? ==> forall i :: 0 <= i < |r.value.posts| ==>
              && Skip(page) + i < |posts|
              && r.value.posts[i].id == NewestFirst(posts, posts.Keys)[Skip(page) + i]
              && r.value.posts[i].id in posts
              && r.value.posts[i].post == posts[r.value.posts[i].id]
  {
    var k := Skip(page);
    if k < 0 then Err(ServerError, InternalMessage, [])
    else
      var order := NewestFirst(posts, posts.Keys);
      assert |order| == |posts|;
      Ok(PostPage(Entries(posts, order, Min(k, |order|), Min(k + PerPage, |order|)), |posts|))
  }

  /** Across the whole listing, an earlier page or an earlier slot never holds an older post. */
  lemma {:induction false} GetPostsOrdered(posts: map<PostId, Post>, p: int, q: int, i: nat, j: nat)
    requires GetPosts(posts, Some(p)).Ok? && GetPosts(posts, Some(q)).Ok?
    requires i < |GetPosts(posts, Some(p)).value.posts| && j < |GetPosts(posts, Some(q)).value.posts|
    requires p < q || (p == q && i < j)
    ensures var a, b := GetPosts(posts, Some(p)).value.posts[i].id, GetPosts(posts, Some(q)).value.posts[j].id;
      a != b && a in posts && b in posts && NewerOrSame(posts, a, b)
  {
    var order := NewestFirst(posts, posts.Keys);
    var x, y := Skip(Some(p)) + i, Skip(Some(q)) + j;
    assert x < y < |order|;
    assert GetPosts(posts, Some(p)).value.posts[i].id == order[x];
    assert GetPosts(posts, Some(q)).value.posts[j].id == order[y];
    NewestFirstSorted(posts, posts.Keys);
    assert order[x] != order[y] && NewerOrSame(posts, order[x], order[y]);
  }

  /** Consecutive pages adjoin: when page `p` is full and page `p + 1` is not empty, the
      last post of page `p` and the first post of page `p + 1` are neighbours in the
      newest-first order, so no post is skipped or listed twice between them. */
  lemma PagesAdjoinListed(posts: map<PostId, Post>, p: int)
    requires p >= 1
    requires |GetPosts(posts, Some(p)).value.posts| == PerPage
    requires GetPosts(posts, Some(p + 1)).value.posts != []
    ensures var order, k := NewestFirst(posts, posts.Keys), Skip(Some(p)) + PerPage - 1;
      && 0 <= k && k + 1 < |order|
      && order[k] == GetPosts(posts, Some(p)).value.posts[PerPage - 1].id
      && order[k + 1] == GetPosts(posts, Some(p + 1)).value.posts[0].id
  {
    assert Skip(Some(p + 1)) == Skip(Some(p)) + PerPage;
    assert |NewestFirst(posts, posts.Keys)| == |posts|;
  }

  /** Position `n` of the order falls on page `n / 2 + 1`, in slot `n % 2`. */
  lemma PageOfPosition(n: nat)
    ensures Skip(Some(n / PerPage + 1)) + n % PerPage == n
    ensures 0 <= n % PerPage < PerPage
  {
  }

  /** Every stored post is listed on exactly the page its position in the order gives. */
  lemma {:induction false} PostListedOnItsPage(posts: map<PostId, Post>, id: PostId)
    requires id in posts
    ensures exists n: nat :: var r := GetPosts(posts, Some(n / PerPage + 1));
      && r.Ok?
      && n % PerPage < |r.value.posts|
      && r.value.posts[n % PerPage] == PostEntry(id, posts[id])
  {
    var order := NewestFirst(posts, posts.Keys);
    assert id in order;
    var n :| 0 <= n < |order| && order[n] == id;
    assert |order| == |posts|;
    PageOfPosition(n);
    var page, slot := n / PerPage + 1, n % PerPage;
    var skip := Skip(Some(page));
    assert 0 <= skip && skip + slot == n && slot < PerPage;
    var r := GetPosts(posts, Some(page));
    assert r.Ok?;
    assert slot < |r.value.posts|;
    assert r.value.posts[slot].id == order[skip + slot];
    assert r.value.posts[slot] == PostEntry(id, posts[id]);
    assert r.Ok? && n % PerPage < |r.value.posts| && r.value.posts[n % PerPage] == PostEntry(id, posts[id]);
  }

  /** `getPost`. */
  function GetPost(posts: map<PostId, Post>, postId: PostId): (r: Result<PostEntry>)
    ensures r.Ok? <==> postId in posts
    ensures r.Ok? ==> r.value == PostEntry(postId, posts[postId])
    ensures r.Err? ==> r == Err(404, PostNotFoundMessage, [])
  {
    if postId in posts then Ok(PostEntry(postId, posts[postId]))
    else Err(404, PostNotFoundMessage, [])
  }

  // ---------------------------------------------------------------- writing

  /** The 201 response of `createPost`. */
  datatype CreatedPost = CreatedPost(entry: PostEntry, creator: CreatorRef)

  /** `createPost`. The post is saved before its creator is looked up: a `userId` with no
      user leaves the saved post behind and fails with 500, without an event. */
  method CreatePost(db: Db, errors: seq<FieldError>, userId: UserId, title: string, content: string,
                    file: Option<string>, now: int)
    returns (r: Result<CreatedPost>)
    requires db.Valid()
    modifies db
    ensures db.Valid()
    ensures errors != [] ==> r == Err(422, ValidationFailedMessage, []) && unchanged(db)
    ensures errors == [] && file.None? ==> r == Err(422, NoImageMessage, []) && unchanged(db)
    ensures errors == [] && file.Some? ==>
      var id := old(db.nextPostId);
      var entry := PostEntry(id, Post(title, content, NormalizeImagePath(file.value), userId, now));
      && db.posts == old(db.posts)[id := entry.post]
      && db.nextPostId == id + 1 && db.nextUserId == old(db.nextUserId)
      && db.clearedImages == old(db.clearedImages)
      && if userId in old(db.users) then
           var u := old(db.users[userId]);
           && db.users == old(db.users)[userId := u.(posts := u.posts + [id])]
           && db.events == old(db.events) + [Created(entry, CreatorRef(userId, u.name))]
           && r == Ok(CreatedPost(entry, CreatorRef(userId, u.name)))
         else
           && db.users == old(db.users) && db.events == old(db.events)
           && r == Err(ServerError, InternalMessage, [])
    ensures old(db.Consistent()) && userId in old(db.users) ==> db.Consistent()
  {
    if errors != [] {
      return Err(422, ValidationFailedMessage, []);
    }
    if file.None? {
      return Err(422, NoImageMessage, []);
    }
    var post := Post(title, content, NormalizeImagePath(file.value), userId, now);
    var id := db.nextPostId;
    db.posts := db.posts[id := post];
    db.nextPostId := id + 1;
    if userId !in db.users {
      return Err(ServerError, InternalMessage, []);
    }
    var user := db.users[userId];
    user := user.(posts := user.posts + [id]);
    db.users := db.users[userId := user];
    var creator := CreatorRef(userId, user.name);
    db.events := db.events + [Created(PostEntry(id, post), creator)];
    r := Ok(CreatedPost(PostEntry(id, post), creator));
    if old(db.Consistent()) {
      LinkedAfterCreate(old(db.posts), old(db.users), id, post);
    }
  }

  /** `updatePost`: the checks run in the order 422, 422, 404, 403 (with the 500 of a
      creator that no longer resolves between the last two); on success only the title,
      content and image of that post change, and the old image is cleared iff it differs. */
  method UpdatePost(db: Db, errors: seq<FieldError>, userId: UserId, postId: PostId, title: string,
                    content: string, bodyImage: Option<string>, file: Option<string>)
    returns (r: Result<PostEntry>)
    requires db.Valid()
    modifies db
    ensures db.Valid()
    ensures var imageUrl := ImageUrlFor(bodyImage, file);
      if errors != [] then r == Err(422, ValidationFailedMessage, [])
      else if imageUrl == "" then r == Err(422, NoFilePickedMessage, [])
      else if postId !in old(db.posts) then r == Err(404, PostNotFoundMessage, [])
      else if old(db.posts[postId].creator) !in old(db.users) then r == Err(ServerError, InternalMessage, [])
      else if old(db.posts[postId].creator) != userId then r == Err(403, NotAuthorizedMessage, [])
      else
        var was := old(db.posts[postId]);
        var edited := was.(title := title, content := content, imageUrl := imageUrl);
        && r == Ok(PostEntry(postId, edited))
        && db.posts == old(db.posts)[postId := edited]
        && db.users == old(db.users)
        && db.nextPostId == old(db.nextPostId) && db.nextUserId == old(db.nextUserId)
        && db.clearedImages == old(db.clearedImages) + (if imageUrl != was.imageUrl then [was.imageUrl] else [])
        && db.events == old(db.events) + [Updated(PostEntry(postId, edited))]
    ensures r.Err? ==> unchanged(db)
    ensures old(db.Consistent()) ==> db.Consistent()
    ensures old(db.Consistent()) && r.Err? ==> r.status != ServerError
  {
    if errors != [] {
      return Err(422, ValidationFailedMessage, []);
    }
    var imageUrl := ImageUrlFor(bodyImage, file);
    if imageUrl == "" {
      return Err(422, NoFilePickedMessage, []);
    }
    if postId !in db.posts {
      return Err(404, PostNotFoundMessage, []);
    }
    var post := db.posts[postId];
    if post.creator !in db.users {
      return Err(ServerError, InternalMessage, []);
    }
    if post.creator != userId {
      return Err(403, NotAuthorizedMessage, []);
    }
    if imageUrl != post.imageUrl {
      db.clearedImages := db.clearedImages + [post.imageUrl];
    }
    post := post.(title := title, imageUrl := imageUrl, content := content);
    db.posts := db.posts[postId := post];
    db.events := db.events + [Updated(PostEntry(postId, post))];
    r := Ok(PostEntry(postId, post));
  }

  /** `deletePost`: 404, then 403; on success the image is cleared, the post removed, its
      id pulled from the owner's list and one delete event emitted. An owner that no longer
      resolves fails with 500 after the first two of these. */
  method DeletePost(db: Db, userId: UserId, postId: PostId) returns (r: Result<PostId>)
    requires db.Valid()
    modifies db
    ensures db.Valid()
    ensures
      if postId !in old(db.posts) then r == Err(404, PostNotFoundMessage, []) && unchanged(db)
      else if old(db.posts[postId].creator) != userId then r == Err(403, NotAuthorizedMessage, []) && unchanged(db)
      else
        && db.clearedImages == old(db.clearedImages) + [old(db.posts[postId].imageUrl)]
        && db.posts == old(db.posts) - {postId}
        && db.nextPostId == old(db.nextPostId) && db.nextUserId == old(db.nextUserId)
        && if userId in old(db.users) then
             var u := old(db.users[userId]);
             && db.users == old(db.users)[userId := u.(posts := Pull(u.posts, postId))]
             && db.events == old(db.events) + [Deleted(postId)]
             && r == Ok(postId)
           else
             && db.users == old(db.users) && db.events == old(db.events)
             && r == Err(ServerError, InternalMessage, [])
    ensures old(db.Consistent()) ==> db.Consistent()
    ensures old(db.Consistent()) && r.Err? ==> r.status != ServerError
  {
    if postId !in db.posts {
      return Err(404, PostNotFoundMessage, []);
    }
    var post := db.posts[postId];
    if post.creator != userId {
      return Err(403, NotAuthorizedMessage, []);
    }
    db.clearedImages := db.clearedImages + [post.imageUrl];
    db.posts := db.posts - {postId};
    if userId !in db.users {
      return Err(ServerError, InternalMessage, []);
    }
    var user := db.users[userId];
    user := user.(posts := Pull(user.posts, postId));
    db.users := db.users[userId := user];
    db.events := db.events + [Deleted(postId)];
    r := Ok(postId);
    if old(db.Consistent()) {
      LinkedAfterDelete(old(db.posts), old(db.users), postId);
    }
  }
}
