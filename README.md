# MessageNode feed and auth controllers in Dafny

This project models the two Express controllers of the MessageNode backend: the feed
controller (`controllers/feed.js`) and the auth controller (`controllers/auth.js`). The
model runs them against an in-memory document store and proves properties of that model.

- The feed controller lists posts newest first, two per page. It fetches one post, and
  creates, edits and deletes posts. It enforces ownership, keeps each user's list of post
  ids consistent with the Post collection, broadcasts every change on the `posts`
  channel, and unlinks image files that are replaced or deleted.
- The auth controller signs users up, logs them in with a one-hour token, and reads and
  sets a user's status.

## Files

- `store.dfy` (module `Store`) holds the entities: `Post`, `User`, the `Event` payloads
  emitted on `posts`, and `Result`, a value or an `Err(status, message, data)`.
  - It holds the class `Db`, which is the shared store:
    - the posts map (id → post);
    - the users map (id → user);
    - the event log standing in for `io.getIo().emit("posts", …)`;
    - the log of cleared image paths standing in for `clearIamge`;
    - two id counters standing in for ObjectId generation.
  - `Db.Valid()` states that the ids are below the counters and that emails are unique.
    Unique emails are an assumption about the User schema, which is not part of this
    model.
  - `Linked`, exposed as `Db.Consistent()`, is the consistency invariant: a user lists
    exactly the posts whose creator it is.
  - It also holds Mongoose's `pull`, an order-keeping filter, and the two lemmas that the
    consistency invariant survives a create and a delete.
- `feed.dfy` (module `Feed`)
  - The read handlers `getPosts` and `getPost` and the image-path rewrite are functions.
    `getPosts` sorts with `NewestFirst`, which picks the newest remaining post at each
    step.
  - `createPost`, `updatePost` and `deletePost` are methods that modify the `Db`. Their
    postconditions give the whole new state as a function of the old one, for every
    branch.
- `auth.dfy` (module `Auth`)
  - `login` and `getStatus` are functions over the users map. `User.findOne({email})` is
    the least user id with that email.
  - `signup` and `postStatus` are methods that modify the `Db`.
  - bcrypt is represented by a `hash: string -> Digest` parameter that the model knows
    nothing about, and `bcrypt.compare(p, d)` by `Matches(p, d, hash)`, that is
    `hash(p) == d`. The model proves that the stored password is `hash(plaintext)` and
    nothing more about it: a `hash` that copies its input is allowed.
  - The token is its claim set `{email, userId, expiresInSeconds = 3600}`.
- `scenarios.dfy` (module `Scenarios`) composes request sequences on a fresh store and
  proves their outcomes:
  - two signups and a create;
  - a foreign edit refused with 403, then the owner's edit replacing the image;
  - a delete of a missing post, a foreign delete, the owner's delete, then a login.

  Each outcome is stated as a postcondition.

Where the code's behaviour is easy to miss, the model follows it exactly:
- `updatePost` runs its checks in the order validation, image, existence, ownership
  (422, 422, 404, 403). A request that fails validation gets 422 even for a missing or
  a foreign post.
- `createPost` saves the post before it looks up the creator. For a `userId` that has
  no user, the saved post stays behind, and reading `posts` of the `null` user fails
  (500) without an event. `CreatePost` therefore promises the consistency invariant only
  when the user exists.
- `deletePost` clears the image and removes the post before it loads the owner. An
  owner that no longer exists gives a 500 after those two effects.
- `updatePost` populates `creator` and reads `creator._id`. A creator that no longer
  resolves gives a 500 between the 404 and the 403 checks.
- Both of these 500s are ruled out while the consistency invariant holds, and
  `UpdatePost` and `DeletePost` prove it.
- Two 500s rest on assumptions, because the User schema and the store are not part of
  this model:
  - a taken email at signup makes the save fail, and the catch block turns that error,
    which has no status code, into a 500;
  - `getPosts` with a page below 1 asks for a negative `skip`, which the store refuses,
    and the catch block turns that into a 500.

## Model

| member | source | states |
|---|---|---|
| `Feed.NormalizeImagePath` | controllers/feed.js:65 | the rewritten upload path has the same length as the original |
| `Feed.NormalizeKeepsPrefix` | controllers/feed.js:65 | text before the first backslash is kept as it is, and the rewrite continues on the rest |
| `Feed.NormalizeWithoutBackslash` | controllers/feed.js:65 | a path without a backslash is stored unchanged |
| `Feed.NormalizeFirstBackslash` | controllers/feed.js:65 | at the first backslash `i`, the stored path is `path[..i] + "/" + path[i+1..]`: only that backslash changes, and later ones stay |
| `Feed.NormalizeWindowsUpload` | controllers/feed.js:65 | `dir\name` is stored as `dir/name` |
| `Feed.NormalizeReplacesOnlyFirst` | controllers/feed.js:142 | `a\b\c` becomes `a/b\c`: of two backslashes only the first is replaced |
| `Feed.ImageUrlFor` | controllers/feed.js:140-144 | an uploaded file overrides `body.image` and is stored normalised, with its length kept; without a file, `body.image` is used as given; the result is empty, and so refused with "No file picked!", exactly when the file path is empty or, with no file, `body.image` is missing or empty |
| `Feed.CurrentPage` | controllers/feed.js:16 | the page is 1 when the query gives none, otherwise the given one |
| `Feed.SkipWindow` | controllers/feed.js:29 | the skip is a multiple of the page size, it is non-negative exactly when the page is at least 1, and it is 0 when the query gives no page |
| `Feed.PagesAdjoinListed` | controllers/feed.js:16-30 | when page `p` is full and page `p + 1` is not empty, the last post listed on page `p` and the first post listed on page `p + 1` are neighbours in the newest-first order: consecutive pages neither overlap nor leave a gap |
| `Feed.NewestExists` | controllers/feed.js:28 | every non-empty set of posts has a newest one under `createdAt` descending (ties: larger id) |
| `Feed.NewestFirst` | controllers/feed.js:25-30 | returns exactly the given post ids (as many as the set has), headed by the newest one |
| `Feed.NewestFirstSorted` | controllers/feed.js:28 | the order lists no post twice and never puts an older post before a newer one |
| `Feed.GetPosts` | controllers/feed.js:15-44 | page defaults to 1; at most 2 posts; exactly the window starting at (page−1)·2 of the newest-first order, each with its stored post; `totalItems` is the number of posts on every page; a page below 1 gives 500 |
| `Feed.GetPostsOrdered` | controllers/feed.js:25-30 | across pages, an earlier page or slot never holds an older post, and no post appears twice |
| `Feed.PostListedOnItsPage` | controllers/feed.js:16-30 | every stored post is listed, with its stored content, on the page its position gives |
| `Feed.GetPost` | controllers/feed.js:104-125 | the stored post for an existing id, otherwise 404 "Could not find post!" |
| `Feed.CreatePost` | controllers/feed.js:46-102 | 422 for validation errors, then 422 "No image provided.", both with nothing changed; otherwise the post with the normalised image and `creator = userId` is stored under a fresh id, appended to the end of the user's `posts`, and exactly one create event with creator `{userId, name}` is emitted; with no such user the post stays saved, the result is 500 and no event is emitted |
| `Feed.UpdatePost` | controllers/feed.js:127-187 | checks 422 validation, 422 "No file picked!" (an uploaded file overrides `body.image`), 404, 500 for an unresolvable creator, 403 non-owner, in that order, and every failure changes nothing; on success only that post's title, content and image change, the old image is cleared iff it differs, and exactly one update event carries the edited post; keeps the consistency invariant, and while it holds no failure is a 500 |
| `Feed.DeletePost` | controllers/feed.js:189-236 | 404 and 403 with nothing changed; for the owner the image is cleared, the post alone is removed, its id is pulled from the owner's `posts`, and exactly one delete event carries the id; keeps the consistency invariant, and while it holds no failure is a 500 |
| `Store.Pull` | controllers/feed.js:215 | removes every occurrence of the id: the multiset of what is left is the old one with that id's count set to 0, and a list without the id is returned unchanged |
| `Store.PullConcat` | controllers/feed.js:215 | pulling from `s + t` is pulling from `s` and from `t` and concatenating: the remaining ids keep their order |
| `Store.PullSingleton` | controllers/feed.js:215 | on one id, `pull` drops it exactly when it is the pulled id; with `PullConcat` this makes `pull` the order-keeping filter |
| `Store.PullMembership` | controllers/feed.js:215 | an id is in the pulled list iff it was in the list and is not the pulled id |
| `Store.LinkedAfterCreate` | controllers/feed.js:75-81 | saving a fresh post and pushing its id onto its existing creator keeps every user's list equal to the posts it created |
| `Store.LinkedAfterDelete` | controllers/feed.js:208-216 | removing a post and pulling its id from its creator keeps the lists and the posts consistent |
| `Store.DeleteKeepsListsOwn` | controllers/feed.js:209-216 | after the post is dropped and its creator's list keeps only other ids it had, every listed id is still a post of the user listing it |
| `Store.DeleteKeepsCreatorsListing` | controllers/feed.js:209-216 | after the delete, every remaining post's creator still exists and still lists it |
| `Auth.LeastExists` | controllers/auth.js:50 | every non-empty set of user ids has a least element |
| `Auth.Least` | controllers/auth.js:50 | returns a member of the set that is no larger than any other |
| `Auth.FindByEmail` | controllers/auth.js:50 | none iff no user has the email; otherwise a user with that email, the first in id order |
| `Auth.Login` | controllers/auth.js:44-90 | 401 "User does not exist!" when no user has the email; with unique emails, 401 "Incorrect password!" iff the password does not match that user's digest; on success the claims are the found user's email and id with a 3600-second expiry, and the returned `userId` is the claim's |
| `Auth.GetStatus` | controllers/auth.js:93-112 | that user's status, otherwise 404 "User does not exist!" |
| `Auth.Signup` | controllers/auth.js:8-42 | 422 "Validation Failed!" with the validator's error list as `data` and nothing changed; 500 for a taken email with nothing changed; otherwise exactly one new user under a fresh id with the given email and name, `password = hash(plaintext)`, the default status and no posts, and that id is returned |
| `Auth.PostStatus` | controllers/auth.js:115-142 | 404 for a missing user with nothing changed; otherwise only that user's status becomes the new one, and no other field or user changes |
| `Auth.NewUser` | controllers/auth.js:27-30 | the saved user has the given email and name, a password digest that `bcrypt.compare` accepts for the chosen password, the default status and no posts |
| `Auth.SignedUpUserFound` | controllers/auth.js:50 | a user added under a fresh id with an email no one else has is the one `findOne` returns |
| `Auth.LoginAfterSignup` | controllers/auth.js:25-82 | a signup followed by a login with the same email and password returns a token for the new user |
| `Auth.WrongPasswordAfterSignup` | controllers/auth.js:59-66 | after that signup, a password whose digest differs gets 401 "Incorrect password!" |
| `Scenarios.TwoUsers` | controllers/auth.js:8-34 | two signups on an empty store create users 0 and 1 and nothing else |
| `Scenarios.FirstUploadStored` | controllers/feed.js:65 | the upload `images\x.png` is stored as `images/x.png` |
| `Scenarios.TwoUsersOnePost` | controllers/feed.js:46-88 | A's create from `images\x.png` stores `images/x.png`, lists post 0 under A and emits one create event |
| `Scenarios.OwnershipScenario` | controllers/feed.js:159-176 | the created post reads back with the submitted fields; B's edit gets 403 and emits nothing; A's edit to `images/y.png` clears `images/x.png` and emits one update event with the new state |
| `Scenarios.DeleteScenario` | controllers/feed.js:192-219 | deleting a missing id gives 404 and B's delete gives 403, neither emitting; A's delete succeeds, clears the image, empties A's `posts` and emits one delete event; A can still log in |

The read handlers `getPosts`, `getPost`, `login` and `getStatus` cannot change the store,
the event log or the cleared-image log, because each is a function of the maps it reads.

## Left out

- Feed.GetPosts: posts with the same `createdAt` are ordered by larger id first. The store leaves their order unspecified.
- Feed.GetPosts: the page is modelled as an optional integer. Non-numeric query strings are not modelled.
- Feed.GetPosts: `populate("creator")` is not modelled. Listed posts carry their creator's id, not the creator's document.
- Feed.UpdatePost: the event and the result carry the post with its creator's id, not the populated creator document.
- `countDocuments` is modelled as the size of the posts map.
- The socket.io transport, its delivery to connected clients and its fan-out are not modelled. `emit` is an append to `Db.events`.
- `clearIamge` is modelled as an append to `Db.clearedImages`. Its `path.join`, `fs.unlink` and error logging are filesystem I/O and are not modelled. Deletion is best effort, so a failure never affects the handler.
- bcrypt's salting and its cost factor 12 are not modelled. The hash is an arbitrary total function passed as a parameter.
- `jwt.sign`, the signature, the secret string and the `iat` claim are not modelled. Token verification belongs to the authentication middleware, which is not part of this model. `req.userId` arrives as an input.
- express-validator's rules are not modelled. The result of `validationResult` is an input list of field errors.
- Mongoose specifics are not modelled:
  - ObjectId casting and the `CastError` for a malformed id;
  - `toString()` comparisons, since ids are plain naturals;
  - failures of the store itself, beyond the duplicate email and the negative `skip`.
- The message text of runtime errors (500) is not modelled. It is one constant.
- `models/post.js` and `models/user.js` are not part of this model.
  - `createdAt` (Mongoose timestamps) is the `now` parameter of `CreatePost`.
  - The default status of a new user is the constant `Auth.InitialStatus`.
- HTTP response bodies, `res.status` and `next(err)` are not modelled.
- The logging calls `console.log(errors)` (controllers/auth.js:12) and `console.log(result)` (controllers/feed.js:211) are output only, so they are not modelled.
- The throws outside `try` (controllers/feed.js:53, 60, 133 and controllers/auth.js:17) escape the handler, and what Express does with them is not modelled. Each is modelled as the `Err` result with its status code.
- Concurrent requests and the interleavings at each `await` are not modelled. Handlers run one at a time and each is atomic.
- `graphql/schema.js` is a placeholder schema with no resolvers, so it is not part of this model.
