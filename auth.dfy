/** The auth controller: signup, login, and reading and setting a user's status, over the
    same users collection the feed controller uses. bcrypt is the `hash` parameter, a
    total function the model knows nothing about; the JWT is its claim set. */
module Auth {
  import opened Store

  /** `expiresIn: "1h"`. */
  const TokenLifetimeSeconds := 3600
  /** The schema default of `status` for a new user. */
  const InitialStatus := "I am new!"

  const SignupValidationMessage := "Validation Failed!"
  const UnknownUserMessage := "User does not exist!"
  const WrongPasswordMessage := "Incorrect password!"

  /** The payload `jwt.sign` signs. */
  datatype Claims = Claims(email: string, userId: UserId, expiresInSeconds: nat)

  /** The 200 response of `login`. */
  datatype Session = Session(token: Claims, userId: UserId)

  /** `bcrypt.compare(password, digest)`. */
  predicate Matches(password: string, digest: Digest, hash: string -> Digest) {
    hash(password) == digest
  }

  /** `m` is the least element of `s`. */
  predicate IsLeast(s: set<UserId>, m: UserId) {
    m in s && forall k :: k in s ==> m <= k
  }

  lemma {:induction false} LeastExists(s: set<UserId>)
    requires s != {}
    ensures exists m :: IsLeast(s, m)
    decreases |s|
  {
    var x :| x in s;
    if s == {x} {
      assert IsLeast(s, x);
    } else {
      var rest := s - {x};
      LeastExists(rest);
      var m :| IsLeast(rest, m);
      var least := if x < m then x else m;
      forall k | k in s ensures least <= k {
        if k != x {
          assert k in rest;
        }
      }
      assert IsLeast(s, least);
    }
  }

  function Least(s: set<UserId>): (m: UserId)
    requires s != {}
    ensures IsLeast(s, m)
  {
    LeastExists(s);
    var m :| IsLeast(s, m);
    m
  }

  /** `User.findOne({email})`: the first user, in id order, with that email. */
  function FindByEmail(users: map<UserId, User>, email: string): (r: Option<UserId>)
    ensures r.None? <==> forall id :: id in users ==> users[id].email != email
    ensures r.Some? ==> r.value in users && users[r.value].email == email
    ensures r.Some? ==> forall id :: id in users && users[id].email == email ==> r.value <= id
  {
    var matching := set id | id in users && users[id].email == email;
    assert forall id :: id in users && users[id].email == email ==> id in matching;
    if matching == {} then None else Some(Least(matching))
  }

  /** `login`: 401 for an email nobody has, 401 for a password that does not match the
      stored digest, otherwise a token for the found user, valid for one hour. */
  function Login(users: map<UserId, User>, email: string, password: string, hash: string -> Digest)
    : (r: Result<Session>)
    ensures (forall id :: id in users ==> users[id].email != email) ==> r == Err(401, UnknownUserMessage, [])
    ensures r.Ok? ==>
      var id := r.value.userId;
      && id in users && users[id].email == email
      && Matches(password, users[id].password, hash)
      && r.value.token == Claims(users[id].email, id, TokenLifetimeSeconds)
    ensures r.Err? ==> r.status == 401 && r.message in {UnknownUserMessage, WrongPasswordMessage} && r.data == []
    ensures EmailsUnique(users) ==> forall id :: id in users && users[id].email == email ==>
      if Matches(password, users[id].password, hash) then r.Ok?
      else r == Err(401, WrongPasswordMessage, [])
  {
    match FindByEmail(users, email)
    case None => Err(401, UnknownUserMessage, [])
    case Some(id) =>
      var user := users[id];
      if !Matches(password, user.password, hash) then Err(401, WrongPasswordMessage, [])
      else Ok(Session(Claims(user.email, id, TokenLifetimeSeconds), id))
  }

  /** `getStatus`. */
  function GetStatus(users: map<UserId, User>, userId: UserId): (r: Result<string>)
    ensures r.Ok? <==> userId in users
    ensures r.Ok? ==> r.value == users[userId].status
    ensures r.Err? ==> r == Err(404, UnknownUserMessage, [])
  {
    if userId in users then Ok(users[userId].status)
    else Err(404, UnknownUserMessage, [])
  }

  /** The user document `signup` builds and saves. */
  function NewUser(email: string, name: string, password: string, hash: string -> Digest): (u: User)
    ensures u.email == email && u.name == name
    ensures Matches(password, u.password, hash)
    ensures u.status == InitialStatus && u.posts == []
  {
    User(email, name, hash(password), InitialStatus, [])
  }

  /** `signup`: 422 with the validator's errors, the store's 500 for an email already
      taken, otherwise one new user whose password field holds the digest. */
  method Signup(db: Db, errors: seq<FieldError>, email: string, name: string, password: string,
                hash: string -> Digest)
    returns (r: Result<UserId>)
    requires db.Valid()
    modifies db
    ensures db.Valid()
    ensures
      if errors != [] then r == Err(422, SignupValidationMessage, errors) && unchanged(db)
      else if old(exists id :: id in db.users && db.users[id].email == email) then
        r == Err(ServerError, InternalMessage, []) && unchanged(db)
      else
        var id := old(db.nextUserId);
        && id !in old(db.users)
        && r == Ok(id)
        && db.users == old(db.users)[id := NewUser(email, name, password, hash)]
        && db.nextUserId == id + 1 && db.nextPostId == old(db.nextPostId)
        && db.posts == old(db.posts) && db.events == old(db.events)
        && db.clearedImages == old(db.clearedImages)
    ensures old(db.Consistent()) ==> db.Consistent()
  {
    if errors != [] {
      return Err(422, SignupValidationMessage, errors);
    }
    if FindByEmail(db.users, email).Some? {
      return Err(ServerError, InternalMessage, []);
    }
    var id := db.nextUserId;
    db.users := db.users[id := NewUser(email, name, password, hash)];
    db.nextUserId := id + 1;
    r := Ok(id);
  }

  /** `postStatus`: 404 for a missing user; otherwise only that user's status changes. */
  method PostStatus(db: Db, userId: UserId, newStatus: string) returns (r: Result<User>)
    requires db.Valid()
    modifies db
    ensures db.Valid()
    ensures
      if userId !in old(db.users) then r == Err(404, UnknownUserMessage, []) && unchanged(db)
      else
        var u := old(db.users[userId]).(status := newStatus);
        && r == Ok(u)
        && db.users == old(db.users)[userId := u]
        && db.posts == old(db.posts) && db.events == old(db.events)
        && db.clearedImages == old(db.clearedImages)
        && db.nextPostId == old(db.nextPostId) && db.nextUserId == old(db.nextUserId)
    ensures old(db.Consistent()) ==> db.Consistent()
  {
    if userId !in db.users {
      return Err(404, UnknownUserMessage, []);
    }
    var user := db.users[userId];
    user := user.(status := newStatus);
    db.users := db.users[userId := user];
    r := Ok(user);
  }

  /** A user added under a fresh id with an email nobody else has is the one login finds. */
  lemma SignedUpUserFound(users: map<UserId, User>, id: UserId, email: string, user: User)
    requires id !in users && user.email == email
    requires forall k :: k in users ==> users[k].email != email
    ensures FindByEmail(users[id := user], email) == Some(id)
  {
    var users' := users[id := user];
    assert users'[id].email == email;
  }

  /** A signup followed by a login with the same email and password succeeds, with a token
      for the new user. */
  lemma {:induction false} LoginAfterSignup(users: map<UserId, User>, id: UserId, email: string, name: string,
                                            password: string, hash: string -> Digest)
    requires id !in users
    requires forall k :: k in users ==> users[k].email != email
    ensures Login(users[id := NewUser(email, name, password, hash)], email, password, hash)
         == Ok(Session(Claims(email, id, TokenLifetimeSeconds), id))
  {
    SignedUpUserFound(users, id, email, NewUser(email, name, password, hash));
  }

  /** After that signup, a password whose digest differs is refused with 401. */
  lemma {:induction false} WrongPasswordAfterSignup(users: map<UserId, User>, id: UserId, email: string, name: string,
                                                    password: string, attempt: string, hash: string -> Digest)
    requires id !in users
    requires forall k :: k in users ==> users[k].email != email
    requires hash(attempt) != hash(password)
    ensures Login(users[id := NewUser(email, name, password, hash)], email, attempt, hash)
         == Err(401, WrongPasswordMessage, [])
  {
    SignedUpUserFound(users, id, email, NewUser(email, name, password, hash));
  }
}
