/**
 * The profile handlers. Queries on username and email go through the same setters as stored
 * values (trim; lower-casing for the email), so the "taken" checks compare normalised values,
 * while the "has it changed" checks compare the raw body value with the stored one.
 */
module UserController {
  import opened Wrappers
  import opened Http
  import opened UserModel
  import Text
  import Store

  /** `getProfile`: 404 for a missing user, otherwise the user without the password. */
  function GetProfile(users: map<UserId, User>, id: UserId): (r: Reply<PublicUser>)
    ensures r.Fail? <==> id !in users
    ensures r.Fail? ==> r == Fail(404, "User not found")
    ensures r.Ok? ==> r.code == 200 && r.data.id == id && r.data.username == users[id].username
    ensures r.Ok? ==> r.data.email == users[id].email && r.data.role == users[id].role
    ensures r.Ok? ==> r.data.preferences == users[id].preferences
  {
    if id !in users then Fail(NOT_FOUND, "User not found") else Ok(OK, Public(id, users[id]))
  }

  /** `findOne({ username })` finds a document, the requester's own included. */
  predicate UsernameTaken(users: map<UserId, User>, username: string) {
    exists id :: id in users && users[id].username == NormalizeUsername(username)
  }

  /** `findOne({ email })` finds a document, the requester's own included. */
  predicate EmailTaken(users: map<UserId, User>, email: string) {
    exists id :: id in users && users[id].email == NormalizeEmail(email)
  }

  /** A body value asks for a change when it is truthy and differs, as written, from the stored value. */
  predicate AsksChange(supplied: Option<string>, current: string) {
    Text.Truthy(supplied) && supplied.value != current
  }

  /** What `updateProfile` does to the stored user of `id`: a rejection, or the document it saves.
      The schema validators run on save, and a failure there is a 500. */
  function ProfileOutcome(users: map<UserId, User>, id: UserId, username: Option<string>, email: Option<string>): (r: Reply<User>)
    ensures id !in users ==> r == Fail(404, "User not found")
    ensures r == Fail(400, "Username already taken") <==>
      id in users && AsksChange(username, users[id].username) && UsernameTaken(users, username.value)
    ensures r == Fail(400, "Email already in use") <==>
      && id in users && !(AsksChange(username, users[id].username) && UsernameTaken(users, username.value))
      && AsksChange(email, users[id].email) && EmailTaken(users, email.value)
    ensures r.Ok? <==>
      && id in users
      && !(AsksChange(username, users[id].username) && UsernameTaken(users, username.value))
      && !(AsksChange(email, users[id].email) && EmailTaken(users, email.value))
      && ValidUsername(if AsksChange(username, users[id].username) then NormalizeUsername(username.value) else users[id].username)
      && ValidEmail(if AsksChange(email, users[id].email) then NormalizeEmail(email.value) else users[id].email)
    ensures r.Fail? && r.code != 400 && r.code != 404 ==> r == Fail(500, "Server error while updating profile")
    ensures r.Ok? ==> id in users && r.code == 200
    ensures r.Ok? ==> ValidUsername(r.data.username) && ValidEmail(r.data.email)
    ensures r.Ok? ==> r.data.role == users[id].role && r.data.password == users[id].password
    ensures r.Ok? ==> r.data.preferences == users[id].preferences
    ensures r.Ok? ==> r.data.username == if AsksChange(username, users[id].username) then NormalizeUsername(username.value) else users[id].username
    ensures r.Ok? ==> r.data.email == if AsksChange(email, users[id].email) then NormalizeEmail(email.value) else users[id].email
  {
    if id !in users then Fail(NOT_FOUND, "User not found")
    else
      var u := users[id];
      if AsksChange(username, u.username) && UsernameTaken(users, username.value) then Fail(BAD_REQUEST, "Username already taken")
      else if AsksChange(email, u.email) && EmailTaken(users, email.value) then Fail(BAD_REQUEST, "Email already in use")
      else
        var newName := if AsksChange(username, u.username) then NormalizeUsername(username.value) else u.username;
        var newEmail := if AsksChange(email, u.email) then NormalizeEmail(email.value) else u.email;
        if ValidUsername(newName) && ValidEmail(newEmail) then Ok(OK, u.(username := newName, email := newEmail))
        else Fail(SERVER_ERROR, "Server error while updating profile")
  }

  /** `updateProfile`: the checks in order, then the save; nothing is stored unless every check passes. */
  method UpdateProfile(db: Store.Db, requester: UserId, username: Option<string>, email: Option<string>)
    returns (reply: Reply<PublicUser>)
    modifies db`users
    ensures var outcome := ProfileOutcome(old(db.users), requester, username, email);
      && (outcome.Fail? ==> reply == Fail(outcome.code, outcome.message) && db.users == old(db.users))
      && (outcome.Ok? ==> db.users == old(db.users)[requester := outcome.data] && reply == Ok(200, Public(requester, outcome.data)))
  {
    ghost var outcome := ProfileOutcome(db.users, requester, username, email);
    if requester !in db.users {
      return Fail(NOT_FOUND, "User not found");
    }
    var user := db.users[requester];
    if Text.Truthy(username) && username.value != user.username {
      if UsernameTaken(db.users, username.value) {
        assert outcome == Fail(400, "Username already taken");
        return Fail(BAD_REQUEST, "Username already taken");
      }
      user := user.(username := NormalizeUsername(username.value));
    }
    if Text.Truthy(email) && email.value != user.email {
      if EmailTaken(db.users, email.value) {
        assert outcome == Fail(400, "Email already in use");
        return Fail(BAD_REQUEST, "Email already in use");
      }
      user := user.(email := NormalizeEmail(email.value));
    }
    if !ValidUsername(user.username) || !ValidEmail(user.email) {
      assert outcome == Fail(500, "Server error while updating profile");
      return Fail(SERVER_ERROR, "Server error while updating profile");
    }
    assert outcome == Ok(200, user);
    db.users := db.users[requester := user];
    reply := Ok(OK, Public(requester, user));
  }

  /** Sending back the stored username and email, exactly as stored, changes nothing. */
  lemma CurrentValuesAreNoOp(users: map<UserId, User>, id: UserId)
    requires id in users && ValidUsername(users[id].username) && ValidEmail(users[id].email)
    ensures ProfileOutcome(users, id, Some(users[id].username), Some(users[id].email)) == Ok(200, users[id])
  {
  }

  /** Sending one's own email in other letter case, or with surrounding blanks, is refused as
      taken: the query finds the requester's own document. */
  lemma OwnEmailRewrittenIsTaken(users: map<UserId, User>, id: UserId, email: string)
    requires id in users && email != "" && email != users[id].email && NormalizeEmail(email) == users[id].email
    ensures ProfileOutcome(users, id, None, Some(email)) == Fail(400, "Email already in use")
  {
    assert users[id].email == NormalizeEmail(email);
  }

  /** A saved profile keeps usernames and emails unique. */
  lemma {:induction false} UpdateKeepsLoginsUnique(users: map<UserId, User>, id: UserId, username: Option<string>, email: Option<string>)
    requires Store.UniqueLogins(users)
    requires ProfileOutcome(users, id, username, email).Ok?
    ensures Store.UniqueLogins(users[id := ProfileOutcome(users, id, username, email).data])
  {
    var u := ProfileOutcome(users, id, username, email).data;
    var after := users[id := u];
    forall a, b | a in after && b in after && a != b
      ensures after[a].username != after[b].username && after[a].email != after[b].email
    {
      if a == id || b == id {
        var other := if a == id then b else a;
        assert after[other] == users[other];
        if AsksChange(username, users[id].username) {
          assert !UsernameTaken(users, username.value);
          assert users[other].username != u.username;
        }
        if AsksChange(email, users[id].email) {
          assert !EmailTaken(users, email.value);
          assert users[other].email != u.email;
        }
      }
    }
  }
}
