/**
 * Registration and login. The password hash and its comparison are parameters (`hash` and
 * `matches`); the signed token is not modelled.
 */
module AuthController {
  import opened Wrappers
  import opened Http
  import opened UserModel
  import Text
  import Store

  /** The user fields a successful register or login reports (the token aside). */
  datatype Session = Session(id: UserId, username: string, email: string, role: Role)

  /** `findOne({ $or: [{ email }, { username }] })` finds a document; the query values go through
      the same setters as the stored ones. */
  predicate LoginTaken(users: map<UserId, User>, username: string, email: string) {
    exists id :: id in users && (users[id].email == NormalizeEmail(email) || users[id].username == NormalizeUsername(username))
  }

  /** What `register` stores, or why it refuses: 400 for a missing field or a taken login, 500 when
      the schema validators reject the new document (they see the plain password, before the
      pre-save hook hashes it). */
  function Registration(users: map<UserId, User>, username: Option<string>, email: Option<string>,
                        password: Option<string>, hash: string -> string): (r: Reply<User>)
    ensures !(Text.Truthy(username) && Text.Truthy(email) && Text.Truthy(password)) <==>
      r == Fail(400, "Please provide username, email and password")
    ensures r == Fail(400, "User with this email or username already exists") <==>
      Text.Truthy(username) && Text.Truthy(email) && Text.Truthy(password) && LoginTaken(users, username.value, email.value)
    ensures r.Ok? <==>
      && Text.Truthy(username) && Text.Truthy(email) && Text.Truthy(password)
      && !LoginTaken(users, username.value, email.value)
      && ValidUsername(NormalizeUsername(username.value)) && ValidEmail(NormalizeEmail(email.value))
      && ValidPassword(password.value)
    ensures r.Fail? && r.code != 400 ==> r == Fail(500, "Server error during registration")
    ensures r.Ok? ==> r.code == 201 && !LoginTaken(users, username.value, email.value)
    ensures r.Ok? ==> ValidUsername(r.data.username) && ValidEmail(r.data.email) && ValidPassword(password.value)
    ensures r.Ok? ==> r.data.username == NormalizeUsername(username.value) && r.data.email == NormalizeEmail(email.value)
    ensures r.Ok? ==> r.data.password == hash(password.value)
    ensures r.Ok? ==> r.data.role == Regular && r.data.preferences == Some(SchemaPreferences)
  {
    if !(Text.Truthy(username) && Text.Truthy(email) && Text.Truthy(password)) then
      Fail(BAD_REQUEST, "Please provide username, email and password")
    else if LoginTaken(users, username.value, email.value) then
      Fail(BAD_REQUEST, "User with this email or username already exists")
    else
      var doc := NewUser(username.value, email.value, password.value);
      if ValidUsername(doc.username) && ValidEmail(doc.email) && ValidPassword(doc.password) then
        Ok(CREATED, PreSave(doc, true, hash))
      else
        Fail(SERVER_ERROR, "Server error during registration")
  }

  /** `register`: stores the new user under `newId`, the id the store generates. */
  method Register(db: Store.Db, username: Option<string>, email: Option<string>, password: Option<string>,
                  hash: string -> string, newId: UserId) returns (reply: Reply<Session>)
    requires newId !in db.users
    modifies db`users
    ensures var r := Registration(old(db.users), username, email, password, hash);
      && (r.Fail? ==> reply == Fail(r.code, r.message) && db.users == old(db.users))
      && (r.Ok? ==> db.users == old(db.users)[newId := r.data]
                    && reply == Ok(201, Session(newId, r.data.username, r.data.email, r.data.role)))
  {
    var outcome := Registration(db.users, username, email, password, hash);
    if outcome.Fail? {
      return Fail(outcome.code, outcome.message);
    }
    var user := outcome.data;
    db.users := db.users[newId := user];
    reply := Ok(CREATED, Session(newId, user.username, user.email, user.role));
  }

  /** Registration never lets two users share a username or an email. */
  lemma {:induction false} RegistrationKeepsLoginsUnique(users: map<UserId, User>, username: Option<string>, email: Option<string>,
                                                         password: Option<string>, hash: string -> string, newId: UserId)
    requires Store.UniqueLogins(users) && newId !in users
    requires Registration(users, username, email, password, hash).Ok?
    ensures Store.UniqueLogins(users[newId := Registration(users, username, email, password, hash).data])
  {
    var u := Registration(users, username, email, password, hash).data;
    var after := users[newId := u];
    forall a, b | a in after && b in after && a != b
      ensures after[a].username != after[b].username && after[a].email != after[b].email
    {
      if a == newId || b == newId {
        var other := if a == newId then b else a;
        assert other in users && after[other] == users[other];
        assert !(users[other].email == NormalizeEmail(email.value) || users[other].username == NormalizeUsername(username.value));
      }
    }
  }

  /** Some stored user has the (normalised) email and a hash the password matches. */
  ghost predicate CanLogIn(users: map<UserId, User>, email: string, password: string, matches: (string, string) -> bool) {
    exists id :: id in users && users[id].email == NormalizeEmail(email) && matches(password, users[id].password)
  }

  /** `login`: 400 for a missing field; the same 401 "Invalid credentials" for an unknown email and
      for a wrong password; otherwise the session of the user found. Nothing is stored. */
  method Login(db: Store.Db, email: Option<string>, password: Option<string>, matches: (string, string) -> bool)
    returns (reply: Reply<Session>)
    ensures !(Text.Truthy(email) && Text.Truthy(password)) <==> reply == Fail(400, "Please provide email and password")
    ensures reply.Fail? ==> reply.code == 400 || reply == Fail(401, "Invalid credentials")
    ensures reply.Ok? ==> Text.Truthy(email) && Text.Truthy(password) && reply.code == 200
    ensures reply.Ok? ==> var id := reply.data.id;
      && id in db.users && db.users[id].email == NormalizeEmail(email.value) && matches(password.value, db.users[id].password)
      && reply.data == Session(id, db.users[id].username, db.users[id].email, db.users[id].role)
    ensures Text.Truthy(email) && Text.Truthy(password) && !CanLogIn(db.users, email.value, password.value, matches) ==>
      reply == Fail(401, "Invalid credentials")
    ensures Text.Truthy(email) && Text.Truthy(password) && Store.UniqueLogins(db.users) ==>
      (reply.Ok? <==> CanLogIn(db.users, email.value, password.value, matches))
  {
    if !Text.Truthy(email) || !Text.Truthy(password) {
      return Fail(BAD_REQUEST, "Please provide email and password");
    }
    var wanted := NormalizeEmail(email.value);
    if !(exists id :: id in db.users && db.users[id].email == wanted) {
      return Fail(UNAUTHORIZED, "Invalid credentials");
    }
    var id :| id in db.users && db.users[id].email == wanted;
    var user := db.users[id];
    if !matches(password.value, user.password) {
      assert Store.UniqueLogins(db.users) ==> !CanLogIn(db.users, email.value, password.value, matches);
      return Fail(UNAUTHORIZED, "Invalid credentials");
    }
    reply := Ok(OK, Session(id, user.username, user.email, user.role));
  }

  /** Right after registering, the same email and password log in, provided the hash comparison
      accepts a password against its own hash. */
  lemma RegisteredUserCanLogIn(users: map<UserId, User>, username: Option<string>, email: Option<string>,
                               password: Option<string>, hash: string -> string, matches: (string, string) -> bool, newId: UserId)
    requires Registration(users, username, email, password, hash).Ok?
    requires forall p :: matches(p, hash(p))
    ensures CanLogIn(users[newId := Registration(users, username, email, password, hash).data], email.value, password.value, matches)
  {
    var after := users[newId := Registration(users, username, email, password, hash).data];
    assert newId in after && after[newId].email == NormalizeEmail(email.value);
  }
}
