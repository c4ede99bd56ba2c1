/**
 * The user document: its role enum, its preference defaults, the shape its fields must have,
 * the setters that normalise them, and the pre-save rule that re-hashes the password.
 */
module UserModel {
  import opened Wrappers
  import Text

  type UserId = string

  /** The three roles. They are a flat set, not a hierarchy. */
  datatype Role = Regular | Premium | Admin {
    function Name(): string {
      match this
      case Regular => "user"
      case Premium => "premium"
      case Admin => "admin"
    }
  }

  /** Reads a role from the text a request carries; anything but the three names is no role. */
  function ParseRole(s: string): (r: Option<Role>)
    ensures r.Some? ==> r.value.Name() == s
    ensures r.None? <==> forall role: Role :: role.Name() != s
  {
    if s == "user" then Some(Regular)
    else if s == "premium" then Some(Premium)
    else if s == "admin" then Some(Admin)
    else None
  }

  /** A user's preferences; every field may be absent from the stored object. */
  datatype Preferences = Preferences(
    theme: Option<string>,
    language: Option<string>,
    timezone: Option<string>,
    emailNotifications: Option<bool>,
    deadlineReminders: Option<bool>,
    taskAssignmentNotifications: Option<bool>,
    weeklyDigest: Option<bool>)

  /** What the schema's defaults put in a new document: notifications on, light theme, English. */
  const SchemaPreferences: Preferences :=
    Preferences(Some("light"), Some("en"), None, Some(true), None, None, None)

  /** A stored user. `password` holds the hash, never the plain text. */
  datatype User = User(
    username: string,
    email: string,
    password: string,
    role: Role,
    preferences: Option<Preferences>)

  /** The view of a user that queries return: the password is not selected. */
  datatype PublicUser = PublicUser(
    id: UserId,
    username: string,
    email: string,
    role: Role,
    preferences: Option<Preferences>)

  function Public(id: UserId, u: User): (p: PublicUser)
    ensures p.id == id && p.username == u.username && p.email == u.email && p.role == u.role
    ensures p.preferences == u.preferences
  {
    PublicUser(id, u.username, u.email, u.role, u.preferences)
  }

  /** The username setter trims. */
  function NormalizeUsername(s: string): string {
    Text.Trim(s)
  }

  /** The email setters lower-case and trim. */
  function NormalizeEmail(s: string): string {
    Text.Trim(Text.LowerAscii(s))
  }

  /** The regular expression `^\S+@\S+\.\S+$`, stated as the split it asks for. */
  ghost predicate MatchesEmailPattern(s: string) {
    && Text.NoSpace(s)
    && exists i, j :: 1 <= i && i + 2 <= j && j + 2 <= |s| && s[i] == '@' && s[j] == '.'
  }

  /** The first index at or after `k` holding `c`, or `|s|` when there is none. */
  function IndexFrom(s: string, c: char, k: nat): (i: nat)
    requires k <= |s|
    ensures k <= i <= |s|
    ensures i < |s| ==> s[i] == c
    ensures forall m :: k <= m < i ==> s[m] != c
    decreases |s| - k
  {
    if k == |s| then |s| else if s[k] == c then k else IndexFrom(s, c, k + 1)
  }

  /** The last index below `k` holding `c`, or -1 when there is none. */
  function LastIndexBelow(s: string, c: char, k: nat): (j: int)
    requires k <= |s|
    ensures -1 <= j < k
    ensures j >= 0 ==> s[j] == c
    ensures forall m :: j < m < k ==> s[m] != c
  {
    if k == 0 then -1 else if s[k - 1] == c then k - 1 else LastIndexBelow(s, c, k - 1)
  }

  /** A decision procedure for the email pattern: the first '@' after the first character must
      come at least two places before the last '.' that is not the final character. */
  predicate IsEmailShaped(s: string) {
    && |s| >= 2
    && Text.NoSpace(s)
    && IndexFrom(s, '@', 1) + 2 <= LastIndexBelow(s, '.', |s| - 1)
  }

  lemma EmailShapedIsPattern(s: string)
    ensures IsEmailShaped(s) <==> MatchesEmailPattern(s)
  {
    if IsEmailShaped(s) {
      var i, j := IndexFrom(s, '@', 1), LastIndexBelow(s, '.', |s| - 1);
      assert s[i] == '@' && s[j] == '.';
    }
    if MatchesEmailPattern(s) {
      var i, j :| 1 <= i && i + 2 <= j && j + 2 <= |s| && s[i] == '@' && s[j] == '.';
      assert IndexFrom(s, '@', 1) <= i;
      assert j <= LastIndexBelow(s, '.', |s| - 1);
    }
  }

  /** The schema's field constraints, on the values as the setters leave them. */
  predicate ValidUsername(username: string) {
    |username| >= 3
  }

  predicate ValidEmail(email: string) {
    IsEmailShaped(email)
  }

  predicate ValidPassword(password: string) {
    |password| >= 6
  }

  /** A new document: setters applied, role and preferences from the schema defaults. The
      password is still the plain text here; the pre-save hook hashes it. */
  function NewUser(username: string, email: string, password: string): (u: User)
    ensures u.role == Regular && u.preferences == Some(SchemaPreferences)
    ensures u.username == NormalizeUsername(username) && u.email == NormalizeEmail(email)
  {
    User(NormalizeUsername(username), NormalizeEmail(email), password, Regular, Some(SchemaPreferences))
  }

  /** The pre-save hook: the password is hashed only when the save modified it. */
  function PreSave(doc: User, passwordModified: bool, hash: string -> string): (r: User)
    ensures r.(password := doc.password) == doc
    ensures !passwordModified ==> r == doc
    ensures passwordModified ==> r.password == hash(doc.password)
  {
    if passwordModified then doc.(password := hash(doc.password)) else doc
  }
}
