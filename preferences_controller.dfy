/**
 * The preference handlers: reading with a fallback record, the validated partial update, and the
 * reset to the fallback record.
 */
module PreferencesController {
  import opened Wrappers
  import opened Http
  import opened UserModel
  import Text
  import Store

  /** The record `getPreferences` falls back to and `resetPreferences` stores. It differs from the
      schema's defaults (Russian instead of English, and four more fields). */
  const DefaultPreferences: Preferences :=
    Preferences(Some("light"), Some("ru"), Some("Asia/Almaty"), Some(true), Some(true), Some(true), Some(false))

  const Themes: seq<string> := ["light", "dark", "auto"]
  const Languages: seq<string> := ["ru", "en", "kk"]

  /** The fields of an update body; a field is None when the body lacks it. */
  datatype PreferencesBody = PreferencesBody(
    theme: Option<string>,
    language: Option<string>,
    timezone: Option<string>,
    emailNotifications: Option<bool>,
    deadlineReminders: Option<bool>,
    taskAssignmentNotifications: Option<bool>,
    weeklyDigest: Option<bool>)

  /** `getPreferences`: the stored preferences, or the fallback record when there are none. */
  function GetPreferences(users: map<UserId, User>, id: UserId): (r: Reply<Preferences>)
    ensures r.Fail? <==> id !in users
    ensures r.Fail? ==> r == Fail(404, "User not found")
    ensures r.Ok? ==> r.code == 200
    ensures r.Ok? && users[id].preferences.Some? ==> r.data == users[id].preferences.value
    ensures r.Ok? && users[id].preferences.None? ==> r.data == DefaultPreferences
  {
    if id !in users then Fail(NOT_FOUND, "User not found")
    else Ok(OK, users[id].preferences.GetOr(DefaultPreferences))
  }

  /** The 400 message for a body with a truthy theme or language outside the allowed lists; the
      theme is checked first. */
  function CheckBody(body: PreferencesBody): (r: Option<string>)
    ensures r.None? <==>
      (Text.Truthy(body.theme) ==> body.theme.value in Themes) && (Text.Truthy(body.language) ==> body.language.value in Languages)
    ensures r.Some? && Text.Truthy(body.theme) && body.theme.value !in Themes ==>
      r.value == "Invalid theme. Available: light, dark, auto"
    ensures r.Some? && !(Text.Truthy(body.theme) && body.theme.value !in Themes) ==>
      r.value == "Invalid language. Available: ru, en, kk"
  {
    if Text.Truthy(body.theme) && body.theme.value !in Themes then Some("Invalid theme. Available: light, dark, auto")
    else if Text.Truthy(body.language) && body.language.value !in Languages then Some("Invalid language. Available: ru, en, kk")
    else None
  }

  /** A text field overwrites when truthy. */
  function TakeText(supplied: Option<string>, current: Option<string>): Option<string> {
    if Text.Truthy(supplied) then supplied else current
  }

  /** A boolean field overwrites whenever it is present, `false` included. */
  function TakeFlag(supplied: Option<bool>, current: Option<bool>): Option<bool> {
    if supplied.Some? then supplied else current
  }

  /** The spread `{ ...current, ...supplied fields }`. */
  function Merge(current: Option<Preferences>, body: PreferencesBody): (r: Preferences)
    ensures Text.Truthy(body.theme) ==> r.theme == body.theme
    ensures body.emailNotifications.Some? ==> r.emailNotifications == body.emailNotifications
    ensures body.weeklyDigest.Some? ==> r.weeklyDigest == body.weeklyDigest
    ensures Text.Truthy(body.language) ==> r.language == body.language
    ensures Text.Truthy(body.timezone) ==> r.timezone == body.timezone
    ensures body.deadlineReminders.Some? ==> r.deadlineReminders == body.deadlineReminders
    ensures body.taskAssignmentNotifications.Some? ==> r.taskAssignmentNotifications == body.taskAssignmentNotifications
  {
    var base := current.GetOr(Preferences(None, None, None, None, None, None, None));
    Preferences(
      TakeText(body.theme, base.theme),
      TakeText(body.language, base.language),
      TakeText(body.timezone, base.timezone),
      TakeFlag(body.emailNotifications, base.emailNotifications),
      TakeFlag(body.deadlineReminders, base.deadlineReminders),
      TakeFlag(body.taskAssignmentNotifications, base.taskAssignmentNotifications),
      TakeFlag(body.weeklyDigest, base.weeklyDigest))
  }

  /** Fields the body does not supply keep their stored values; an empty theme, language or
      timezone counts as not supplied. */
  lemma MergeKeepsUnsupplied(p: Preferences, body: PreferencesBody)
    ensures !Text.Truthy(body.theme) ==> Merge(Some(p), body).theme == p.theme
    ensures !Text.Truthy(body.language) ==> Merge(Some(p), body).language == p.language
    ensures !Text.Truthy(body.timezone) ==> Merge(Some(p), body).timezone == p.timezone
    ensures body.emailNotifications.None? ==> Merge(Some(p), body).emailNotifications == p.emailNotifications
    ensures body.deadlineReminders.None? ==> Merge(Some(p), body).deadlineReminders == p.deadlineReminders
    ensures body.taskAssignmentNotifications.None? ==> Merge(Some(p), body).taskAssignmentNotifications == p.taskAssignmentNotifications
    ensures body.weeklyDigest.None? ==> Merge(Some(p), body).weeklyDigest == p.weeklyDigest
  {
  }

  /** An empty body changes nothing. */
  lemma EmptyBodyIsNoOp(p: Preferences)
    ensures Merge(Some(p), PreferencesBody(None, None, None, None, None, None, None)) == p
  {
  }

  /** Applying the same update twice stores what applying it once stores. */
  lemma MergeIdempotent(current: Option<Preferences>, body: PreferencesBody)
    ensures Merge(Some(Merge(current, body)), body) == Merge(current, body)
  {
  }

  /** An update that passed the checks never stores a theme outside the list, nor a language
      outside it, when the stored ones were in it. */
  lemma MergeKeepsChoicesValid(current: Preferences, body: PreferencesBody)
    requires CheckBody(body).None?
    requires current.theme.Some? ==> current.theme.value in Themes
    requires current.language.Some? ==> current.language.value in Languages
    ensures var r := Merge(Some(current), body);
      (r.theme.Some? ==> r.theme.value in Themes) && (r.language.Some? ==> r.language.value in Languages)
  {
  }

  /** `updatePreferences`: the body is checked before the lookup; then the merge is stored and returned. */
  method UpdatePreferences(db: Store.Db, requester: UserId, body: PreferencesBody) returns (reply: Reply<Preferences>)
    modifies db`users
    ensures CheckBody(body).Some? ==> reply == Fail(400, CheckBody(body).value) && db.users == old(db.users)
    ensures CheckBody(body).None? && requester !in old(db.users) ==>
      reply == Fail(404, "User not found") && db.users == old(db.users)
    ensures CheckBody(body).None? && requester in old(db.users) ==>
      var before := old(db.users)[requester];
      var merged := Merge(before.preferences, body);
      db.users == old(db.users)[requester := before.(preferences := Some(merged))] && reply == Ok(200, merged)
  {
    var problem := CheckBody(body);
    if problem.Some? {
      return Fail(BAD_REQUEST, problem.value);
    }
    if requester !in db.users {
      return Fail(NOT_FOUND, "User not found");
    }
    var user := db.users[requester];
    var merged := Merge(user.preferences, body);
    db.users := db.users[requester := user.(preferences := Some(merged))];
    reply := Ok(OK, merged);
  }

  /** `resetPreferences`: 404 for a missing user; otherwise the fallback record is stored. */
  method ResetPreferences(db: Store.Db, requester: UserId) returns (reply: Reply<Preferences>)
    modifies db`users
    ensures requester !in old(db.users) ==> reply == Fail(404, "User not found") && db.users == old(db.users)
    ensures requester in old(db.users) ==>
      && db.users == old(db.users)[requester := old(db.users)[requester].(preferences := Some(DefaultPreferences))]
      && reply == Ok(200, DefaultPreferences)
  {
    if requester !in db.users {
      return Fail(NOT_FOUND, "User not found");
    }
    var user := db.users[requester];
    db.users := db.users[requester := user.(preferences := Some(DefaultPreferences))];
    reply := Ok(OK, DefaultPreferences);
  }

  /** What a later read returns: after an update the merged record, after a reset the fallback
      record, the same as for a user who never stored any, and a second reset changes nothing. */
  lemma ReadAfterWrite(users: map<UserId, User>, id: UserId, body: PreferencesBody)
    requires id in users
    ensures var u := users[id];
      GetPreferences(users[id := u.(preferences := Some(Merge(u.preferences, body)))], id) == Ok(200, Merge(u.preferences, body))
    ensures var reset := users[id := users[id].(preferences := Some(DefaultPreferences))];
      && GetPreferences(reset, id) == Ok(200, DefaultPreferences)
      && GetPreferences(reset, id) == GetPreferences(users[id := users[id].(preferences := None)], id)
      && reset[id := reset[id].(preferences := Some(DefaultPreferences))] == reset
  {
  }
}
