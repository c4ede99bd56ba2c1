/**
 * The role gate and the task quota for regular users. A gate either lets the request through to
 * the next handler or answers it itself.
 */
module RoleCheck {
  import opened Wrappers
  import opened UserModel
  import opened TaskModel
  import Store

  /** What the authentication middleware attaches to a request as its user. */
  datatype Principal = Principal(id: UserId, role: Option<Role>)

  datatype Gate =
    | Pass
    | Reject(code: int, message: string)
    | OverQuota(currentCount: nat, limit: nat)

  /** The most tasks a regular user may hold. */
  const TASK_LIMIT := 20

  /** A principal without a role counts as a regular user. */
  function EffectiveRole(p: Principal): Role {
    p.role.GetOr(Regular)
  }

  /** The role names joined with " or ", as the denial message lists them. */
  function JoinRoles(roles: seq<Role>): string {
    if |roles| == 0 then ""
    else if |roles| == 1 then roles[0].Name()
    else roles[0].Name() + " or " + JoinRoles(roles[1..])
  }

  function DeniedMessage(allowed: seq<Role>): string {
    "Access denied. Required role: " + JoinRoles(allowed)
  }

  /** `roleCheck(...allowed)`: 401 without a user, 403 naming the allowed roles when the user's
      role is not among them, and the next handler otherwise. */
  function CheckRole(user: Option<Principal>, allowed: seq<Role>): (g: Gate)
    ensures user.None? ==> g == Reject(401, "Authentication required")
    ensures user.Some? ==> (g == Pass <==> EffectiveRole(user.value) in allowed)
    ensures user.Some? && g != Pass ==> g == Reject(403, DeniedMessage(allowed))
  {
    if user.None? then Reject(401, "Authentication required")
    else if EffectiveRole(user.value) in allowed then Pass
    else Reject(403, DeniedMessage(allowed))
  }

  function IsAdmin(user: Option<Principal>): Gate {
    CheckRole(user, [Admin])
  }

  function IsPremiumOrAdmin(user: Option<Principal>): Gate {
    CheckRole(user, [Admin, Premium])
  }

  /** `isAdmin` admits exactly the admins, and names only that role when it refuses. */
  lemma IsAdminAdmitsOnlyAdmins(p: Principal)
    ensures IsAdmin(Some(p)) == Pass <==> EffectiveRole(p) == Admin
    ensures IsAdmin(Some(p)) != Pass ==> IsAdmin(Some(p)) == Reject(403, "Access denied. Required role: admin")
  {
  }

  /** `isPremiumOrAdmin` admits exactly admins and premium users; a regular user, or a user with
      no role, is refused. Roles are not ranked: an admin passes because it is listed. */
  lemma PremiumOrAdminIsFlat(p: Principal)
    ensures IsPremiumOrAdmin(Some(p)) == Pass <==> EffectiveRole(p) in {Admin, Premium}
    ensures p.role.None? ==> IsPremiumOrAdmin(Some(p)) == Reject(403, "Access denied. Required role: admin or premium")
  {
  }

  /** `checkTaskLimit`. `count` is the number of the user's tasks that are not soft-deleted, as
      the store reports it, or None when counting failed. A missing user makes reading its role
      throw, which the handler turns into 500 like a failed count. */
  function CheckTaskLimit(user: Option<Principal>, count: Option<nat>): (g: Gate)
    ensures user.None? ==> g == Reject(500, "Error checking task limit")
    ensures user.Some? && EffectiveRole(user.value) in {Admin, Premium} ==> g == Pass
    ensures user.Some? && EffectiveRole(user.value) == Regular ==>
      && (count.None? ==> g == Reject(500, "Error checking task limit"))
      && (count.Some? ==> (g == Pass <==> count.value < TASK_LIMIT))
      && (count.Some? && g != Pass ==> g == OverQuota(count.value, TASK_LIMIT))
  {
    if user.None? then Reject(500, "Error checking task limit")
    else
      var role := EffectiveRole(user.value);
      if role == Admin || role == Premium then Pass
      else if count.None? then Reject(500, "Error checking task limit")
      else if count.value >= TASK_LIMIT then OverQuota(count.value, TASK_LIMIT)
      else Pass
  }

  /** The count the quota reads: the user's tasks that are not soft-deleted. */
  function ActiveTaskCount(tasks: map<TaskId, Task>, owner: UserId): nat {
    |Store.ActiveTasksOf(tasks, owner)|
  }

  /** The `skip` predicate of the task-creation rate limiter: admins and premium users are not
      counted. It reads the role without defaulting it. */
  predicate TaskCreationLimiterSkips(user: Option<Principal>) {
    user.Some? && user.value.role in {Some(Admin), Some(Premium)}
  }

  /** The two exemptions agree: whoever the rate limiter skips passes the quota whatever the count
      or its failure, and whoever it counts is held to the quota. */
  lemma LimiterAndQuotaExemptSameUsers(user: Option<Principal>)
    ensures TaskCreationLimiterSkips(user) <==>
      (forall count: Option<nat> :: CheckTaskLimit(user, count) == Pass)
  {
    if !TaskCreationLimiterSkips(user) {
      assert CheckTaskLimit(user, None) != Pass;
    }
  }

  /** Never a pass when counting failed for someone subject to the quota. */
  lemma FailedCountNeverPasses(p: Principal)
    requires EffectiveRole(p) == Regular
    ensures CheckTaskLimit(Some(p), None) == Reject(500, "Error checking task limit")
  {
  }
}
