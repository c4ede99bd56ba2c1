/**
 * Properties that join several handlers: the quota and the soft delete, the notification opt-out
 * and the email scans, and the two meanings of "overdue".
 */
module CrossChecks {
  import opened Wrappers
  import opened UserModel
  import opened TaskModel
  import Store
  import RoleCheck
  import TaskController
  import PreferencesController
  import EmailScheduler
  import DashboardController

  /** Soft-deleting one of a user's live tasks lowers the count the quota reads by one, so a plain
      user at the limit may create a task again. */
  lemma {:induction false} SoftDeleteFreesQuotaSlot(tasks: map<TaskId, Task>, owner: UserId, id: TaskId)
    requires id in tasks && tasks[id].userId == owner && !tasks[id].isDeleted
    ensures RoleCheck.ActiveTaskCount(TaskController.SoftDeleted(tasks, id), owner) + 1 == RoleCheck.ActiveTaskCount(tasks, owner)
    ensures RoleCheck.ActiveTaskCount(tasks, owner) == RoleCheck.TASK_LIMIT ==>
      RoleCheck.CheckTaskLimit(Some(RoleCheck.Principal(owner, Some(Regular))),
                               Some(RoleCheck.ActiveTaskCount(TaskController.SoftDeleted(tasks, id), owner))) == RoleCheck.Pass
  {
    var before := Store.ActiveTasksOf(tasks, owner);
    var after := Store.ActiveTasksOf(TaskController.SoftDeleted(tasks, id), owner);
    assert after == before - {id};
  }

  /** Deleting a task that is already soft-deleted leaves the quota count as it was. */
  lemma SecondDeleteKeepsCount(tasks: map<TaskId, Task>, owner: UserId, id: TaskId)
    requires id in tasks && tasks[id].isDeleted
    ensures RoleCheck.ActiveTaskCount(TaskController.SoftDeleted(tasks, id), owner) == RoleCheck.ActiveTaskCount(tasks, owner)
  {
    assert TaskController.SoftDeleted(tasks, id) == tasks;
  }

  /** Turning email notifications off through the preference update stops both scans from writing
      to that user, whatever else the body holds. */
  lemma {:induction false} OptOutSilencesScans(tasks: map<TaskId, Task>, users: map<UserId, User>, uid: UserId,
                                               body: PreferencesController.PreferencesBody, ids: set<TaskId>, id: TaskId)
    requires uid in users && body.emailNotifications == Some(false)
    requires id in tasks && tasks[id].userId == uid
    ensures var after := users[uid := users[uid].(preferences := Some(PreferencesController.Merge(users[uid].preferences, body)))];
      !EmailScheduler.WantsEmail(after[uid]) && id !in EmailScheduler.Notified(tasks, after, ids)
  {
    var after := users[uid := users[uid].(preferences := Some(PreferencesController.Merge(users[uid].preferences, body)))];
    assert after[uid].preferences.value.emailNotifications == Some(false);
  }

  /** A task due earlier today and not completed is overdue on the dashboard, but the overdue email
      scan, which compares with midnight, does not pick it until the next day. */
  lemma DashboardAndScanDisagreeOnToday(tasks: map<TaskId, Task>, owner: UserId, id: TaskId, now: int)
    requires id in tasks && tasks[id].userId == owner && !tasks[id].isDeleted && tasks[id].status != Completed
    requires tasks[id].dueDate.Some? && EmailScheduler.StartOfDay(now) <= tasks[id].dueDate.value < now
    ensures id in DashboardController.Counted(tasks, owner, DashboardController.OverdueAt(now))
    ensures id !in EmailScheduler.OverdueSelected(tasks, now)
  {
  }
}
