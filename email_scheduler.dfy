/**
 * The two daily scans over the task collection: the reminder scan for tasks due tomorrow and the
 * overdue scan for tasks whose due date has passed, plus the manual check that lists what the
 * reminder scan would pick. Time is in milliseconds, midnights are UTC midnights, and sending an
 * email is a function that reports whether the transport accepted it.
 */
module EmailScheduler {
  import opened Wrappers
  import opened UserModel
  import opened TaskModel
  import Store

  const DAY_MS: int := 86400000

  /** Midnight at the start of the day holding `t`. */
  function StartOfDay(t: int): (m: int)
    ensures m <= t < m + DAY_MS
    ensures m % DAY_MS == 0
  {
    t - t % DAY_MS
  }

  lemma MidnightOfNextDay(t: int)
    ensures StartOfDay(t + DAY_MS) == StartOfDay(t) + DAY_MS
  {
    assert (t + DAY_MS) % DAY_MS == t % DAY_MS;
  }

  lemma {:induction false} StartOfDayMonotone(a: int, b: int)
    requires a <= b
    ensures StartOfDay(a) <= StartOfDay(b)
  {
    var ka, kb := StartOfDay(a) / DAY_MS, StartOfDay(b) / DAY_MS;
    assert StartOfDay(a) == ka * DAY_MS && StartOfDay(b) == kb * DAY_MS;
  }

  /** The half-open interval of instants `[start, end)`. */
  datatype Window = Window(start: int, end: int) {
    predicate Contains(t: int) {
      start <= t < end
    }
  }

  /** `tomorrow` and `dayAfterTomorrow`: one day forward, back to midnight, one more day. */
  function ReminderWindow(now: int): (w: Window)
    ensures w.start == StartOfDay(now) + DAY_MS && w.end == w.start + DAY_MS
  {
    MidnightOfNextDay(now);
    var tomorrow := StartOfDay(now + DAY_MS);
    Window(tomorrow, tomorrow + DAY_MS)
  }

  /** The reminder query: not completed and due inside tomorrow's window. */
  predicate DueTomorrow(t: Task, now: int) {
    t.status != Completed && t.dueDate.Some? && ReminderWindow(now).Contains(t.dueDate.value)
  }

  /** The overdue query: not completed, due before today's midnight, flag not yet set. */
  predicate OverdueUnflagged(t: Task, now: int) {
    t.status != Completed && t.dueDate.Some? && t.dueDate.value < StartOfDay(now) && !t.overdueEmailSent
  }

  function ReminderSelected(tasks: map<TaskId, Task>, now: int): set<TaskId> {
    set id | id in tasks && DueTomorrow(tasks[id], now)
  }

  function OverdueSelected(tasks: map<TaskId, Task>, now: int): set<TaskId> {
    set id | id in tasks && OverdueUnflagged(tasks[id], now)
  }

  /** The owner's preference: only an explicit `emailNotifications: false` turns email off; a
      missing preferences object or field leaves it on. */
  predicate WantsEmail(u: User) {
    !(u.preferences.Some? && u.preferences.value.emailNotifications == Some(false))
  }

  datatype Email = Email(to: string, username: string, taskTitle: string, dueDate: Option<int>)

  function EmailFor(t: Task, owner: User): Email {
    Email(owner.email, owner.username, t.title, t.dueDate)
  }

  /** Some task among `ids` has no stored owner, so reading its owner's preferences throws. */
  predicate HasOrphan(tasks: map<TaskId, Task>, users: map<UserId, User>, ids: set<TaskId>) {
    exists id :: id in ids && id in tasks && tasks[id].userId !in users
  }

  /** The tasks among `ids` for which an email is sent: the owner exists and wants email. */
  function Notified(tasks: map<TaskId, Task>, users: map<UserId, User>, ids: set<TaskId>): set<TaskId> {
    set id | id in ids && id in tasks && tasks[id].userId in users && WantsEmail(users[tasks[id].userId])
  }

  /** The notified tasks whose email the transport accepted. */
  function Delivered(tasks: map<TaskId, Task>, users: map<UserId, User>, ids: set<TaskId>,
                     deliver: Email -> bool): (r: set<TaskId>)
    ensures r <= Notified(tasks, users, ids)
  {
    set id | id in Notified(tasks, users, ids) && deliver(EmailFor(tasks[id], users[tasks[id].userId]))
  }

  /** The store after setting `overdueEmailSent` on the tasks in `ids`. */
  function MarkSent(tasks: map<TaskId, Task>, ids: set<TaskId>): (r: map<TaskId, Task>)
    ensures r.Keys == tasks.Keys
  {
    map id | id in tasks :: if id in ids then tasks[id].(overdueEmailSent := true) else tasks[id]
  }

  /** `manualCheckDeadlines`: the tasks the reminder query returns, sending nothing. Listing them
      reads each owner's username, which throws for a task without an owner. */
  function ManualCheckDeadlines(tasks: map<TaskId, Task>, users: map<UserId, User>, now: int): (r: Option<set<TaskId>>)
    ensures r.None? <==> exists id :: id in tasks && DueTomorrow(tasks[id], now) && tasks[id].userId !in users
    ensures r.Some? ==> forall id :: id in r.value <==> id in tasks && DueTomorrow(tasks[id], now)
  {
    var found := ReminderSelected(tasks, now);
    if HasOrphan(tasks, users, found) then None else Some(found)
  }

  /** The 9:00 reminder scan. It sends one reminder per selected task whose owner wants email and
      changes no task. A task without an owner throws, and the rest of the batch is skipped. */
  method RunReminderScan(db: Store.Db, now: int) returns (reminded: set<TaskId>, aborted: bool)
    ensures aborted <==> ManualCheckDeadlines(db.tasks, db.users, now).None?
    ensures !aborted ==> reminded == Notified(db.tasks, db.users, ManualCheckDeadlines(db.tasks, db.users, now).value)
    ensures reminded <= Notified(db.tasks, db.users, ReminderSelected(db.tasks, now))
  {
    var tomorrow := now + DAY_MS;
    tomorrow := StartOfDay(tomorrow);
    var dayAfterTomorrow := tomorrow + DAY_MS;
    MidnightOfNextDay(now);
    var found := set id | id in db.tasks && db.tasks[id].status != Completed && db.tasks[id].dueDate.Some?
                                         && tomorrow <= db.tasks[id].dueDate.value < dayAfterTomorrow;
    assert found == ReminderSelected(db.tasks, now);
    var pending := found;
    reminded, aborted := {}, false;
    while pending != {}
      invariant pending <= found
      invariant forall id :: id in found - pending ==> db.tasks[id].userId in db.users
      invariant reminded == Notified(db.tasks, db.users, found - pending)
      invariant !aborted
      decreases pending
    {
      var id :| id in pending;
      var task := db.tasks[id];
      if task.userId !in db.users {
        aborted := true;
        break;
      }
      if WantsEmail(db.users[task.userId]) {
        reminded := reminded + {id};
      }
      pending := pending - {id};
    }
    assert !aborted ==> found - pending == found;
  }

  /** The scan keeps no flag, so two runs on the same day send the same reminders twice. */
  method RunReminderScanTwice(db: Store.Db, now: int) returns (first: set<TaskId>, second: set<TaskId>)
    requires !HasOrphan(db.tasks, db.users, ReminderSelected(db.tasks, now))
    ensures first == second == Notified(db.tasks, db.users, ReminderSelected(db.tasks, now))
  {
    var aborted;
    first, aborted := RunReminderScan(db, now);
    second, aborted := RunReminderScan(db, now);
  }

  /** The 10:00 overdue scan. For each selected task whose owner wants email it sends one email and
      sets `overdueEmailSent` only when the transport reported success. A task without an owner
      throws, and the rest of the batch is skipped; `processed` says which tasks were handled. */
  method RunOverdueScan(db: Store.Db, now: int, deliver: Email -> bool)
    returns (attempted: set<TaskId>, aborted: bool, ghost processed: set<TaskId>)
    modifies db`tasks
    ensures processed <= OverdueSelected(old(db.tasks), now)
    ensures aborted <==> HasOrphan(old(db.tasks), db.users, OverdueSelected(old(db.tasks), now))
    ensures !aborted ==> processed == OverdueSelected(old(db.tasks), now)
    ensures attempted == Notified(old(db.tasks), db.users, processed)
    ensures db.tasks == MarkSent(old(db.tasks), Delivered(old(db.tasks), db.users, processed, deliver))
    ensures db.tasks == AfterRun(old(db.tasks), Run(now, db.users, deliver, processed))
  {
    var today := now;
    today := StartOfDay(today);
    var found := db.tasks;
    var selected := set id | id in found && found[id].status != Completed && found[id].dueDate.Some?
                                         && found[id].dueDate.value < today && !found[id].overdueEmailSent;
    assert selected == OverdueSelected(found, now);
    var pending := selected;
    attempted, aborted, processed := {}, false, {};
    while pending != {}
      invariant pending <= selected && processed == selected - pending
      invariant forall id :: id in processed ==> found[id].userId in db.users
      invariant attempted == Notified(found, db.users, processed)
      invariant db.tasks == MarkSent(found, Delivered(found, db.users, processed, deliver))
      invariant !aborted
      decreases pending
    {
      var id :| id in pending;
      var task := found[id];
      if task.userId !in db.users {
        aborted := true;
        break;
      }
      var owner := db.users[task.userId];
      if WantsEmail(owner) {
        attempted := attempted + {id};
        var success := deliver(EmailFor(task, owner));
        if success {
          db.tasks := db.tasks[id := task.(overdueEmailSent := true)];
        }
      }
      pending := pending - {id};
      processed := processed + {id};
    }
    assert HandledIn(found, Run(now, db.users, deliver, processed)) == processed;
  }

  /** A task due today, between today's midnight and tomorrow's, is picked by neither scan. */
  lemma DueTodayIsInNeitherScan(t: Task, now: int)
    requires t.dueDate.Some? && StartOfDay(now) <= t.dueDate.value < StartOfDay(now) + DAY_MS
    ensures !DueTomorrow(t, now) && !OverdueUnflagged(t, now)
  {
  }

  /** Neither query looks at `isDeleted`: a soft-deleted task still gets both emails. */
  lemma SoftDeletedTasksAreStillScanned(tasks: map<TaskId, Task>, id: TaskId, now: int)
    requires id in tasks && tasks[id].isDeleted
    ensures DueTomorrow(tasks[id], now) ==> id in ReminderSelected(tasks, now)
    ensures OverdueUnflagged(tasks[id], now) ==> id in OverdueSelected(tasks, now)
  {
  }

  /** One overdue run: the clock, the users as they are at that moment, the transport, and the
      tasks the run got through. A run that stopped at a task without an owner got through only
      part of its selection, so `processed` may be any set; only the selected tasks in it count. */
  datatype Run = Run(now: int, users: map<UserId, User>, deliver: Email -> bool, processed: set<TaskId>)

  /** The selected tasks the run got through. */
  function HandledIn(tasks: map<TaskId, Task>, r: Run): (ids: set<TaskId>)
    ensures ids <= OverdueSelected(tasks, r.now)
  {
    OverdueSelected(tasks, r.now) * r.processed
  }

  function DeliveredIn(tasks: map<TaskId, Task>, r: Run): set<TaskId> {
    Delivered(tasks, r.users, HandledIn(tasks, r), r.deliver)
  }

  function AfterRun(tasks: map<TaskId, Task>, r: Run): (t: map<TaskId, Task>)
    ensures t.Keys == tasks.Keys
  {
    MarkSent(tasks, DeliveredIn(tasks, r))
  }

  /** With email turned off, the overdue scan sends nothing for the task and leaves its flag. */
  lemma NotificationsOffLeaveFlag(tasks: map<TaskId, Task>, r: Run, id: TaskId)
    requires id in tasks && tasks[id].userId in r.users && !WantsEmail(r.users[tasks[id].userId])
    ensures id !in Notified(tasks, r.users, OverdueSelected(tasks, r.now))
    ensures AfterRun(tasks, r)[id] == tasks[id]
  {
  }

  /** A failed send leaves the flag unset, so the task is selected again by any later run while
      it stays incomplete and keeps its due date. */
  lemma FailedSendIsRetried(tasks: map<TaskId, Task>, r: Run, id: TaskId, later: int)
    requires id in OverdueSelected(tasks, r.now) && tasks[id].userId in r.users
    requires !r.deliver(EmailFor(tasks[id], r.users[tasks[id].userId]))
    requires r.now <= later
    ensures AfterRun(tasks, r)[id] == tasks[id]
    ensures id in OverdueSelected(AfterRun(tasks, r), later)
  {
    StartOfDayMonotone(r.now, later);
  }

  /** The overdue scan only ever sets flags: a set flag stays set and nothing else changes. */
  lemma AfterRunOnlySetsFlags(tasks: map<TaskId, Task>, r: Run, id: TaskId)
    requires id in tasks
    ensures var t := AfterRun(tasks, r)[id];
      t == tasks[id] || (t == tasks[id].(overdueEmailSent := true) && id in DeliveredIn(tasks, r))
    ensures id in DeliveredIn(tasks, r) ==> AfterRun(tasks, r)[id].overdueEmailSent
  {
  }

  /** The stores before and after each run of a sequence of overdue runs; users may change
      between runs, and a run may stop part-way. */
  function History(tasks: map<TaskId, Task>, runs: seq<Run>): (h: seq<map<TaskId, Task>>)
    ensures |h| == |runs| + 1 && h[0] == tasks
    ensures forall k :: 0 <= k < |runs| ==> h[k + 1] == AfterRun(h[k], runs[k])
    decreases |runs|
  {
    if runs == [] then [tasks]
    else
      var rest := History(AfterRun(tasks, runs[0]), runs[1..]);
      assert forall k :: 1 <= k < |runs| ==> rest[k] == AfterRun(rest[k - 1], runs[1..][k - 1]);
      [tasks] + rest
  }

  lemma {:induction false} FlagStaysSet(tasks: map<TaskId, Task>, runs: seq<Run>, k: nat, m: nat, id: TaskId)
    requires k <= m <= |runs|
    requires id in History(tasks, runs)[k] && History(tasks, runs)[k][id].overdueEmailSent
    ensures id in History(tasks, runs)[m] && History(tasks, runs)[m][id].overdueEmailSent
    decreases m - k
  {
    if k < m {
      var h := History(tasks, runs);
      AfterRunOnlySetsFlags(h[k], runs[k], id);
      FlagStaysSet(tasks, runs, k + 1, m, id);
    }
  }

  /** Appending a run leaves the earlier stores of the history as they were. */
  lemma {:induction false} HistoryExtends(tasks: map<TaskId, Task>, runs: seq<Run>, r: Run, k: nat)
    requires k <= |runs|
    ensures History(tasks, runs + [r])[k] == History(tasks, runs)[k]
  {
    if k > 0 {
      HistoryExtends(tasks, runs, r, k - 1);
      assert (runs + [r])[k - 1] == runs[k - 1];
    }
  }

  /** The daily overdue job on successive days: each day's scan is one run of the history, with
      the users as they are and the tasks that scan got through. */
  method RunOverdueScans(db: Store.Db, days: seq<int>, deliver: Email -> bool) returns (ghost runs: seq<Run>)
    modifies db`tasks
    ensures |runs| == |days|
    ensures forall k :: 0 <= k < |runs| ==> runs[k].now == days[k] && runs[k].users == db.users && runs[k].deliver == deliver
    ensures db.tasks == History(old(db.tasks), runs)[|runs|]
    ensures var h := History(old(db.tasks), runs);
      forall i, j, id :: 0 <= i < j < |runs| && id in DeliveredIn(h[i], runs[i]) ==> id !in DeliveredIn(h[j], runs[j])
  {
    runs := [];
    var k := 0;
    while k < |days|
      invariant 0 <= k <= |days| && |runs| == k
      invariant forall j :: 0 <= j < k ==> runs[j].now == days[j] && runs[j].users == db.users && runs[j].deliver == deliver
      invariant db.tasks == History(old(db.tasks), runs)[k]
    {
      var attempted, aborted, processed := RunOverdueScan(db, days[k], deliver);
      ghost var r := Run(days[k], db.users, deliver, processed);
      HistoryExtends(old(db.tasks), runs, r, k);
      runs := runs + [r];
      k := k + 1;
    }
    ghost var h := History(old(db.tasks), runs);
    forall i, j, id | 0 <= i < j < |runs| && id in DeliveredIn(h[i], runs[i])
      ensures id !in DeliveredIn(h[j], runs[j])
    {
      AtMostOneOverdueEmail(old(db.tasks), runs, i, j, id);
    }
  }

  /** Across any sequence of overdue runs, a task's overdue email is delivered in at most one of
      them: the run that delivers it sets the flag, and a flagged task is never selected again. */
  lemma AtMostOneOverdueEmail(tasks: map<TaskId, Task>, runs: seq<Run>, i: nat, j: nat, id: TaskId)
    requires i < j < |runs|
    ensures var h := History(tasks, runs);
      !(id in DeliveredIn(h[i], runs[i]) && id in DeliveredIn(h[j], runs[j]))
  {
    var h := History(tasks, runs);
    if id in DeliveredIn(h[i], runs[i]) {
      AfterRunOnlySetsFlags(h[i], runs[i], id);
      FlagStaysSet(tasks, runs, i + 1, j, id);
      assert id !in OverdueSelected(h[j], runs[j].now);
    }
  }
}
