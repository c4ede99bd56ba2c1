/**
 * The dashboard counts: every figure is over the requester's tasks that are not soft-deleted.
 */
module DashboardController {
  import opened Wrappers
  import opened UserModel
  import opened TaskModel
  import Store

  /** `completionRate`: 0 without tasks; otherwise the percentage completed/total, whose
      two-decimal text is not modelled. */
  datatype Rate = NoTasks | Percentage(completed: nat, total: nat)

  datatype Dashboard = Dashboard(
    totalTasks: nat,
    completedTasks: nat,
    todoTasks: nat,
    inProgressTasks: nat,
    highPriorityTasks: nat,
    overdueTasks: nat,
    tasksByCategory: map<Category, nat>,
    tasksByPriority: map<Priority, nat>,
    completionRate: Rate)

  /** The conditions the counting queries add to `{ userId, isDeleted: false }`. */
  datatype Criterion = HasStatus(s: Status) | HasPriority(p: Priority) | HasCategory(c: Category) | OverdueAt(now: int)

  predicate Meets(t: Task, k: Criterion) {
    match k
    case HasStatus(s) => t.status == s
    case HasPriority(p) => t.priority == p
    case HasCategory(c) => t.category == c
    case OverdueAt(now) => Overdue(t, now)
  }

  /** The ids of the owner's live tasks that meet `k`. */
  function Counted(tasks: map<TaskId, Task>, owner: UserId, k: Criterion): (r: set<TaskId>)
    ensures r <= Store.ActiveTasksOf(tasks, owner)
  {
    set id | id in tasks && tasks[id].userId == owner && !tasks[id].isDeleted && Meets(tasks[id], k)
  }

  /** `dueDate < now` and not completed: the current instant, not the start of the day. */
  predicate Overdue(t: Task, now: int) {
    t.dueDate.Some? && t.dueDate.value < now && t.status != Completed
  }

  function CountStatus(tasks: map<TaskId, Task>, owner: UserId, s: Status): nat {
    |Counted(tasks, owner, HasStatus(s))|
  }

  function CountCategory(tasks: map<TaskId, Task>, owner: UserId, c: Category): nat {
    |Counted(tasks, owner, HasCategory(c))|
  }

  function CountPriority(tasks: map<TaskId, Task>, owner: UserId, p: Priority): nat {
    |Counted(tasks, owner, HasPriority(p))|
  }

  /** A `$group` stage: one entry per value that occurs, with its count. */
  function CategoryGroups(tasks: map<TaskId, Task>, owner: UserId): (m: map<Category, nat>)
    ensures forall c :: c in m ==> m[c] > 0
  {
    map c | c in {Work, Personal, Urgent, Other} && CountCategory(tasks, owner, c) > 0 :: CountCategory(tasks, owner, c)
  }

  function PriorityGroups(tasks: map<TaskId, Task>, owner: UserId): (m: map<Priority, nat>)
    ensures forall p :: p in m ==> m[p] > 0
  {
    map p | p in {Low, Medium, High} && CountPriority(tasks, owner, p) > 0 :: CountPriority(tasks, owner, p)
  }

  /** `getDashboard` for `owner` at instant `now`. */
  function GetDashboard(tasks: map<TaskId, Task>, owner: UserId, now: int): (d: Dashboard)
    ensures d.totalTasks == |Store.ActiveTasksOf(tasks, owner)|
    ensures d.completionRate.NoTasks? <==> d.totalTasks == 0
    ensures d.completionRate.Percentage? ==> d.completionRate == Percentage(d.completedTasks, d.totalTasks)
  {
    var total := |Store.ActiveTasksOf(tasks, owner)|;
    var completed := CountStatus(tasks, owner, Completed);
    Dashboard(
      total,
      completed,
      CountStatus(tasks, owner, Todo),
      CountStatus(tasks, owner, InProgress),
      CountPriority(tasks, owner, High),
      |Counted(tasks, owner, OverdueAt(now))|,
      CategoryGroups(tasks, owner),
      PriorityGroups(tasks, owner),
      if total > 0 then Percentage(completed, total) else NoTasks)
  }

  /** Two disjoint sets of live tasks whose union is `whole` split its count. */
  lemma SplitCount(whole: set<TaskId>, a: set<TaskId>, b: set<TaskId>)
    requires a + b == whole && a * b == {}
    ensures |whole| == |a| + |b|
  {
  }

  /** The three status counts add up to the total, since every stored status is one of the three. */
  lemma {:induction false} StatusCountsAddUp(tasks: map<TaskId, Task>, owner: UserId, now: int)
    ensures var d := GetDashboard(tasks, owner, now);
      d.completedTasks + d.todoTasks + d.inProgressTasks == d.totalTasks
  {
    var all := Store.ActiveTasksOf(tasks, owner);
    var c := Counted(tasks, owner, HasStatus(Completed));
    var td := Counted(tasks, owner, HasStatus(Todo));
    var ip := Counted(tasks, owner, HasStatus(InProgress));
    SplitCount(td + ip, td, ip);
    SplitCount(all, c, td + ip);
  }

  /** Every count is at most the total, and the completed count is what the rate is made of. */
  lemma {:induction false} CountsBoundedByTotal(tasks: map<TaskId, Task>, owner: UserId, now: int)
    ensures var d := GetDashboard(tasks, owner, now);
      && d.completedTasks <= d.totalTasks && d.todoTasks <= d.totalTasks && d.inProgressTasks <= d.totalTasks
      && d.highPriorityTasks <= d.totalTasks && d.overdueTasks <= d.totalTasks
      && (d.completionRate.Percentage? ==> d.completionRate.completed <= d.completionRate.total)
  {
    var all := Store.ActiveTasksOf(tasks, owner);
    SubsetCount(Counted(tasks, owner, HasStatus(Completed)), all);
    SubsetCount(Counted(tasks, owner, HasStatus(Todo)), all);
    SubsetCount(Counted(tasks, owner, HasStatus(InProgress)), all);
    SubsetCount(Counted(tasks, owner, HasPriority(High)), all);
    SubsetCount(Counted(tasks, owner, OverdueAt(now)), all);
  }

  lemma SubsetCount(a: set<TaskId>, b: set<TaskId>)
    requires a <= b
    ensures |a| <= |b|
  {
    SplitCount(b, a, b - a);
  }

  /** The sum of a group map's counts. */
  function CategorySum(m: map<Category, nat>): nat {
    (if Work in m then m[Work] else 0) + (if Personal in m then m[Personal] else 0)
    + (if Urgent in m then m[Urgent] else 0) + (if Other in m then m[Other] else 0)
  }

  function PrioritySum(m: map<Priority, nat>): nat {
    (if Low in m then m[Low] else 0) + (if Medium in m then m[Medium] else 0) + (if High in m then m[High] else 0)
  }

  /** Absent groups count zero, so the sum over the group map is the sum of the four counts. */
  lemma CategorySumOfCounts(tasks: map<TaskId, Task>, owner: UserId)
    ensures CategorySum(CategoryGroups(tasks, owner)) ==
      CountCategory(tasks, owner, Work) + CountCategory(tasks, owner, Personal)
      + CountCategory(tasks, owner, Urgent) + CountCategory(tasks, owner, Other)
  {
  }

  lemma PrioritySumOfCounts(tasks: map<TaskId, Task>, owner: UserId)
    ensures PrioritySum(PriorityGroups(tasks, owner)) ==
      CountPriority(tasks, owner, Low) + CountPriority(tasks, owner, Medium) + CountPriority(tasks, owner, High)
  {
  }

  /** The category groups account for every live task once. */
  lemma {:induction false} CategoryGroupsAddUp(tasks: map<TaskId, Task>, owner: UserId, now: int)
    ensures CategorySum(GetDashboard(tasks, owner, now).tasksByCategory) == GetDashboard(tasks, owner, now).totalTasks
  {
    var all := Store.ActiveTasksOf(tasks, owner);
    var w := Counted(tasks, owner, HasCategory(Work));
    var p := Counted(tasks, owner, HasCategory(Personal));
    var u := Counted(tasks, owner, HasCategory(Urgent));
    var o := Counted(tasks, owner, HasCategory(Other));
    SplitCount(w + p, w, p);
    SplitCount(u + o, u, o);
    SplitCount(all, w + p, u + o);
    CategorySumOfCounts(tasks, owner);
  }

  /** The priority groups account for every live task once. */
  lemma {:induction false} PriorityGroupsAddUp(tasks: map<TaskId, Task>, owner: UserId, now: int)
    ensures PrioritySum(GetDashboard(tasks, owner, now).tasksByPriority) == GetDashboard(tasks, owner, now).totalTasks
  {
    var all := Store.ActiveTasksOf(tasks, owner);
    var lo := Counted(tasks, owner, HasPriority(Low));
    var me := Counted(tasks, owner, HasPriority(Medium));
    var hi := Counted(tasks, owner, HasPriority(High));
    SplitCount(lo + me, lo, me);
    SplitCount(all, lo + me, hi);
    PrioritySumOfCounts(tasks, owner);
  }

  /** A task due earlier today and not completed is already overdue on the dashboard. */
  lemma DueEarlierTodayIsOverdue(tasks: map<TaskId, Task>, owner: UserId, id: TaskId, now: int)
    requires id in tasks && tasks[id].userId == owner && !tasks[id].isDeleted
    requires tasks[id].status != Completed && tasks[id].dueDate == Some(now - 1)
    ensures id in Counted(tasks, owner, OverdueAt(now))
    ensures GetDashboard(tasks, owner, now).overdueTasks > 0
  {
    assert Counted(tasks, owner, OverdueAt(now)) != {};
  }
}
