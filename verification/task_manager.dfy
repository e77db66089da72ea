/**
 The app's task store: the ordered task list, the daily energy ceiling and the
 per-day record of whether the ceiling was set. Every operation is a pure
 transition from one store state to the next. The current day key (the
 "yyyy-MM-dd" rendering of the clock) is passed in explicitly.
 */
module TaskManager {
  import opened Wrappers
  import opened Seqs
  import opened TaskModel

  /** The "yyyy-MM-dd" key of a calendar day. */
  type DayKey = string

  datatype Manager = Manager(
    tasks: seq<Task>,
    dailyEnergyCeiling: int,
    dailyEnergySet: map<DayKey, bool>)

  const DefaultEnergyCeiling: int := 100

  /** `isEnergySetForToday`: a missing entry reads as false. As only `true` is
      ever recorded, the day reads as set exactly when it has an entry. */
  function IsEnergySetForToday(m: Manager, today: DayKey): (b: bool)
    ensures b ==> today in m.dailyEnergySet
    ensures OnlyTrueRecorded(m) ==> (b <==> today in m.dailyEnergySet)
  {
    today in m.dailyEnergySet && m.dailyEnergySet[today]
  }

  /** The energy map only ever holds `true`: no operation writes `false`. */
  predicate OnlyTrueRecorded(m: Manager) {
    forall d :: d in m.dailyEnergySet ==> m.dailyEnergySet[d]
  }

  /** A freshly created store: no tasks, the default ceiling, and no day set. */
  function Init(): (r: Manager)
    ensures r.tasks == [] && r.dailyEnergyCeiling == 100
    ensures forall d :: !IsEnergySetForToday(r, d)
    ensures OnlyTrueRecorded(r)
  {
    Manager([], DefaultEnergyCeiling, map[])
  }

  /** `setDailyEnergy`: any integer is accepted as the new ceiling, and today is marked as set. */
  function SetDailyEnergy(m: Manager, amount: int, today: DayKey): (r: Manager)
    ensures r.dailyEnergyCeiling == amount
    ensures IsEnergySetForToday(r, today)
    ensures r.tasks == m.tasks
    ensures forall d :: d != today ==> (d in r.dailyEnergySet <==> d in m.dailyEnergySet)
    ensures forall d :: d != today && d in m.dailyEnergySet ==> r.dailyEnergySet[d] == m.dailyEnergySet[d]
    ensures OnlyTrueRecorded(m) ==> OnlyTrueRecorded(r)
  {
    m.(dailyEnergyCeiling := amount, dailyEnergySet := m.dailyEnergySet[today := true])
  }

  /** `addTask(_ task:)`: appends the given value, even when its id is already present. */
  function AddTask(m: Manager, task: Task): (r: Manager)
    ensures |r.tasks| == |m.tasks| + 1
    ensures r.tasks[..|m.tasks|] == m.tasks && r.tasks[|m.tasks|] == task
    ensures r.dailyEnergyCeiling == m.dailyEnergyCeiling && r.dailyEnergySet == m.dailyEnergySet
  {
    m.(tasks := m.tasks + [task])
  }

  /** `addTask(_ title:)`: appends a new task with the default settings. */
  function AddTitledTask(m: Manager, title: string, id: TaskId, now: Timestamp): (r: Manager)
    ensures |r.tasks| == |m.tasks| + 1 && r.tasks[..|m.tasks|] == m.tasks
    ensures var t := r.tasks[|m.tasks|];
      t.id == id && t.title == title && t.createdDate == now && !t.isCompleted
      && t.taskColor == "purple" && t.taskSymbol == "checkmark" && t.energyCost == 25
    ensures r.dailyEnergyCeiling == m.dailyEnergyCeiling && r.dailyEnergySet == m.dailyEnergySet
  {
    AddTask(m, NewTask(id, title, now))
  }

  /** Position `j` holds the first task of `s` whose id is `id`. */
  predicate IsFirstMatch(s: seq<Task>, id: TaskId, j: int) {
    0 <= j < |s| && s[j].id == id && forall k :: 0 <= k < j ==> s[k].id != id
  }

  /** `firstIndex(where: { $0.id == id })`. */
  function FirstIndex(s: seq<Task>, id: TaskId): (r: Option<nat>)
    ensures r.Some? ==> IsFirstMatch(s, id, r.value)
    ensures r.None? ==> forall k :: 0 <= k < |s| ==> s[k].id != id
  {
    if s == [] then None
    else if s[0].id == id then Some(0)
    else match FirstIndex(s[1..], id)
      case None => None
      case Some(i) => Some(i + 1)
  }

  /** `toggleTaskCompletion`: flips the completion flag of the first task with
      the given task's id; later duplicates and an unknown id are left alone. */
  function ToggleTaskCompletion(m: Manager, task: Task): (r: Manager)
    ensures |r.tasks| == |m.tasks|
    ensures forall j :: 0 <= j < |m.tasks| ==>
      if IsFirstMatch(m.tasks, task.id, j)
      then r.tasks[j] == m.tasks[j].(isCompleted := !m.tasks[j].isCompleted)
      else r.tasks[j] == m.tasks[j]
    ensures forall j :: 0 <= j < |m.tasks| ==> SameIdentity(r.tasks[j], m.tasks[j])
    ensures r.dailyEnergyCeiling == m.dailyEnergyCeiling && r.dailyEnergySet == m.dailyEnergySet
  {
    match FirstIndex(m.tasks, task.id)
    case None => m
    case Some(i) =>
      m.(tasks := m.tasks[i := m.tasks[i].(isCompleted := !m.tasks[i].isCompleted)])
  }

  /** `deleteTask`: removes every task carrying the given task's id. */
  function DeleteTask(m: Manager, task: Task): (r: Manager)
    ensures IsSubsequence(r.tasks, m.tasks)
    ensures forall j :: 0 <= j < |r.tasks| ==> r.tasks[j].id != task.id
    ensures forall t: Task :: t.id != task.id ==> multiset(r.tasks)[t] == multiset(m.tasks)[t]
    ensures r.dailyEnergyCeiling == m.dailyEnergyCeiling && r.dailyEnergySet == m.dailyEnergySet
  {
    var keep := (t: Task) => t.id != task.id;
    FilterSpec(m.tasks, keep);
    m.(tasks := Filter(m.tasks, keep))
  }

  /** No task of the store carries this id. */
  predicate Absent(m: Manager, id: TaskId) {
    forall j :: 0 <= j < |m.tasks| ==> m.tasks[j].id != id
  }

  /** Toggling a task whose id is absent changes nothing. */
  lemma ToggleUnknownIsNoOp(m: Manager, task: Task)
    requires Absent(m, task.id)
    ensures ToggleTaskCompletion(m, task) == m
  {
  }

  /** Toggling the same task twice restores the original store. */
  lemma ToggleTwice(m: Manager, task: Task)
    ensures ToggleTaskCompletion(ToggleTaskCompletion(m, task), task) == m
  {
  }

  /** Deleting an absent id is a no-op. */
  lemma DeleteUnknownIsNoOp(m: Manager, task: Task)
    requires Absent(m, task.id)
    ensures DeleteTask(m, task) == m
  {
    FilterKeepsAll(m.tasks, (t: Task) => t.id != task.id);
  }

  /** After a delete the id is absent, so deleting again changes nothing. */
  lemma DeleteIdempotent(m: Manager, task: Task)
    ensures Absent(DeleteTask(m, task), task.id)
    ensures DeleteTask(DeleteTask(m, task), task) == DeleteTask(m, task)
  {
    DeleteUnknownIsNoOp(DeleteTask(m, task), task);
  }

  /** Appending a task whose id is new and then deleting it restores the store. */
  lemma AddThenDelete(m: Manager, task: Task)
    requires Absent(m, task.id)
    ensures DeleteTask(AddTask(m, task), task) == m
  {
    var keep := (t: Task) => t.id != task.id;
    FilterAppend(m.tasks, [task], keep);
    FilterKeepsAll(m.tasks, keep);
  }

  /** With a duplicated id (possible through `addTask(_ task:)`), toggle touches
      only the first copy while delete removes both. */
  lemma ToggleAndDeleteDiffer(m: Manager, task: Task)
    requires m.tasks == [task, task]
    ensures ToggleTaskCompletion(m, task).tasks
      == [task.(isCompleted := !task.isCompleted), task]
    ensures DeleteTask(m, task).tasks == []
  {
  }

  // ---------------------------------------------------------------------------
  // Histories of calls

  /** One call into the store; `today` is the day key the clock gave at that moment. */
  datatype Action =
    | SetEnergy(amount: int)
    | AddTitled(title: string, id: TaskId, now: Timestamp)
    | Add(task: Task)
    | Toggle(task: Task)
    | Delete(task: Task)

  datatype Event = Event(action: Action, today: DayKey)

  function Step(m: Manager, e: Event): Manager {
    match e.action
    case SetEnergy(amount) => SetDailyEnergy(m, amount, e.today)
    case AddTitled(title, id, now) => AddTitledTask(m, title, id, now)
    case Add(task) => AddTask(m, task)
    case Toggle(task) => ToggleTaskCompletion(m, task)
    case Delete(task) => DeleteTask(m, task)
  }

  function Run(m: Manager, events: seq<Event>): Manager
    decreases |events|
  {
    if events == [] then m else Run(Step(m, events[0]), events[1..])
  }

  /** Some event of the history set the energy while the clock read `day`. */
  predicate SetOn(events: seq<Event>, day: DayKey) {
    exists i :: 0 <= i < |events| && events[i].action.SetEnergy? && events[i].today == day
  }

  /** A day reads as set exactly when it was set before or some call in the
      history set the energy on that day; every other day stays unset. */
  lemma {:induction false} RunEnergySet(m: Manager, events: seq<Event>, day: DayKey)
    ensures IsEnergySetForToday(Run(m, events), day) <==> IsEnergySetForToday(m, day) || SetOn(events, day)
    decreases |events|
  {
    if events != [] {
      var m' := Step(m, events[0]);
      RunEnergySet(m', events[1..], day);
      assert IsEnergySetForToday(m', day) <==>
        IsEnergySetForToday(m, day) || (events[0].action.SetEnergy? && events[0].today == day);
      if SetOn(events[1..], day) {
        var i :| 0 <= i < |events[1..]| && events[1..][i].action.SetEnergy? && events[1..][i].today == day;
        assert events[i + 1] == events[1..][i];
      }
      if SetOn(events, day) {
        var i :| 0 <= i < |events| && events[i].action.SetEnergy? && events[i].today == day;
        if i > 0 {
          assert events[1..][i - 1] == events[i];
        }
      }
    }
  }

  /** From a fresh store, a day is set iff some call set the energy on it: a
      new day key starts unset whatever happened on earlier days. */
  lemma FreshStoreDayRollover(events: seq<Event>, day: DayKey)
    ensures IsEnergySetForToday(Run(Init(), events), day) <==> SetOn(events, day)
  {
    RunEnergySet(Init(), events, day);
  }

  /** No history ever records a day as explicitly unset. */
  lemma {:induction false} RunKeepsOnlyTrue(m: Manager, events: seq<Event>)
    requires OnlyTrueRecorded(m)
    ensures OnlyTrueRecorded(Run(m, events))
    decreases |events|
  {
    if events != [] {
      RunKeepsOnlyTrue(Step(m, events[0]), events[1..]);
    }
  }

  /** The ceiling moves only through `setDailyEnergy`. */
  lemma {:induction false} RunCeilingUnchanged(m: Manager, events: seq<Event>)
    requires forall i :: 0 <= i < |events| ==> !events[i].action.SetEnergy?
    ensures Run(m, events).dailyEnergyCeiling == m.dailyEnergyCeiling
    decreases |events|
  {
    if events != [] {
      RunCeilingUnchanged(Step(m, events[0]), events[1..]);
    }
  }

  /** The ceiling is the amount of the last `setDailyEnergy` call, whatever follows it. */
  lemma {:induction false} RunCeilingIsLastSet(m: Manager, events: seq<Event>, k: int)
    requires 0 <= k < |events| && events[k].action.SetEnergy?
    requires forall i :: k < i < |events| ==> !events[i].action.SetEnergy?
    ensures Run(m, events).dailyEnergyCeiling == events[k].action.amount
    decreases |events|
  {
    if k == 0 {
      RunCeilingUnchanged(Step(m, events[0]), events[1..]);
    } else {
      RunCeilingIsLastSet(Step(m, events[0]), events[1..], k - 1);
    }
  }
}
