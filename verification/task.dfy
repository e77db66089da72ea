/**
 The `Task` record of the app and the mapping from its colour-name tag to a
 theme colour.
 */
module TaskModel {

  /** Opaque task identity (a UUID in the app); only compared for equality. */
  datatype TaskId = TaskId(uuid: nat)

  /** Creation time, as an abstract clock reading. */
  type Timestamp = int

  /** The theme colours a task tag or a search row can be drawn in. */
  datatype Color = MyPurple | Orange | Blue | MyGreen | MyRed | Pink | Cyan | Yellow | SoftSalmon

  /** A unit of work. `id`, `title` and `createdDate` are fixed at construction;
      the remaining fields are the ones the app may change afterwards. */
  datatype Task = Task(
    id: TaskId,
    title: string,
    createdDate: Timestamp,
    isCompleted: bool,
    taskColor: string,
    taskSymbol: string,
    energyCost: int)

  const DefaultColorName: string := "purple"
  const DefaultSymbol: string := "checkmark"
  const DefaultEnergyCost: int := 25

  /** `Task(title:)`: the identifier and the clock reading the app draws itself
      are supplied by the caller. */
  function NewTask(id: TaskId, title: string, now: Timestamp): (t: Task)
    ensures t.id == id && t.title == title && t.createdDate == now
    ensures !t.isCompleted
    ensures t.taskColor == "purple" && t.taskSymbol == "checkmark"
    ensures t.energyCost == 25
  {
    Task(id, title, now, false, DefaultColorName, DefaultSymbol, DefaultEnergyCost)
  }

  /** Two versions of a task agree on everything that cannot change after construction. */
  predicate SameIdentity(a: Task, b: Task) {
    a.id == b.id && a.title == b.title && a.createdDate == b.createdDate
  }

  /** The eight colour names a task tag may carry, in the order the app lists them. */
  const TaskColorNames: seq<string> :=
    ["purple", "orange", "blue", "green", "red", "pink", "cyan", "yellow"]

  /** `getTaskColor`: exact (case-sensitive) match on the tag; anything else is purple. */
  function GetTaskColor(taskColor: string): (c: Color)
    ensures IsTaskColor(c)
    ensures taskColor !in TaskColorNames ==> c == MyPurple
  {
    match taskColor
    case "purple" => MyPurple
    case "orange" => Orange
    case "blue" => Blue
    case "green" => MyGreen
    case "red" => MyRed
    case "pink" => Pink
    case "cyan" => Cyan
    case "yellow" => Yellow
    case _ => MyPurple
  }

  /** The colours a task tag can produce. */
  predicate IsTaskColor(c: Color) {
    c != SoftSalmon
  }

  /** The tag a colour is written as; the inverse of `GetTaskColor` on task colours. */
  function ColorName(c: Color): (name: string)
    requires IsTaskColor(c)
    ensures name in TaskColorNames
  {
    match c
    case MyPurple => "purple"
    case Orange => "orange"
    case Blue => "blue"
    case MyGreen => "green"
    case MyRed => "red"
    case Pink => "pink"
    case Cyan => "cyan"
    case Yellow => "yellow"
  }

  /** Every tag yields a task colour; the search-only colour is never produced. */
  lemma GetTaskColorIsTaskColor(taskColor: string)
    ensures IsTaskColor(GetTaskColor(taskColor))
  {
  }

  /** Each listed name maps to its own colour. */
  lemma NamedColors()
    ensures GetTaskColor("purple") == MyPurple && GetTaskColor("orange") == Orange
    ensures GetTaskColor("blue") == Blue && GetTaskColor("green") == MyGreen
    ensures GetTaskColor("red") == MyRed && GetTaskColor("pink") == Pink
    ensures GetTaskColor("cyan") == Cyan && GetTaskColor("yellow") == Yellow
  {
  }

  /** Any tag outside the eight names (a capitalised "Purple" included) falls back to purple. */
  lemma UnknownNameFallsBack(taskColor: string)
    requires taskColor !in TaskColorNames
    ensures GetTaskColor(taskColor) == GetTaskColor("purple")
  {
  }

  /** Writing a task colour as its tag and reading it back yields the same colour. */
  lemma ColorNameRoundTrip(c: Color)
    requires IsTaskColor(c)
    ensures GetTaskColor(ColorName(c)) == c
  {
  }

  /** The eight names are told apart: distinct listed names give distinct colours. */
  lemma ListedNamesDistinct(i: int, j: int)
    requires 0 <= i < |TaskColorNames| && 0 <= j < |TaskColorNames| && i != j
    ensures GetTaskColor(TaskColorNames[i]) != GetTaskColor(TaskColorNames[j])
  {
  }

  /** A new task's colour is the default purple. */
  lemma NewTaskIsPurple(id: TaskId, title: string, now: Timestamp)
    ensures GetTaskColor(NewTask(id, title, now).taskColor) == MyPurple
  {
  }
}
