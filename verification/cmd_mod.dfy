/** The oldest `add` of src/cmd/mod.rs. Its task type has no tags and no
    recurrence; here those fields are left empty. */
module CmdMod {
  import opened Wrappers
  import opened Calendar
  import opened Todo

  datatype AddArgs = AddArgs(todo: string, startDate: Option<string>, priority: Option<string>, dueDate: Option<string>)

  /** The priority match: the three lower-case names, anything else is no priority. */
  function PriorityFromArg(s: Option<string>): (r: Option<Priority>)
    ensures r == PriorityTryFrom(s).ToOption()
  {
    match s
    case Some(str) =>
      if str == "high" then Some(High)
      else if str == "medium" then Some(Medium)
      else if str == "low" then Some(Low)
      else None
    case None => None
  }

  /** The task `add` builds: start is always `now`, there is never a due date,
      and the task is Pending. */
  function BuildToDo(args: AddArgs, now: DateTime): (r: ToDo)
    ensures r.start == now && r.due == None && r.status == Pending
    ensures r.desc == args.todo && r.prio == PriorityFromArg(args.priority)
    ensures r.tags == [] && r.recur == None
  {
    ToDo(recur := None, due := None, prio := PriorityFromArg(args.priority),
         start := now, desc := args.todo, status := Pending, tags := [])
  }

  /** The start and due arguments are ignored. */
  lemma DateArgumentsIgnored(args: AddArgs, now: DateTime, start: Option<string>, due: Option<string>)
    ensures BuildToDo(args.(startDate := start, dueDate := due), now) == BuildToDo(args, now)
  {
  }
}
