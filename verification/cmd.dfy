/** The earlier command layer of src/cmd.rs: `add` with plain dd-mm-yyyy
    dates and `list`, where a task is shown only when EVERY requested
    condition holds. */
module Cmd {
  import opened Wrappers
  import opened Calendar
  import opened Todo
  import opened Listing
  import opened Store
  import SwapStore
  import ListCommand

  /** `parse_from_str(..).unwrap()` failed. */
  datatype Panic = DateParseFailed

  datatype AddArgs = AddArgs(
    todo: string,
    start: Option<string>,
    priority: Option<string>,
    dueDate: Option<string>,
    tags: Option<seq<string>>
  )

  /** A dd-mm-yyyy argument at midnight; `parse` stands for the date library's parser. */
  function ParseDate(s: string, parse: string -> Option<Day>): (r: Result<DateTime, Panic>)
    ensures r.Success? <==> parse(s).Some?
    ensures r.Success? ==> r.value.date == parse(s).value && r.value.time == Midnight
  {
    match parse(s)
    case Some(d) => Success(AtMidnight(d))
    case None => Failure(DateParseFailed)
  }

  /** The task `add` builds. */
  function BuildToDo(args: AddArgs, now: DateTime, parse: string -> Option<Day>): (r: Result<ToDo, Panic>)
    ensures r.Failure? <==> (args.start.Some? && parse(args.start.value).None?) ||
                            (args.dueDate.Some? && parse(args.dueDate.value).None?)
    ensures r.Success? ==> r.value.status == Pending && r.value.recur == None && r.value.desc == args.todo
    ensures r.Success? ==> r.value.tags == (if args.tags.Some? then args.tags.value else [])
    ensures r.Success? ==> r.value.prio == PriorityTryFrom(args.priority).ToOption()
    ensures r.Success? && args.start.None? ==> r.value.start == now
    ensures r.Success? && args.start.Some? ==>
              r.value.start.date == parse(args.start.value).value && r.value.start.time == Midnight
    ensures r.Success? ==> (r.value.due.Some? <==> args.dueDate.Some?)
    ensures r.Success? && args.dueDate.Some? ==>
              r.value.due.value.date == parse(args.dueDate.value).value && r.value.due.value.time == Midnight
  {
    var start := if args.start.Some? then ParseDate(args.start.value, parse) else Success(now);
    if start.Failure? then Failure(start.error)
    else
      var due := if args.dueDate.Some? then ParseDate(args.dueDate.value, parse) else Success(now);
      if due.Failure? then Failure(due.error)
      else
        Success(ToDo(
          recur := None,
          due := if args.dueDate.Some? then Some(due.value) else None,
          prio := PriorityTryFrom(args.priority).ToOption(),
          start := start.value,
          desc := args.todo,
          status := Pending,
          tags := args.tags.GetOr([])))
  }

  /** `add`: builds the task and appends it to the store (src/db/mod.rs). */
  function Add(db: Database, args: AddArgs, now: DateTime, parse: string -> Option<Day>): (r: Result<Database, Panic>)
    ensures r.Failure? <==> BuildToDo(args, now, parse).Failure?
    ensures r.Success? ==>
              (BuildToDo(args, now, parse).Success? &&
               r.value == Database(db.todos + [BuildToDo(args, now, parse).value], db.dataDir, Dirty))
  {
    match BuildToDo(args, now, parse)
    case Success(t) => Success(Store.Add(db, t))
    case Failure(e) => Failure(e)
  }

  datatype ListArgs = ListArgs(filters: Option<seq<string>>, reqComp: bool, reqPend: bool)

  /** What `list` prints: the empty-list notice, the "no matches" notice, or
      the table of the entries that passed. */
  datatype Outcome = NoToDos | NoMatches | Printed(entries: seq<Entry>)

  /** Both checks of the loop body: the tag filter, then the status flags. */
  predicate Passes(a: ListArgs, t: ToDo) {
    (a.filters.None? || HasAnyTag(t, a.filters.value))
    && !((a.reqComp && t.status != Complete) || (a.reqPend && t.status != Pending))
  }

  function PassesBy(a: ListArgs): ToDo -> bool {
    t => Passes(a, t)
  }

  /** `list`, its loop over `todos.iter().enumerate()` included. */
  method List(db: Database, a: ListArgs) returns (out: Outcome)
    ensures |Todos(db)| == 0 <==> out == NoToDos
    ensures out == NoMatches <==> |Todos(db)| > 0 && forall j :: 0 <= j < |Todos(db)| ==> !Passes(a, Todos(db)[j])
    ensures out.Printed? ==> out.entries == Select(Todos(db), PassesBy(a), |Todos(db)|) && |out.entries| > 0
  {
    var todos := Todos(db);
    if |todos| == 0 {
      return NoToDos;
    }
    var entries: seq<Entry> := [];
    var atLeastOne := false;
    var id := 0;
    while id < |todos|
      invariant 0 <= id <= |todos|
      invariant entries == Select(todos, PassesBy(a), id)
      invariant atLeastOne <==> |entries| > 0
    {
      var todo := todos[id];
      if a.filters.Some? {
        if !HasAnyTag(todo, a.filters.value) {
          id := id + 1;
          continue;
        }
      }
      if (a.reqComp && todo.status != Complete) || (a.reqPend && todo.status != Pending) {
        id := id + 1;
        continue;
      }
      atLeastOne := true;
      entries := entries + [Entry(id, todo)];
      id := id + 1;
    }
    SelectEmptyIff(todos, PassesBy(a), |todos|);
    if atLeastOne {
      out := Printed(entries);
    } else {
      out := NoMatches;
    }
  }

  /** Requiring both complete and pending tasks lists nothing. */
  lemma BothFlagsShowNothing(t: ToDo, filters: Option<seq<string>>)
    ensures !Passes(ListArgs(filters, true, true), t)
  {
  }

  /** With a filter list, a task without any of the filter tags never passes. */
  lemma FilterNeedsATag(a: ListArgs, t: ToDo)
    requires a.filters.Some?
    requires forall i :: 0 <= i < |a.filters.value| ==> a.filters.value[i] !in t.tags
    ensures !Passes(a, t)
  {
  }

  /** The two list commands disagree: where src/commands/list.rs joins the
      conditions with OR, this one joins them with AND, so a Pending task
      carrying the filter tag is shown there but not here when complete
      tasks are requested. */
  lemma AndVersusOr(t: ToDo, tag: string)
    requires t.status == Pending && tag in t.tags
    ensures ListCommand.Shown(ListCommand.List(false, true, Some([tag])), t)
    ensures !Passes(ListArgs(Some([tag]), true, false), t)
  {
    assert [tag][0] in t.tags;
  }

  /** Adding "buy milk" with priority high to an empty store gives one
      Pending task with that priority and no due date; marking id 0 completes
      it; deleting id 0 empties the list again. */
  lemma AddMarkDeleteScenario(dir: Path, now: DateTime, parse: string -> Option<Day>)
    ensures var added := Add(Database([], dir, Clean), AddArgs("buy milk", None, Some("high"), None, None), now, parse);
      && added.Success?
      && |added.value.todos| == 1
      && added.value.todos[0].desc == "buy milk"
      && added.value.todos[0].status == Pending
      && added.value.todos[0].prio == Some(High)
      && added.value.todos[0].due == None
      && SwapStore.MarkComplete(added.value, 0).todos[0].status == Complete
      && SwapStore.Delete(SwapStore.MarkComplete(added.value, 0), 0).todos == []
  {
  }
}
