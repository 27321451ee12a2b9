/** The `modify` command of src/commands/modify.rs: turns the command's
    options into an update descriptor and applies it to one task. */
module ModifyCommand {
  import opened Wrappers
  import opened Calendar
  import opened Todo
  import opened Store
  import OrderedStore
  import AddCommand

  datatype Modify = Modify(
    todoId: nat,
    desc: Option<string>,
    status: Option<Status>,
    priority: Option<Option<Priority>>,
    startDate: Option<string>,
    dueDate: Option<Option<string>>,
    tags: Option<seq<string>>
  )

  /** Whether resolving one of the date options panics. */
  predicate DatesPanic(mods: Modify, now: DateTime, parse: string -> Option<Day>) {
    (mods.startDate.Some? && AddCommand.DateFromInput(mods.startDate.value, now, parse).Failure?)
    || (mods.dueDate.Some? && mods.dueDate.value.Some? &&
        AddCommand.DateFromInput(mods.dueDate.value.value, now, parse).Failure?)
  }

  /** The descriptor `modify` builds: text, tags, priority and status are
      copied; a start date is resolved when given; a due date is left,
      cleared or resolved; recurrence is never touched. */
  function ModifyUpdate(mods: Modify, now: DateTime, parse: string -> Option<Day>): (r: Result<ToDoUpdate, AddCommand.Panic>)
    ensures r.Failure? <==> DatesPanic(mods, now, parse)
    ensures r.Success? ==> r.value.desc == mods.desc && r.value.tags == mods.tags
    ensures r.Success? ==> r.value.prio == mods.priority && r.value.status == mods.status
    ensures r.Success? ==> r.value.recur == None
    ensures r.Success? ==> (r.value.start.Some? <==> mods.startDate.Some?)
    ensures r.Success? && mods.startDate.Some? ==>
              AddCommand.DateFromInput(mods.startDate.value, now, parse) == Success(r.value.start.value)
    ensures r.Success? ==> (r.value.due.Some? <==> mods.dueDate.Some?)
    ensures r.Success? && mods.dueDate.Some? ==> (r.value.due.value.Some? <==> mods.dueDate.value.Some?)
    ensures r.Success? && mods.dueDate.Some? && mods.dueDate.value.Some? ==>
              AddCommand.DateFromInput(mods.dueDate.value.value, now, parse) == Success(r.value.due.value.value)
  {
    var start := match mods.startDate {
      case None => Success(None)
      case Some(s) =>
        match AddCommand.DateFromInput(s, now, parse) {
          case Success(d) => Success(Some(d))
          case Failure(e) => Failure(e)
        }
    };
    var due := match mods.dueDate {
      case None => Success(None)
      case Some(None) => Success(Some(None))
      case Some(Some(s)) =>
        match AddCommand.DateFromInput(s, now, parse) {
          case Success(d) => Success(Some(Some(d)))
          case Failure(e) => Failure(e)
        }
    };
    if start.Failure? then Failure(start.error)
    else if due.Failure? then Failure(due.error)
    else
      var u := NewUpdate();
      Success(u.(desc := mods.desc, tags := mods.tags, prio := mods.priority,
                 status := mods.status, start := start.value, due := due.value))
  }

  /** `modify`: applies the descriptor to the task numbered `mods.todoId`. */
  function Run(db: Database, mods: Modify, now: DateTime, parse: string -> Option<Day>): (r: Result<Database, AddCommand.Panic>)
    ensures r.Failure? <==> DatesPanic(mods, now, parse)
    ensures r.Success? ==> r.value.state == Dirty && r.value.dataDir == db.dataDir
    ensures r.Success? ==> |r.value.todos| == |db.todos|
    ensures r.Success? ==> forall i :: 0 <= i < |db.todos| && i != mods.todoId ==> r.value.todos[i] == db.todos[i]
    ensures r.Success? ==> forall i :: 0 <= i < |db.todos| ==> r.value.todos[i].recur == db.todos[i].recur
    ensures r.Success? && mods.todoId < |db.todos| ==>
              r.value.todos[mods.todoId] == ApplyUpdate(db.todos[mods.todoId], ModifyUpdate(mods, now, parse).value)
  {
    match ModifyUpdate(mods, now, parse)
    case Success(u) => Success(OrderedStore.Update(db, mods.todoId, u))
    case Failure(e) => Failure(e)
  }

  /** A `modify` without options changes no task. */
  lemma EmptyModifyChangesNothing(db: Database, id: nat, now: DateTime, parse: string -> Option<Day>)
    ensures Run(db, Modify(id, None, None, None, None, None, None), now, parse).Success?
    ensures Run(db, Modify(id, None, None, None, None, None, None), now, parse).value.todos == db.todos
  {
    var u := ModifyUpdate(Modify(id, None, None, None, None, None, None), now, parse).value;
    assert UpdatedFields(u) == {};
    OrderedStore.UpdateEmptyIsIdentity(db, id, u);
  }

  /** An option left out of `modify` leaves that field of the target as it
      was; an option given sets it. */
  lemma ModifyTouchesOnlyGivenOptions(db: Database, mods: Modify, now: DateTime, parse: string -> Option<Day>)
    requires Run(db, mods, now, parse).Success? && mods.todoId < |db.todos|
    ensures var before := db.todos[mods.todoId];
            var after := Run(db, mods, now, parse).value.todos[mods.todoId];
            && (mods.desc.None? ==> after.desc == before.desc)
            && (mods.desc.Some? ==> after.desc == mods.desc.value)
            && (mods.tags.None? ==> after.tags == before.tags)
            && (mods.tags.Some? ==> after.tags == mods.tags.value)
            && (mods.priority.None? ==> after.prio == before.prio)
            && (mods.priority.Some? ==> after.prio == mods.priority.value)
            && (mods.status.None? ==> after.status == before.status)
            && (mods.status.Some? ==> after.status == mods.status.value)
            && (mods.startDate.None? ==> after.start == before.start)
            && (mods.dueDate.None? ==> after.due == before.due)
            && (mods.dueDate == Some(None) ==> after.due == None)
            && after.recur == before.recur
  {
  }
}
