/** What the list commands share: filtering the enumerated task list and
    turning a shown task into a table row. */
module Listing {
  import opened Wrappers
  import opened Calendar
  import opened Todo

  /** A task together with its position in the list, which is its user-visible ID. */
  datatype Entry = Entry(id: nat, todo: ToDo)

  /** `todos.iter().enumerate().filter(...)` over the first `n` tasks: the
      kept tasks, each with its position, in list order. */
  function Select(todos: seq<ToDo>, keep: ToDo -> bool, n: nat): (r: seq<Entry>)
    requires n <= |todos|
    ensures forall k :: 0 <= k < |r| ==> r[k].id < n && r[k].todo == todos[r[k].id] && keep(r[k].todo)
    ensures forall k, l :: 0 <= k < l < |r| ==> r[k].id < r[l].id
  {
    if n == 0 then []
    else
      var front := Select(todos, keep, n - 1);
      if keep(todos[n - 1]) then front + [Entry(n - 1, todos[n - 1])] else front
  }

  /** Every kept task among the first `n` appears in the filtered enumeration. */
  lemma {:induction false} SelectComplete(todos: seq<ToDo>, keep: ToDo -> bool, n: nat, j: nat)
    requires j < n <= |todos|
    requires keep(todos[j])
    ensures exists k :: 0 <= k < |Select(todos, keep, n)| && Select(todos, keep, n)[k].id == j
  {
    var front := Select(todos, keep, n - 1);
    if j == n - 1 {
      assert Select(todos, keep, n)[|front|].id == j;
    } else {
      SelectComplete(todos, keep, n - 1, j);
      var k :| 0 <= k < |front| && front[k].id == j;
      assert Select(todos, keep, n)[k] == front[k];
    }
  }

  /** The filtered enumeration is empty exactly when no task is kept. */
  lemma SelectEmptyIff(todos: seq<ToDo>, keep: ToDo -> bool, n: nat)
    requires n <= |todos|
    ensures |Select(todos, keep, n)| == 0 <==> forall j :: 0 <= j < n ==> !keep(todos[j])
  {
    var r := Select(todos, keep, n);
    if |r| > 0 {
      assert keep(todos[r[0].id]);
    } else {
      forall j | 0 <= j < n
        ensures !keep(todos[j])
      {
        if keep(todos[j]) {
          SelectComplete(todos, keep, n, j);
        }
      }
    }
  }

  /** Keeping every task shows every task, numbered by position. */
  lemma {:induction false} SelectAll(todos: seq<ToDo>, keep: ToDo -> bool, n: nat)
    requires n <= |todos|
    requires forall j :: 0 <= j < n ==> keep(todos[j])
    ensures |Select(todos, keep, n)| == n
    ensures forall k :: 0 <= k < n ==> Select(todos, keep, n)[k] == Entry(k, todos[k])
  {
    if n > 0 {
      SelectAll(todos, keep, n - 1);
    }
  }

  /** `tags.iter().any(|tag| todo.tags.contains(tag))`. */
  predicate HasAnyTag(t: ToDo, tags: seq<string>) {
    exists i :: 0 <= i < |tags| && tags[i] in t.tags
  }

  /** One row of the printed table. The ID column is the position itself;
      `fmt` stands for the date library's formatting of a date. */
  datatype Row = Row(id: nat, status: string, desc: string, start: string, priority: string, dueDate: string)

  /** The priority column: the priority's name, or "None" when there is none. */
  function PriorityLabel(p: Option<Priority>): (r: string)
    ensures p.None? ==> r == "None"
    ensures p.Some? ==> r == PriorityToString(p.value)
  {
    match p
    case Some(q) => PriorityToString(q)
    case None => "None"
  }

  /** The priority column tells every case apart, the absent one included. */
  lemma PriorityLabelInjective(a: Option<Priority>, b: Option<Priority>)
    ensures PriorityLabel(a) == PriorityLabel(b) <==> a == b
  {
    if a != b && a.Some? && b.Some? {
      PriorityToStringInjective(a.value, b.value);
    }
    if a.Some? != b.Some? {
      var p := if a.Some? then a.value else b.value;
      assert PriorityToString(p)[0] != "None"[0];
    }
  }

  /** The due-date column: the formatted date, or "None" when there is none. */
  function DueLabel(d: Option<DateTime>, fmt: Day -> string): (r: string)
    ensures d.None? ==> r == "None"
    ensures d.Some? ==> r == fmt(d.value.date)
  {
    match d
    case Some(dt) => fmt(dt.date)
    case None => "None"
  }

  function RenderRow(e: Entry, fmt: Day -> string): (r: Row)
    ensures r.id == e.id && r.desc == e.todo.desc
    ensures r.status == AsSymbol(e.todo.status)
    ensures r.start == fmt(e.todo.start.date)
    ensures r.priority == PriorityLabel(e.todo.prio) && r.dueDate == DueLabel(e.todo.due, fmt)
  {
    Row(e.id, AsSymbol(e.todo.status), e.todo.desc, fmt(e.todo.start.date),
        PriorityLabel(e.todo.prio), DueLabel(e.todo.due, fmt))
  }

  function RenderRows(entries: seq<Entry>, fmt: Day -> string): (rows: seq<Row>)
    ensures |rows| == |entries|
    ensures forall k :: 0 <= k < |entries| ==> rows[k] == RenderRow(entries[k], fmt)
  {
    if |entries| == 0 then [] else [RenderRow(entries[0], fmt)] + RenderRows(entries[1..], fmt)
  }
}
