/** The `list` command of src/commands/list.rs: a task is shown when ANY of
    the requested conditions holds. */
module ListCommand {
  import opened Wrappers
  import opened Calendar
  import opened Todo
  import opened Listing
  import opened Store

  datatype List = List(showPending: bool, showComplete: bool, filterTags: Option<seq<string>>)

  /** What the command prints: the rows, or the "no matching To-Dos" notice
      when there are none. */
  datatype Output = NoMatches | Table(rows: seq<Row>)

  /** The `filter` closure. */
  predicate Shown(c: List, t: ToDo) {
    (c.showComplete && t.status == Complete)
    || (c.showPending && t.status == Pending)
    || match c.filterTags {
         case Some(tags) => HasAnyTag(t, tags)
         case None => !c.showPending && !c.showComplete
       }
  }

  function ShownBy(c: List): ToDo -> bool {
    t => Shown(c, t)
  }

  /** The shown tasks with their positions, in list order. */
  function ShownEntries(todos: seq<ToDo>, c: List): (r: seq<Entry>)
    ensures forall k :: 0 <= k < |r| ==> r[k].id < |todos| && r[k].todo == todos[r[k].id] && Shown(c, r[k].todo)
    ensures forall k, l :: 0 <= k < l < |r| ==> r[k].id < r[l].id
    ensures forall j :: 0 <= j < |todos| && Shown(c, todos[j]) ==> exists k :: 0 <= k < |r| && r[k].id == j
  {
    forall j | 0 <= j < |todos| && Shown(c, todos[j])
      ensures exists k :: 0 <= k < |Select(todos, ShownBy(c), |todos|)| && Select(todos, ShownBy(c), |todos|)[k].id == j
    {
      SelectComplete(todos, ShownBy(c), |todos|, j);
    }
    Select(todos, ShownBy(c), |todos|)
  }

  /** `list`: reads the store through `todos()` and prints the table of shown
      tasks, or the notice when nothing is shown. */
  function Run(db: Database, c: List, fmt: Day -> string): (r: Output)
    ensures r == NoMatches <==> forall j :: 0 <= j < |Todos(db)| ==> !Shown(c, Todos(db)[j])
    ensures r.Table? ==> r.rows == RenderRows(ShownEntries(Todos(db), c), fmt)
  {
    var todos := Todos(db);
    SelectEmptyIff(todos, ShownBy(c), |todos|);
    var rows := RenderRows(ShownEntries(todos, c), fmt);
    if |rows| == 0 then NoMatches else Table(rows)
  }

  /** Without flags and without a tag filter every task is listed, each under its position. */
  lemma NoFlagsShowsAll(todos: seq<ToDo>)
    ensures ShownEntries(todos, List(false, false, None)) == seq(|todos|, k requires 0 <= k < |todos| => Entry(k, todos[k]))
  {
    SelectAll(todos, ShownBy(List(false, false, None)), |todos|);
  }

  /** Asking for both pending and complete tasks lists every task. */
  lemma BothFlagsShowAll(todos: seq<ToDo>, tags: Option<seq<string>>)
    ensures |ShownEntries(todos, List(true, true, tags))| == |todos|
    ensures forall k :: 0 <= k < |todos| ==> ShownEntries(todos, List(true, true, tags))[k] == Entry(k, todos[k])
  {
    SelectAll(todos, ShownBy(List(true, true, tags)), |todos|);
  }

  /** A task carrying one of the filter tags is shown whatever its status. */
  lemma TagMatchShown(c: List, t: ToDo, i: nat)
    requires c.filterTags.Some? && i < |c.filterTags.value| && c.filterTags.value[i] in t.tags
    ensures Shown(c, t)
  {
  }

  /** An empty tag filter without flags shows nothing. */
  lemma EmptyFilterShowsNothing(todos: seq<ToDo>)
    ensures ShownEntries(todos, List(false, false, Some([]))) == []
  {
    SelectEmptyIff(todos, ShownBy(List(false, false, Some([]))), |todos|);
  }
}
