/** The in-memory store shared by both versions of the database: the task
    list, the directory it is saved to, and the Clean/Dirty typestate. */
module Store {
  import opened Wrappers
  import opened Todo

  /** `Clean` for a store as loaded, `Dirty` once a mutator has consumed it. */
  datatype State = Clean | Dirty

  /** A file-system path as its sequence of components. */
  type Path = seq<string>

  datatype Database = Database(todos: seq<ToDo>, dataDir: Path, state: State)

  const DbFileName: string := "clido.db"

  /** `list_path`: the database file inside the data directory. */
  function ListPath(dataDir: Path): (p: Path)
    ensures |p| == |dataDir| + 1
    ensures p[..|dataDir|] == dataDir && p[|dataDir|] == DbFileName
  {
    dataDir + [DbFileName]
  }

  /** Distinct data directories give distinct database files. */
  lemma ListPathInjective(a: Path, b: Path)
    ensures ListPath(a) == ListPath(b) ==> a == b
  {
    if ListPath(a) == ListPath(b) {
      assert a == ListPath(a)[..|a|];
    }
  }

  /** `todos()`: a read-only view that works in either state. */
  function Todos(db: Database): seq<ToDo> {
    db.todos
  }

  /** `iter().enumerate().position(|(i, _)| i == id)` (and the `find` variant):
      scans the positions `from`, `from + 1`, ... of `todos` for `id`. */
  function FindPosition(todos: seq<ToDo>, id: nat, from: nat): (r: Option<nat>)
    ensures r.Some? <==> from <= id < from + |todos|
    ensures r.Some? ==> r.value == id
    decreases |todos|
  {
    if |todos| == 0 then None
    else if from == id then Some(from)
    else FindPosition(todos[1..], id, from + 1)
  }

  /** Every mutator consumes the store and hands back a Dirty one with the
      same data directory. */
  function Dirtied(db: Database, todos: seq<ToDo>): (r: Database)
    ensures r.state == Dirty && r.dataDir == db.dataDir && r.todos == todos
  {
    Database(todos, db.dataDir, Dirty)
  }

  /** `add`, identical in both versions: appends the task with `Vec::push`;
      no duplicate check is made. */
  function Add(db: Database, t: ToDo): (r: Database)
    ensures r.state == Dirty && r.dataDir == db.dataDir
    ensures |r.todos| == |db.todos| + 1
    ensures forall i :: 0 <= i < |db.todos| ==> r.todos[i] == db.todos[i]
    ensures r.todos[|db.todos|] == t
  {
    Dirtied(db, db.todos + [t])
  }

  /** `todos()` sees the same list whatever the typestate, and after `add` it
      sees the old list followed by the new task. */
  lemma TodosView(db: Database, t: ToDo)
    ensures Todos(db.(state := Clean)) == Todos(db.(state := Dirty)) == Todos(db)
    ensures Todos(Add(db, t)) == Todos(db) + [t]
  {
  }
}

/** `Database<S>` of src/db.rs: order-preserving delete and a general update
    (`add` is `Store.Add`). */
module OrderedStore {
  import opened Wrappers
  import opened Todo
  import opened Store

  /** `Vec::remove`: drops the element at `i`, shifting the later ones down. */
  function Remove(todos: seq<ToDo>, i: nat): (r: seq<ToDo>)
    requires i < |todos|
    ensures |r| == |todos| - 1
    ensures forall k :: 0 <= k < i ==> r[k] == todos[k]
    ensures forall k :: i <= k < |r| ==> r[k] == todos[k + 1]
    ensures multiset(r) == multiset(todos) - multiset{todos[i]}
  {
    assert todos == todos[..i] + [todos[i]] + todos[i + 1..];
    todos[..i] + todos[i + 1..]
  }

  /** `delete`: removes the task at position `id` when there is one; an
      out-of-range id changes nothing but still yields a Dirty store. */
  function Delete(db: Database, id: nat): (r: Database)
    ensures r.state == Dirty && r.dataDir == db.dataDir
    ensures id < |db.todos| ==> r.todos == db.todos[..id] + db.todos[id + 1..]
    ensures id >= |db.todos| ==> r.todos == db.todos
  {
    match FindPosition(db.todos, id, 0)
    case Some(idx) => Dirtied(db, Remove(db.todos, idx))
    case None => Dirtied(db, db.todos)
  }

  /** `update`: applies the descriptor to the task at `id`, if any. */
  function Update(db: Database, id: nat, u: ToDoUpdate): (r: Database)
    ensures r.state == Dirty && r.dataDir == db.dataDir
    ensures |r.todos| == |db.todos|
    ensures forall i :: 0 <= i < |db.todos| && i != id ==> r.todos[i] == db.todos[i]
    ensures id < |db.todos| ==> r.todos[id] == ApplyUpdate(db.todos[id], u)
  {
    if id < |db.todos| then Dirtied(db, db.todos[id := ApplyUpdate(db.todos[id], u)])
    else Dirtied(db, db.todos)
  }

  /** After `update`, only fields named by the descriptor differ, and only on the target task. */
  lemma UpdateChangesOnlyRequested(db: Database, id: nat, u: ToDoUpdate, i: nat, f: Field)
    requires i < |db.todos|
    requires i != id || !Requests(u, f)
    ensures SameField(Update(db, id, u).todos[i], db.todos[i], f)
  {
  }

  /** An update with no entries leaves the list as it is. */
  lemma UpdateEmptyIsIdentity(db: Database, id: nat, u: ToDoUpdate)
    requires UpdatedFields(u) == {}
    ensures Update(db, id, u).todos == db.todos
  {
    if id < |db.todos| {
      ApplyEmptyUpdate(db.todos[id], u);
    }
  }

  /** Updating twice with the same descriptor is updating once. */
  lemma UpdateIdempotent(db: Database, id: nat, u: ToDoUpdate)
    ensures Update(Update(db, id, u), id, u) == Update(db, id, u)
  {
    if id < |db.todos| {
      ApplyUpdateIdempotent(db.todos[id], u);
    }
  }

  /** Deleting keeps the survivors in their order and removes one occurrence
      of the deleted task; ids past the end are untouched. */
  lemma DeleteKeepsSurvivors(db: Database, id: nat)
    ensures id < |db.todos| ==>
      multiset(Delete(db, id).todos) == multiset(db.todos) - multiset{db.todos[id]}
    ensures id < |db.todos| ==>
      (forall k :: 0 <= k < |db.todos| - 1 ==>
         Delete(db, id).todos[k] == db.todos[if k < id then k else k + 1])
  {
    if id < |db.todos| {
      var _ := Remove(db.todos, id);
    }
  }
}

/** `Database<S>` of src/db/mod.rs: swap-remove delete and `mark_complete`
    (`add` is `Store.Add`). */
module SwapStore {
  import opened Wrappers
  import opened Todo
  import opened Store
  import OrderedStore

  /** `Vec::swap_remove`: the last element takes the freed slot (or is simply
      popped when it is the one removed). */
  function SwapRemove(todos: seq<ToDo>, i: nat): (r: seq<ToDo>)
    requires i < |todos|
    ensures |r| == |todos| - 1
    ensures i < |r| ==> r[i] == todos[|todos| - 1]
    ensures forall k :: 0 <= k < |r| && k != i ==> r[k] == todos[k]
    ensures multiset(r) == multiset(todos) - multiset{todos[i]}
  {
    var last := |todos| - 1;
    if i == last then
      assert todos == todos[..last] + [todos[last]];
      todos[..last]
    else
      SwapRemoveMultiset(todos, i);
      todos[i := todos[last]][..last]
  }

  lemma SwapRemoveMultiset(todos: seq<ToDo>, i: nat)
    requires i < |todos| - 1
    ensures multiset(todos[i := todos[|todos| - 1]][..|todos| - 1]) ==
            multiset(todos) - multiset{todos[i]}
  {
    var last := |todos| - 1;
    var front := todos[..last];
    assert todos == front + [todos[last]];
    assert todos[i := todos[last]][..last] == front[i := todos[last]];
    assert front[i] == todos[i];
    assert multiset(front[i := todos[last]]) == multiset(front) - multiset{todos[i]} + multiset{todos[last]};
    assert multiset(todos) == multiset(front) + multiset{todos[last]};
  }

  /** `delete`: swap-removes the task at `id` when there is one; an
      out-of-range id changes nothing but still yields a Dirty store. */
  function Delete(db: Database, id: nat): (r: Database)
    ensures r.state == Dirty && r.dataDir == db.dataDir
    ensures id >= |db.todos| ==> r.todos == db.todos
    ensures id < |db.todos| ==> |r.todos| == |db.todos| - 1
    ensures id < |db.todos| - 1 ==> r.todos[id] == db.todos[|db.todos| - 1]
    ensures forall k :: 0 <= k < |r.todos| && k != id ==> r.todos[k] == db.todos[k]
    ensures id < |db.todos| ==> multiset(r.todos) == multiset(db.todos) - multiset{db.todos[id]}
  {
    match FindPosition(db.todos, id, 0)
    case Some(idx) => Dirtied(db, SwapRemove(db.todos, idx))
    case None => Dirtied(db, db.todos)
  }

  /** `mark_complete`: sets the status of the task at `id`, if any, to Complete. */
  function MarkComplete(db: Database, id: nat): (r: Database)
    ensures r.state == Dirty && r.dataDir == db.dataDir
    ensures |r.todos| == |db.todos|
    ensures forall i :: 0 <= i < |db.todos| && i != id ==> r.todos[i] == db.todos[i]
    ensures id < |db.todos| ==> r.todos[id].status == Complete
    ensures id < |db.todos| ==> forall f :: f != StatusField ==> SameField(r.todos[id], db.todos[id], f)
  {
    match FindPosition(db.todos, id, 0)
    case Some(idx) => Dirtied(db, db.todos[idx := db.todos[idx].(status := Complete)])
    case None => Dirtied(db, db.todos)
  }

  /** Marking twice is marking once. */
  lemma MarkCompleteIdempotent(db: Database, id: nat)
    ensures MarkComplete(MarkComplete(db, id), id) == MarkComplete(db, id)
  {
    var once := MarkComplete(db, id);
    var twice := MarkComplete(once, id);
    if id < |db.todos| {
      SameFieldsEqual(twice.todos[id], once.todos[id]);
    }
    assert twice.todos == once.todos;
  }

  /** Both delete policies keep the same tasks; they differ only in where the
      last task ends up, and not at all when the last task is the one deleted
      or the id is out of range. */
  lemma DeletePoliciesAgreeOnSurvivors(db: Database, id: nat)
    ensures multiset(Delete(db, id).todos) == multiset(OrderedStore.Delete(db, id).todos)
    ensures id + 1 >= |db.todos| ==> Delete(db, id) == OrderedStore.Delete(db, id)
  {
    OrderedStore.DeleteKeepsSurvivors(db, id);
    if id + 1 == |db.todos| {
      assert Delete(db, id).todos == OrderedStore.Delete(db, id).todos;
    }
  }
}
