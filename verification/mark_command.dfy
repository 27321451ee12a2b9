/** The `mark` command of src/commands/mark.rs: a status-only update. */
module MarkCommand {
  import opened Wrappers
  import opened Todo
  import opened Store
  import OrderedStore
  import SwapStore

  /** `ToDoUpdate::new().with_status(Status::Complete)`. */
  function MarkUpdate(): (u: ToDoUpdate)
    ensures UpdatedFields(u) == {StatusField} && u.status == Some(Complete)
  {
    WithStatus(NewUpdate(), Complete)
  }

  /** `mark`: updates the task numbered `id`. */
  function Run(db: Database, id: nat): (r: Database)
    ensures r.state == Dirty && r.dataDir == db.dataDir
    ensures |r.todos| == |db.todos|
    ensures forall i :: 0 <= i < |db.todos| && i != id ==> r.todos[i] == db.todos[i]
    ensures id < |db.todos| ==> r.todos[id].status == Complete
    ensures id < |db.todos| ==> forall f :: f != StatusField ==> SameField(r.todos[id], db.todos[id], f)
  {
    OrderedStore.Update(db, id, MarkUpdate())
  }

  /** An id past the end changes no task, though the store is still Dirty (and saved). */
  lemma MarkOutOfRange(db: Database, id: nat)
    requires id >= |db.todos|
    ensures Run(db, id) == Database(db.todos, db.dataDir, Dirty)
  {
  }

  /** Marking through the general update does exactly what the dedicated
      `mark_complete` of src/db/mod.rs does. */
  lemma MarkAgreesWithMarkComplete(db: Database, id: nat)
    ensures Run(db, id) == SwapStore.MarkComplete(db, id)
  {
    var a := Run(db, id);
    var b := SwapStore.MarkComplete(db, id);
    if id < |db.todos| {
      forall f
        ensures SameField(a.todos[id], b.todos[id], f)
      {
        if f != StatusField {
          assert SameField(a.todos[id], db.todos[id], f);
          assert SameField(b.todos[id], db.todos[id], f);
        }
      }
      SameFieldsEqual(a.todos[id], b.todos[id]);
    }
    assert a.todos == b.todos;
  }
}
