/** The task record, its enumerations and the sparse update descriptor
    (src/todo.rs and src/db/todo.rs, which declare the same fields). */
module Todo {
  import opened Wrappers
  import opened Calendar
  import opened Text

  datatype Status = Complete | Pending

  /** Declaration order Low, Medium, High; src/todo.rs derives `Ord` from it. */
  datatype Priority = Low | Medium | High

  /** Stored with the task and never interpreted: each variant carries a timestamp. */
  datatype Recurrence =
    | Daily(at: DateTime)
    | Weekly(at: DateTime)
    | Monthly(at: DateTime)
    | Yearly(at: DateTime)
    | Quarterly(at: DateTime)

  /** One task. `recur`, `due` and `prio` are optional; `tags` may be empty. */
  datatype ToDo = ToDo(
    recur: Option<Recurrence>,
    due: Option<DateTime>,
    prio: Option<Priority>,
    start: DateTime,
    desc: string,
    status: Status,
    tags: seq<string>
  )

  /** A sparse update. For an optional field of `ToDo` the entry is doubly
      optional: `None` leaves the field, `Some(None)` clears it and
      `Some(Some(v))` sets it. For a required field `None` leaves it and
      `Some(v)` sets it. */
  datatype ToDoUpdate = ToDoUpdate(
    due: Option<Option<DateTime>>,
    prio: Option<Option<Priority>>,
    recur: Option<Option<Recurrence>>,
    desc: Option<string>,
    status: Option<Status>,
    start: Option<DateTime>,
    tags: Option<seq<string>>
  )

  /** The seven fields of a task, to talk about which ones an update touches. */
  datatype Field = RecurField | DueField | PrioField | StartField | DescField | StatusField | TagsField

  // ----- update descriptor -------------------------------------------------

  /** `ToDoUpdate::new()`, the derived default: leaves every field alone. */
  function NewUpdate(): (u: ToDoUpdate)
    ensures UpdatedFields(u) == {}
  {
    ToDoUpdate(None, None, None, None, None, None, None)
  }

  /** `ToDoUpdate::with_status`: requests the status and keeps every other entry. */
  function WithStatus(u: ToDoUpdate, s: Status): (r: ToDoUpdate)
    ensures UpdatedFields(r) == UpdatedFields(u) + {StatusField}
    ensures r.status == Some(s)
    ensures r.(status := u.status) == u
  {
    u.(status := Some(s))
  }

  /** Whether update `u` asks to overwrite field `f`. */
  predicate Requests(u: ToDoUpdate, f: Field) {
    match f
    case RecurField => u.recur.Some?
    case DueField => u.due.Some?
    case PrioField => u.prio.Some?
    case StartField => u.start.Some?
    case DescField => u.desc.Some?
    case StatusField => u.status.Some?
    case TagsField => u.tags.Some?
  }

  const AllFields: set<Field> :=
    {RecurField, DueField, PrioField, StartField, DescField, StatusField, TagsField}

  /** The fields an update descriptor asks to overwrite. */
  function UpdatedFields(u: ToDoUpdate): (fs: set<Field>)
    ensures forall f :: f in fs <==> Requests(u, f)
  {
    set f | f in AllFields && Requests(u, f)
  }

  /** Whether two tasks agree on field `f`. */
  predicate SameField(a: ToDo, b: ToDo, f: Field) {
    match f
    case RecurField => a.recur == b.recur
    case DueField => a.due == b.due
    case PrioField => a.prio == b.prio
    case StartField => a.start == b.start
    case DescField => a.desc == b.desc
    case StatusField => a.status == b.status
    case TagsField => a.tags == b.tags
  }

  /** Whether task `t` holds, in field `f`, the value update `u` requests for it. */
  predicate HoldsRequested(t: ToDo, u: ToDoUpdate, f: Field)
    requires Requests(u, f)
  {
    match f
    case RecurField => t.recur == u.recur.value
    case DueField => t.due == u.due.value
    case PrioField => t.prio == u.prio.value
    case StartField => t.start == u.start.value
    case DescField => t.desc == u.desc.value
    case StatusField => t.status == u.status.value
    case TagsField => t.tags == u.tags.value
  }

  /** The body of `Database::update` for the task found at the id: each
      field present in the descriptor overwrites the task's field. */
  function ApplyUpdate(t: ToDo, u: ToDoUpdate): (r: ToDo)
    ensures r.desc == (if u.desc.Some? then u.desc.value else t.desc)
    ensures r.due == (if u.due.Some? then u.due.value else t.due)
    ensures r.start == (if u.start.Some? then u.start.value else t.start)
    ensures r.prio == (if u.prio.Some? then u.prio.value else t.prio)
    ensures r.tags == (if u.tags.Some? then u.tags.value else t.tags)
    ensures r.recur == (if u.recur.Some? then u.recur.value else t.recur)
    ensures r.status == (if u.status.Some? then u.status.value else t.status)
  {
    var t1 := if u.desc.Some? then t.(desc := u.desc.value) else t;
    var t2 := if u.due.Some? then t1.(due := u.due.value) else t1;
    var t3 := if u.start.Some? then t2.(start := u.start.value) else t2;
    var t4 := if u.prio.Some? then t3.(prio := u.prio.value) else t3;
    var t5 := if u.tags.Some? then t4.(tags := u.tags.value) else t4;
    var t6 := if u.recur.Some? then t5.(recur := u.recur.value) else t5;
    if u.status.Some? then t6.(status := u.status.value) else t6
  }

  /** The fields an update names take the requested values; all other
      fields keep the task's values. */
  lemma ApplyUpdateSparse(t: ToDo, u: ToDoUpdate)
    ensures forall f :: Requests(u, f) ==> HoldsRequested(ApplyUpdate(t, u), u, f)
    ensures forall f :: !Requests(u, f) ==> SameField(ApplyUpdate(t, u), t, f)
  {
    var r := ApplyUpdate(t, u);
    forall f
      ensures Requests(u, f) ==> HoldsRequested(r, u, f)
      ensures !Requests(u, f) ==> SameField(r, t, f)
    {
      match f
      case RecurField =>
      case DueField =>
      case PrioField =>
      case StartField =>
      case DescField =>
      case StatusField =>
      case TagsField =>
    }
  }

  /** Agreeing on all seven fields is the same as being equal. */
  lemma SameFieldsEqual(a: ToDo, b: ToDo)
    requires forall f :: SameField(a, b, f)
    ensures a == b
  {
    assert SameField(a, b, RecurField) && SameField(a, b, DueField) && SameField(a, b, PrioField);
    assert SameField(a, b, StartField) && SameField(a, b, DescField);
    assert SameField(a, b, StatusField) && SameField(a, b, TagsField);
  }

  /** A descriptor with no entries leaves the task as it is. */
  lemma ApplyEmptyUpdate(t: ToDo, u: ToDoUpdate)
    requires UpdatedFields(u) == {}
    ensures ApplyUpdate(t, u) == t
  {
    assert !Requests(u, DescField) && !Requests(u, DueField) && !Requests(u, StartField);
    assert !Requests(u, PrioField) && !Requests(u, TagsField) && !Requests(u, RecurField);
    assert !Requests(u, StatusField);
  }

  /** Applying the same descriptor twice is applying it once. */
  lemma ApplyUpdateIdempotent(t: ToDo, u: ToDoUpdate)
    ensures ApplyUpdate(ApplyUpdate(t, u), u) == ApplyUpdate(t, u)
  {
  }

  /** Task equality is structural: two tasks are equal exactly when all seven fields are. */
  lemma ToDoEqualityIsStructural(a: ToDo, b: ToDo)
    ensures a == b <==> (a.recur == b.recur && a.due == b.due && a.prio == b.prio &&
                         a.start == b.start && a.desc == b.desc && a.status == b.status &&
                         a.tags == b.tags)
  {
  }

  // ----- string mappings ---------------------------------------------------

  /** `Status::as_symbol`: a check mark for a finished task, "x" for an open one. */
  function AsSymbol(s: Status): (r: string)
    ensures s == Complete ==> r == "\U{2713}"
    ensures s == Pending ==> r == "x"
  {
    match s
    case Complete => "\U{2713}"
    case Pending => "x"
  }

  /** The two status symbols differ, so the symbol identifies the status. */
  lemma AsSymbolInjective(a: Status, b: Status)
    ensures AsSymbol(a) == AsSymbol(b) <==> a == b
  {
    assert "\U{2713}"[0] != "x"[0];
  }

  /** `Priority::to_string`. */
  function PriorityToString(p: Priority): (r: string)
    ensures p == Low ==> r == "Low"
    ensures p == Medium ==> r == "Medium"
    ensures p == High ==> r == "High"
  {
    match p
    case Low => "Low"
    case Medium => "Medium"
    case High => "High"
  }

  /** Distinct priorities print differently. */
  lemma PriorityToStringInjective(a: Priority, b: Priority)
    ensures PriorityToString(a) == PriorityToString(b) <==> a == b
  {
    if a != b {
      assert PriorityToString(a)[0] != PriorityToString(b)[0];
    }
  }

  /** `Priority::try_from(Option<&str>)`: only the exact lower-case names are
      accepted; anything else, and an absent string, is an error. */
  function PriorityTryFrom(s: Option<string>): (r: Result<Priority, ()>)
    ensures r.Success? <==> s.Some? && s.value in {"high", "medium", "low"}
    ensures r == Success(High) <==> s == Some("high")
    ensures r == Success(Medium) <==> s == Some("medium")
    ensures r == Success(Low) <==> s == Some("low")
  {
    match s
    case Some(str) =>
      if str == "high" then Success(High)
      else if str == "medium" then Success(Medium)
      else if str == "low" then Success(Low)
      else Failure(())
    case None => Failure(())
  }

  /** Parsing the lower-cased printed name gives the priority back. */
  lemma PriorityRoundTrip(p: Priority)
    ensures PriorityTryFrom(Some(AsciiLower(PriorityToString(p)))) == Success(p)
  {
    var s := PriorityToString(p);
    var l := AsciiLower(s);
    match p
    case Low => assert l == "low";
    case Medium => assert l == "medium";
    case High => assert l == "high";
  }

  /** Case matters for `try_from`: the printed (capitalised) names are rejected. */
  lemma PriorityTryFromRejectsPrintedNames(p: Priority)
    ensures PriorityTryFrom(Some(PriorityToString(p))).Failure?
  {
  }

  // ----- ordering ----------------------------------------------------------

  /** Position in the declaration, which the derived `Ord` compares. */
  function Rank(p: Priority): nat {
    match p
    case Low => 0
    case Medium => 1
    case High => 2
  }

  /** The derived `<` on priorities. */
  predicate Less(a: Priority, b: Priority) {
    Rank(a) < Rank(b)
  }

  /** `Low < Medium < High`, and `<` is a strict total order. */
  lemma PriorityTotalOrder(a: Priority, b: Priority, c: Priority)
    ensures Less(Low, Medium) && Less(Medium, High)
    ensures !Less(a, a)
    ensures Less(a, b) && Less(b, c) ==> Less(a, c)
    ensures a == b || Less(a, b) || Less(b, a)
    ensures !(Less(a, b) && Less(b, a))
  {
  }
}
