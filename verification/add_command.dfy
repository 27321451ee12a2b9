/** The `add` command of src/commands/add.rs: resolving date arguments (a
    short weekday name or a dd-mm-yyyy date) and building the new task. */
module AddCommand {
  import opened Wrappers
  import opened Calendar
  import opened Text
  import opened Todo
  import opened Store

  /** The accepted weekday abbreviations, indexed by weekday (Monday = 0). */
  const ShortDays: seq<string> := ["mon", "tue", "wed", "thu", "fri", "sat", "sun"]

  /** Where the Rust code would panic. */
  datatype Panic =
    | SliceNotOnCharBoundary  // `&s[..3]` on a string whose byte 3 is missing or inside a character
    | DateParseFailed         // `parse_from_str(..).unwrap()` on a malformed date

  /** The arguments of `add` as the argument parser hands them over. */
  datatype AddArgs = AddArgs(
    todo: string,
    start: Option<string>,
    dueDate: Option<string>,
    priority: Option<string>,
    tags: Option<seq<string>>
  )

  /** The weekday abbreviations are pairwise distinct. */
  lemma ShortDaysDistinct(i: nat, j: nat)
    requires i < 7 && j < 7 && i != j
    ensures ShortDays[i] != ShortDays[j]
  {
    assert ShortDays[i][0] != ShortDays[j][0] || ShortDays[i][1] != ShortDays[j][1];
  }

  /** The loop of `day_to_date`: step to the following day until its
      abbreviation equals `goal`, giving up on the last representable day. */
  function NextMatchingDay(date: Day, goal: string): (r: Option<Day>)
    ensures r.Some? ==> date < r.value && ShortDays[Weekday(r.value)] == goal
    ensures r.Some? ==> forall k :: date < k < r.value ==> ShortDays[Weekday(k)] != goal
    ensures r.None? ==> forall k :: date < k <= MaxDay ==> ShortDays[Weekday(k)] != goal
    decreases MaxDay - date
  {
    match SuccOpt(date)
    case None => None
    case Some(next) =>
      if ShortDays[Weekday(next)] == goal then Some(next) else NextMatchingDay(next, goal)
  }

  /** `day_to_date`: the first day after `curr` whose weekday is named by the
      lower-cased first three bytes of `desired`, at midnight. */
  function DayToDate(curr: DateTime, desired: string): (r: Result<Option<DateTime>, Panic>)
    ensures r.Failure? <==> BytePrefix(desired, 3).None?
    ensures r.Success? && r.value.Some? ==>
              curr.date < r.value.value.date && r.value.value.time == Midnight &&
              ShortDays[Weekday(r.value.value.date)] == BytePrefix(AsciiLower(desired), 3).value
  {
    AsciiLowerBytePrefix(desired, 3);
    match BytePrefix(AsciiLower(desired), 3)
    case None => Failure(SliceNotOnCharBoundary)
    case Some(goal) =>
      match NextMatchingDay(curr.date, goal)
      case Some(d) => Success(Some(AtMidnight(d)))
      case None => Success(None)
  }

  /** The day found is the FIRST one after `curr` with the requested weekday. */
  lemma DayToDateIsFirst(curr: DateTime, desired: string, k: int)
    requires DayToDate(curr, desired).Success? && DayToDate(curr, desired).value.Some?
    requires curr.date < k < DayToDate(curr, desired).value.value.date
    ensures ShortDays[Weekday(k)] != BytePrefix(AsciiLower(desired), 3).value
  {
  }

  /** Some day among the seven after `x` has weekday `g`. */
  lemma WeekdayWithinSeven(x: int, g: nat) returns (d: int)
    requires g < 7
    ensures x < d <= x + 7 && Weekday(d) == g
  {
    var m := (g - x - 1) % 7;
    var q := (g - x - 1) / 7;
    assert g - x - 1 == 7 * q + m;
    d := x + 1 + m;
    assert d == g + 7 * (-q);
    WeekdayPeriodic(g, -q);
  }

  /** The search finds weekday `g` within a week, unless the calendar ends first. */
  lemma NextMatchingDayWithinAWeek(date: Day, g: nat)
    requires g < 7
    ensures NextMatchingDay(date, ShortDays[g]).Some? ==>
              NextMatchingDay(date, ShortDays[g]).value <= date + 7
    ensures NextMatchingDay(date, ShortDays[g]).None? ==> date + 7 > MaxDay
  {
    var r := NextMatchingDay(date, ShortDays[g]);
    var d := WeekdayWithinSeven(date, g);
    if d <= MaxDay {
      assert r.Some? && r.value <= d;
    } else {
      if r.Some? {
        var w := Weekday(r.value);
        if w != g {
          ShortDaysDistinct(w, g);
        }
        assert false;
      }
    }
  }

  /** For a real weekday name the answer lies 1 to 7 days ahead, and there can
      be no answer only when fewer than seven days are left in the calendar. */
  lemma DayToDateWithinAWeek(curr: DateTime, desired: string)
    requires BytePrefix(AsciiLower(desired), 3).Some?
    requires BytePrefix(AsciiLower(desired), 3).value in ShortDays
    ensures DayToDate(curr, desired).Success?
    ensures DayToDate(curr, desired).value.Some? ==>
              DayToDate(curr, desired).value.value.date <= curr.date + 7
    ensures DayToDate(curr, desired).value.None? ==> curr.date + 7 > MaxDay
  {
    AsciiLowerBytePrefix(desired, 3);
    var goal := BytePrefix(AsciiLower(desired), 3).value;
    var g :| 0 <= g < 7 && ShortDays[g] == goal;
    NextMatchingDayWithinAWeek(curr.date, g);
  }

  /** Case does not matter: only the lower-cased first three bytes are compared. */
  lemma DayToDateIgnoresCase(curr: DateTime, a: string, b: string)
    requires AsciiLower(a) == AsciiLower(b)
    ensures DayToDate(curr, a) == DayToDate(curr, b)
  {
  }

  /** `date_from_input`: a string starting with a weekday abbreviation means
      the next such day (or `now` when the calendar runs out); anything else
      must parse as a date and is taken at midnight. `parse` stands for the
      date library's dd-mm-yyyy parser. */
  function DateFromInput(date: string, now: DateTime, parse: string -> Option<Day>): (r: Result<DateTime, Panic>)
    ensures BytePrefix(date, 3).None? ==> r == Failure(SliceNotOnCharBoundary)
    ensures BytePrefix(date, 3).Some? && BytePrefix(date, 3).value in ShortDays ==>
              r.Success? && (r.value == now ||
                             (now.date < r.value.date <= now.date + 7 && r.value.time == Midnight &&
                              ShortDays[Weekday(r.value.date)] == BytePrefix(date, 3).value))
    ensures BytePrefix(date, 3).Some? && BytePrefix(date, 3).value in ShortDays && now.date + 7 <= MaxDay ==>
              r.Success? && now.date < r.value.date
    ensures BytePrefix(date, 3).Some? && BytePrefix(date, 3).value in ShortDays ==>
              r.Success? && (r.value == now <==> NextMatchingDay(now.date, BytePrefix(date, 3).value).None?)
    ensures BytePrefix(date, 3).Some? && BytePrefix(date, 3).value !in ShortDays ==>
              (parse(date).None? ==> r == Failure(DateParseFailed)) &&
              (parse(date).Some? ==> r == Success(AtMidnight(parse(date).value)))
  {
    match BytePrefix(date, 3)
    case None => Failure(SliceNotOnCharBoundary)
    case Some(prefix) =>
      if prefix in ShortDays then
        ShortDayPrefixLowered(date);
        DayToDateWithinAWeek(now, date);
        Success(DayToDate(now, date).value.GetOr(now))
      else
        match parse(date)
        case Some(d) => Success(AtMidnight(d))
        case None => Failure(DateParseFailed)
  }

  /** A prefix that already is an abbreviation is unchanged by lower-casing. */
  lemma ShortDayPrefixLowered(date: string)
    requires BytePrefix(date, 3).Some? && BytePrefix(date, 3).value in ShortDays
    ensures BytePrefix(AsciiLower(date), 3).Some?
    ensures BytePrefix(AsciiLower(date), 3).value == BytePrefix(date, 3).value
  {
    AsciiLowerBytePrefix(date, 3);
    var p := BytePrefix(date, 3).value;
    ShortDayHasNoCapitals(p);
    AsciiLowerFixes(p);
  }

  /** Every abbreviation is written in lower case. */
  lemma ShortDayHasNoCapitals(p: string)
    requires p in ShortDays
    ensures forall i :: 0 <= i < |p| ==> !('A' <= p[i] <= 'Z')
  {
    if p == "mon" {
    } else if p == "tue" {
    } else if p == "wed" {
    } else if p == "thu" {
    } else if p == "fri" {
    } else if p == "sat" {
    } else {
      assert p == "sun";
    }
  }

  /** The task `add` builds. Panics in the date arguments become `Failure`. */
  function BuildToDo(args: AddArgs, now: DateTime, parse: string -> Option<Day>): (r: Result<ToDo, Panic>)
    ensures r.Success? ==> r.value.status == Pending && r.value.recur == None
    ensures r.Success? ==> r.value.desc == args.todo && r.value.tags == args.tags.GetOr([])
    ensures r.Success? ==> r.value.prio == PriorityTryFrom(args.priority).ToOption()
    ensures r.Success? && args.start.None? ==> r.value.start == now
    ensures r.Success? && args.start.Some? ==> DateFromInput(args.start.value, now, parse) == Success(r.value.start)
    ensures r.Success? && args.dueDate.None? ==> r.value.due == None
    ensures r.Success? && args.dueDate.Some? ==> r.value.due.Some? && DateFromInput(args.dueDate.value, now, parse) == Success(r.value.due.value)
    ensures r.Failure? <==> (args.start.Some? && DateFromInput(args.start.value, now, parse).Failure?) ||
                            (args.dueDate.Some? && DateFromInput(args.dueDate.value, now, parse).Failure?)
  {
    var start := if args.start.Some? then DateFromInput(args.start.value, now, parse) else Success(now);
    var due := if args.dueDate.Some? then DateFromInput(args.dueDate.value, now, parse) else Success(now);
    if start.Failure? then Failure(start.error)
    else if due.Failure? then Failure(due.error)
    else
      Success(ToDo(
        recur := None,
        due := if args.dueDate.Some? then Some(due.value) else None,
        prio := PriorityTryFrom(args.priority).ToOption(),
        start := start.value,
        desc := args.todo,
        status := Pending,
        tags := args.tags.GetOr([])))
  }

  /** `add`: builds the task and appends it to the store. */
  function Add(db: Database, args: AddArgs, now: DateTime, parse: string -> Option<Day>): (r: Result<Database, Panic>)
    ensures r.Success? ==> r.value.state == Dirty && r.value.dataDir == db.dataDir
    ensures r.Success? ==> BuildToDo(args, now, parse).Success? && r.value.todos == db.todos + [BuildToDo(args, now, parse).value]
    ensures r.Failure? <==> BuildToDo(args, now, parse).Failure?
  {
    match BuildToDo(args, now, parse)
    case Success(t) => Success(Store.Add(db, t))
    case Failure(e) => Failure(e)
  }
}
