# clido task store — a Dafny model

clido is a command-line to-do list. This project models its in-memory task
store and the pure logic around it:

- the task record (`ToDo`) with its `Status`, `Priority` and `Recurrence`;
- the sparse update descriptor (`ToDoUpdate`), whose doubly optional entries
  tell "leave", "clear" and "set" apart;
- the `Database` store with its Clean/Dirty typestate. It comes in two
  versions. `OrderedStore` (src/db.rs) has an order-preserving delete and a
  general update. `SwapStore` (src/db/mod.rs) has a swap-remove delete and
  `mark_complete`. `add` is the same in both files (src/db.rs:27-36 and
  src/db/mod.rs:27-36), so it is defined once, as `Store.Add`;
- the command logic: the OR-combined list filter of src/commands/list.rs; the
  AND-combined list loop of src/cmd.rs; `add` in its three versions, with
  weekday-name dates; `modify`; `mark`; and the priority validator.

Everything is a pure function over immutable datatypes. A store mutator takes
a `Database` and returns a new one in state `Dirty` with the same data
directory. `Store.Todos` is the read-only accessor of the list, usable in
either state.

Modelling choices:

- **Dates.** Dates are day numbers. Day 0 is 0001-01-01, a Monday, so the
  weekday is `day % 7` with Monday = 0. The valid range is the date library's
  range, -262144-01-01 to 262143-12-31. A timestamp is a day plus seconds
  since midnight.
- **Clock and parser.** The clock (`Local::now()`) is passed in as the
  parameter `now`. The date library's dd-mm-yyyy parser is passed in as
  `parse: string -> Option<Day>`. Date formatting is passed in as
  `fmt: Day -> string`.
- **Panics.** Where the Rust code would panic, the model returns a `Failure`.
  There are two such cases. One is `&s[..3]` when byte 3 is missing or falls
  inside a multi-byte UTF-8 character (modelled with UTF-8 widths in
  `Text.BytePrefix`). The other is `unwrap()` on a failed date parse.
- **`SHORT_DAYS`.** src/commands/add.rs uses this array of weekday
  abbreviations, but the args.rs shown here does not define it. The model
  uses "mon".."sun", in the order given by the comment at
  src/commands/add.rs:62.
- **`debug_assert!`.** The check in `day_to_date` is modelled as in a
  release build, where it does nothing.
- **Shared task type.** One `ToDo` type serves both src/todo.rs and
  src/db/todo.rs, which declare the same seven fields. The task type of
  src/cmd/mod.rs has no tags and no recurrence. There `CmdMod.BuildToDo`
  fills them with `[]` and `None`.
- **Joined versions.** src/commands/add.rs converts the priority with
  `Priority::try_from(Option<&str>)`. Only src/db/todo.rs defines that
  conversion (src/todo.rs's `Priority` has none), so `AddCommand` uses
  `Todo.PriorityTryFrom`, the model of src/db/todo.rs. src/commands/modify.rs
  calls `super::date_from_input`, which src/commands/mod.rs does not define.
  `ModifyCommand` uses the `date_from_input` of src/commands/add.rs
  (`AddCommand.DateFromInput`).
- **Which store each command uses.** The `commands/` modules run on the
  src/db.rs store (`OrderedStore`). The `add` of src/cmd.rs runs on the
  src/db/mod.rs store (`SwapStore`).
- **No duplicate check.** `add` in the code appends without checking for an
  identical task, so the model has no duplicate check either. An identical
  task is appended a second time.
- **Delete policy.** The two store versions delete differently, and both are
  modelled. `SwapStore.DeletePoliciesAgreeOnSurvivors` relates them.

## Model

| member | source | states |
|---|---|---|
| Text.BytePrefix | src/commands/add.rs:43 | `&s[..n]` yields the character prefix whose UTF-8 encoding is exactly n bytes, or no result (a panic) when no prefix has n bytes |
| Text.AsciiLowerBytePrefix | src/commands/add.rs:55 | slicing the lower-cased string succeeds exactly when slicing the original does, and gives the lower-cased slice |
| Calendar.SuccOpt | src/commands/add.rs:60 | the next day exists exactly before the last representable day, and is one day later |
| Todo.NewUpdate | src/todo.rs:55-58 | `ToDoUpdate::new()` requests no field |
| Todo.WithStatus | src/todo.rs:60-63 | `with_status` requests exactly the status in addition, and keeps every other entry |
| Todo.ApplyUpdate | src/db.rs:52-79 | every field named by the descriptor takes the requested value; every other field is unchanged |
| Todo.SameFieldsEqual | src/todo.rs:29-41 | tasks agreeing on all seven fields are equal |
| Todo.ApplyEmptyUpdate | src/db.rs:51-80 | a descriptor with no entries leaves the task unchanged |
| Todo.ApplyUpdateIdempotent | src/db.rs:53-79 | applying a descriptor twice equals applying it once |
| Todo.ApplyUpdateSparse | src/db.rs:53-79 | for every field: if the descriptor requests it, the result holds the requested value, and if not, the field is unchanged |
| Todo.ToDoEqualityIsStructural | src/db/todo.rs:29-41 | task equality is equality of all seven fields |
| Todo.AsSymbol | src/todo.rs:72-78 | Complete shows as a check mark (U+2713), Pending as "x" |
| Todo.AsSymbolInjective | src/db/todo.rs:49-55 | the two status symbols differ |
| Todo.PriorityToString | src/todo.rs:90-97 | priorities print as "Low", "Medium", "High" |
| Todo.PriorityToStringInjective | src/db/todo.rs:65-73 | distinct priorities print differently |
| Todo.PriorityTryFrom | src/db/todo.rs:75-85 | exactly "high", "medium" and "low" parse, to High, Medium and Low; any other string, and no string at all, is an error |
| Todo.PriorityRoundTrip | src/db/todo.rs:65-84 | parsing the lower-cased printed name of a priority gives that priority back |
| Todo.PriorityTryFromRejectsPrintedNames | src/db/todo.rs:78-82 | the capitalised printed names are rejected, since matching is case-sensitive |
| Todo.PriorityTotalOrder | src/todo.rs:81-88 | the derived order has Low < Medium < High and is a strict total order |
| Store.ListPath | src/db.rs:192-195 | the database file is the data directory with "clido.db" appended |
| Store.ListPathInjective | src/db/mod.rs:174-177 | distinct data directories give distinct database files |
| Store.FindPosition | src/db.rs:39 | the enumerate-and-find search finds a position exactly when the id is in range, and that position is the id |
| Store.Dirtied | src/db/mod.rs:31-35 | a mutator's result is Dirty, holds the new list and keeps the data directory |
| Store.Add | src/db.rs:27-36 | add appends: one more task, earlier tasks unchanged, the new task last, Dirty, same directory |
| Store.TodosView | src/db.rs:89-91 | `todos()` gives the same list in either state, and after `add` it gives the old list followed by the new task |
| OrderedStore.Remove | src/db.rs:40 | `Vec::remove` drops one element, keeps the earlier ones, shifts the later ones down, and removes one occurrence from the multiset |
| OrderedStore.Delete | src/db.rs:38-49 | an in-range id gives `todos[..id] + todos[id+1..]`; an out-of-range id leaves the list; both are Dirty with the same directory |
| OrderedStore.Update | src/db.rs:51-87 | the target task becomes the descriptor applied to it; the length and all other tasks are unchanged; an out-of-range id changes nothing |
| OrderedStore.UpdateChangesOnlyRequested | src/db.rs:53-79 | after update, every field of every task is unchanged except the requested fields of the target |
| OrderedStore.UpdateEmptyIsIdentity | src/db.rs:51-80 | an all-None descriptor leaves the list unchanged |
| OrderedStore.UpdateIdempotent | src/db.rs:53-79 | updating twice with the same descriptor equals updating once |
| OrderedStore.DeleteKeepsSurvivors | src/db.rs:38-41 | delete removes one occurrence of the deleted task from the multiset and keeps the survivors in order |
| SwapStore.SwapRemove | src/db/mod.rs:40 | `swap_remove` shortens by one, moves the last element into the freed slot, keeps the others, and removes one occurrence from the multiset |
| SwapStore.SwapRemoveMultiset | src/db/mod.rs:40 | moving the last element into slot i and dropping the end removes exactly `todos[i]` from the multiset |
| SwapStore.Delete | src/db/mod.rs:38-49 | an in-range id shortens the list by one, the slot receives the former last task, other slots are unchanged, and the multiset loses `todos[id]`; an out-of-range id changes nothing; Dirty, same directory |
| SwapStore.MarkComplete | src/db/mod.rs:51-67 | only the target's status changes, to Complete; every other field and task is unchanged; an out-of-range id changes nothing |
| SwapStore.MarkCompleteIdempotent | src/db/mod.rs:51-58 | marking twice equals marking once |
| SwapStore.DeletePoliciesAgreeOnSurvivors | src/db/mod.rs:38-40 | swap-remove and order-preserving delete leave the same multiset, and the same list when the last task or no task is deleted |
| Listing.Select | src/commands/list.rs:21 | the filtered enumeration lists kept tasks, each with its original position, in strictly increasing order |
| Listing.SelectComplete | src/commands/list.rs:21-28 | every kept task appears in the filtered enumeration |
| Listing.SelectEmptyIff | src/commands/list.rs:48-49 | the filtered enumeration is empty exactly when no task is kept |
| Listing.SelectAll | src/commands/list.rs:26 | when every task is kept, entry k is task k at position k |
| Listing.PriorityLabel | src/commands/list.rs:36-39 | the priority column is the priority's name, or "None" when there is none |
| Listing.PriorityLabelInjective | src/cmd.rs:127-130 | the priority column tells all four cases apart, since no priority prints as "None" |
| Listing.DueLabel | src/commands/list.rs:40-43 | the due column is the formatted date, or "None" when there is none |
| Listing.RenderRow | src/commands/list.rs:33-45 | a row holds the position, the status symbol, the description, the start date and the two labels |
| Listing.RenderRows | src/commands/list.rs:32-46 | one row per shown entry, in order |
| ListCommand.ShownEntries | src/commands/list.rs:21-28 | the listed entries are exactly the tasks passing the OR filter, with their positions, in list order |
| ListCommand.Run | src/commands/list.rs:17-57 | the command reads the store through `todos()`; it prints the notice exactly when no task passes the filter, and otherwise prints the rows of the shown entries |
| ListCommand.NoFlagsShowsAll | src/commands/list.rs:26 | with no flags and no tag filter, every task is listed under its own position |
| ListCommand.BothFlagsShowAll | src/commands/list.rs:22-23 | with both flags, every task is listed |
| ListCommand.TagMatchShown | src/commands/list.rs:24-25 | a task holding any filter tag is shown, whatever its status |
| ListCommand.EmptyFilterShowsNothing | src/commands/list.rs:24-25 | an empty tag filter with no flags shows nothing |
| Cmd.ParseDate | src/cmd.rs:39-44 | a date argument is the parsed day at midnight; it panics exactly when parsing fails |
| Cmd.BuildToDo | src/cmd.rs:18-59 | the new task is Pending with no recurrence; start is now when absent and the parsed day at midnight otherwise; prio comes from `try_from`; tags default to empty; it panics exactly when a given date fails to parse |
| Cmd.Add | src/cmd.rs:61 | add appends the built task to the store, which becomes Dirty |
| Cmd.List | src/cmd.rs:90-147 | the list is read through `todos()`; an empty list gives the no-to-dos notice; otherwise the result is "no matches" exactly when no task passes both filters, and is otherwise the passing entries with their positions |
| Cmd.BothFlagsShowNothing | src/cmd.rs:116-119 | requiring both complete and pending shows nothing |
| Cmd.FilterNeedsATag | src/cmd.rs:110-113 | with a filter list, a task without any filter tag is skipped |
| Cmd.AndVersusOr | src/cmd.rs:109-120 | a Pending task with the filter tag is shown by the OR filter but skipped by the AND filter when complete tasks are required |
| Cmd.AddMarkDeleteScenario | src/cmd.rs:61-88 | add "buy milk" with priority high, then mark 0, then delete 0: the task is Pending with priority High and no due date, then Complete, then the list is empty |
| CmdMod.PriorityFromArg | src/cmd/mod.rs:28-33 | the priority match agrees with `try_from`: "high"/"medium"/"low" map to their priorities, anything else to none |
| CmdMod.BuildToDo | src/cmd/mod.rs:9-51 | the task starts now, has no due date, is Pending and takes its priority from the match |
| CmdMod.DateArgumentsIgnored | src/cmd/mod.rs:17-20 | the start and due arguments do not affect the task |
| Args.ValidPriority | src/args.rs:8-15 | accepted exactly for "high", "mid", "low"; otherwise it fails with the options message |
| Args.ValidPriorityCaseSensitive | src/args.rs:10 | capitalised names are rejected |
| Args.ValidatedPriorityMapping | src/args.rs:9 | among accepted names only "mid" has no priority; "medium" is rejected although `try_from` maps it to Medium |
| AddCommand.ShortDaysDistinct | src/commands/add.rs:63 | the weekday abbreviations are pairwise distinct |
| AddCommand.NextMatchingDay | src/commands/add.rs:58-69 | the search returns the first later day with the requested weekday, or nothing when no such day exists before the calendar ends |
| AddCommand.DayToDate | src/commands/add.rs:52-70 | the result is strictly after the current date, at midnight, on the weekday named by the lower-cased first three bytes; it panics exactly when that slice panics |
| AddCommand.DayToDateIsFirst | src/commands/add.rs:60-65 | no day strictly between the current date and the result has the requested weekday |
| AddCommand.WeekdayWithinSeven | src/commands/add.rs:62 | every weekday occurs among the seven days after any date |
| AddCommand.NextMatchingDayWithinAWeek | src/commands/add.rs:60-69 | the search ends within seven days, and finds nothing only when fewer than seven days remain |
| AddCommand.DayToDateWithinAWeek | src/commands/add.rs:58-69 | for a weekday name, the result is 1 to 7 days later, and is None only when the date successor runs out |
| AddCommand.DayToDateIgnoresCase | src/commands/add.rs:55 | strings equal up to ASCII case give the same result |
| AddCommand.DateFromInput | src/commands/add.rs:42-50 | a weekday prefix gives the next such day, 1 to 7 days ahead at midnight, and it falls back to now exactly when no such day remains before the end of the calendar (so only in its last week); any other input gives the parsed date at midnight; it panics on a bad slice or a failed parse |
| AddCommand.ShortDayPrefixLowered | src/commands/add.rs:43 | a prefix accepted as a weekday name is the same after lower-casing |
| AddCommand.BuildToDo | src/commands/add.rs:8-35 | the new task is Pending with no recurrence; start is now when absent and resolved from the argument otherwise; due is resolved when given; prio comes from `try_from`; tags default to empty |
| AddCommand.Add | src/commands/add.rs:37 | add appends the built task to the store, which becomes Dirty |
| ModifyCommand.ModifyUpdate | src/commands/modify.rs:67-77 | desc, tags, prio and status are copied; start is left or set; due is left, cleared or set; recurrence is never requested; a panic in either date is a failure |
| ModifyCommand.Run | src/commands/modify.rs:67-82 | task `todo_id` becomes the task with the built descriptor applied; no other task changes, recurrences never change, and the store is Dirty with the same directory |
| ModifyCommand.ModifyTouchesOnlyGivenOptions | src/commands/modify.rs:67-82 | on the target, every option left out keeps its field, and description, tags, priority and status take the given value; `--due-date` with no value clears the due date |
| ModifyCommand.EmptyModifyChangesNothing | src/commands/modify.rs:67-81 | a modify with no options leaves the list unchanged |
| MarkCommand.MarkUpdate | src/commands/mark.rs:22 | the descriptor requests only the status, set to Complete |
| MarkCommand.Run | src/commands/mark.rs:18-25 | only the target's status changes, to Complete; all other fields and tasks are unchanged |
| MarkCommand.MarkOutOfRange | src/commands/mark.rs:19-24 | an out-of-range id leaves the list, but the store is still Dirty and so still saved |
| MarkCommand.MarkAgreesWithMarkComplete | src/commands/mark.rs:19-24 | marking through `update` gives the same store as `mark_complete` of src/db/mod.rs |

## Left out

- Loading and saving (`from_path`, `from_clido_dir`, `save`, `save_to_file`, `persist`, `DatabaseFile::open`): file I/O, temp files, atomic rename and the Windows retry loop with random back-off. The serialisation library is not part of this model. The Clean state stands for a freshly loaded store.
- `clido_dir`: looks up an environment variable and the platform data directory. The data directory is a parameter.
- `valid_date`, date parsing and date formatting: these belong to the date library. They enter as the `parse` and `fmt` parameters.
- `Local::now()`: it enters as the `now` parameter. Two clock readings in one command are taken to be equal.
- Table rendering (`get_list_table`, `printstd`) and `println!` notices: output only. The outcomes that decide which notice is printed are modelled. The rows of src/commands/list.rs are modelled (`Listing.RenderRow`). The rows of the `list` of src/cmd.rs are not: `Cmd.List` returns the passing entries with their positions, and the row layout, including the ISO `to_string()` of its dates (src/cmd.rs:126, 133), is left out.
- The ID column is kept as the position number, not its decimal string.
- Sub-second precision of timestamps is not modelled.
- The `delete` and `mark` wrappers of src/cmd.rs (lines 66-88), src/commands/del.rs and src/main.rs: id parsing and argument wiring. The src/cmd.rs wrappers call `SwapStore.Delete` and `SwapStore.MarkComplete`, and src/commands/del.rs calls `OrderedStore.Delete`.
- The `delete` and `mark` wrappers of src/cmd/mod.rs (lines 63-95): they run on the lifetime-based store that `DatabaseFile::open` returns. That store's `delete` and `mark_complete` return a `bool`, and the wrappers print "The ID {} was not an ID for a ToDo" when it is false. That store is not part of this model, so these wrappers are left out with it.
- The `Database` and `DatabaseFile` of src/cmd/mod.rs: this lifetime-based store is not part of this model. Only its `add`'s task construction is modelled.
- Argument-parser aliases of `Priority` ("mid", "med"): these are handled by the argument-parsing library, not by code in the modelled files.
