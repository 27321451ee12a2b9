/** The argument validator of src/args.rs for the priority option. */
module Args {
  import opened Wrappers
  import opened Todo

  const Priorities: seq<string> := ["high", "mid", "low"]

  /** The message listing the valid options, as `{:?}` prints the array. */
  const PriorityOptionsMessage: string := "Valid options are [\"high\", \"mid\", \"low\"]"

  /** `valid_priority`: accepts exactly the listed names, case-sensitively. */
  function ValidPriority(prio: string): (r: Result<(), string>)
    ensures r.Success? <==> prio == "high" || prio == "mid" || prio == "low"
    ensures r.Failure? ==> r.error == PriorityOptionsMessage
  {
    if prio in Priorities then Success(()) else Failure(PriorityOptionsMessage)
  }

  /** Capitalised names are rejected. */
  lemma ValidPriorityCaseSensitive()
    ensures ValidPriority("High").Failure? && ValidPriority("Mid").Failure? && ValidPriority("Low").Failure?
  {
  }

  /** The validator and `Priority::try_from` disagree on the middle level:
      "mid" is accepted but maps to no priority, and "medium", which maps to
      Medium, is rejected. Every other accepted name maps to a priority. */
  lemma ValidatedPriorityMapping(prio: string)
    requires ValidPriority(prio).Success?
    ensures PriorityTryFrom(Some(prio)).Success? <==> prio != "mid"
    ensures ValidPriority("medium").Failure? && PriorityTryFrom(Some("medium")) == Success(Medium)
  {
  }
}
