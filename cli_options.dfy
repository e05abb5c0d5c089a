/**
 * What both hand-written option parsers have in common: they walk the
 * arguments after the positional path and turn them into a sequence of steps,
 * each either assigning a value to a flag or skipping a token. An option's
 * final value is the one assigned last.
 */
module CliOptions {
  import opened Wrappers

  datatype Step = Assign(flag: string, value: string) | Skip(token: string)

  /** The argument tokens a step consumed. */
  function StepTokens(s: Step): seq<string> {
    match s
    case Assign(flag, value) => [flag, value]
    case Skip(token) => [token]
  }

  /** The argument tokens a run of steps consumed, in order. */
  function Consumed(steps: seq<Step>): seq<string> {
    if steps == [] then [] else StepTokens(steps[0]) + Consumed(steps[1..])
  }

  predicate AssignsTo(s: Step, flag: string) {
    s.Assign? && s.flag == flag
  }

  /**
   * The value of the last step that assigns to `flag`, or None when no step
   * does: each assignment overwrites the variable the previous one set.
   */
  function LastAssigned(steps: seq<Step>, flag: string): Option<string> {
    if steps == [] then None
    else if AssignsTo(steps[|steps| - 1], flag) then Some(steps[|steps| - 1].value)
    else LastAssigned(steps[..|steps| - 1], flag)
  }

  /** The value found was assigned by some step; nothing is found exactly when no step assigns the flag. */
  lemma {:induction false} LastAssignedFound(steps: seq<Step>, flag: string)
    ensures LastAssigned(steps, flag).Some? ==> Assign(flag, LastAssigned(steps, flag).value) in steps
    ensures LastAssigned(steps, flag).None? <==> forall s :: s in steps ==> !AssignsTo(s, flag)
  {
    if steps != [] {
      var init, last := steps[..|steps| - 1], steps[|steps| - 1];
      LastAssignedFound(init, flag);
      assert steps == init + [last];
    }
  }

  /** Steps for other flags, and skipped tokens, leave an option as it was. */
  lemma {:induction false} LastAssignedIgnores(steps: seq<Step>, more: seq<Step>, flag: string)
    requires forall s :: s in more ==> !AssignsTo(s, flag)
    ensures LastAssigned(steps + more, flag) == LastAssigned(steps, flag)
  {
    if more == [] {
      assert steps + more == steps;
    } else {
      var init, last := more[..|more| - 1], more[|more| - 1];
      assert more == init + [last];
      assert steps + more == (steps + init) + [last];
      assert last in more;
      LastAssignedSnoc(steps + init, last, flag);
      LastAssignedIgnores(steps, init, flag);
    }
  }

  /** Last occurrence wins: a later assignment to `flag` decides its value. */
  lemma LastOccurrenceWins(before: seq<Step>, value: string, after: seq<Step>, flag: string)
    requires forall s :: s in after ==> !AssignsTo(s, flag)
    ensures LastAssigned(before + [Assign(flag, value)] + after, flag) == Some(value)
  {
    LastAssignedIgnores(before + [Assign(flag, value)], after, flag);
  }

  /** Appending one step is one assignment to the option variable, or none. */
  lemma LastAssignedSnoc(steps: seq<Step>, s: Step, flag: string)
    ensures LastAssigned(steps + [s], flag)
         == if AssignsTo(s, flag) then Some(s.value) else LastAssigned(steps, flag)
  {
    assert (steps + [s])[..|steps|] == steps;
  }

  lemma ConsumedCons(s: Step, steps: seq<Step>)
    ensures Consumed([s] + steps) == StepTokens(s) + Consumed(steps)
  {
    assert ([s] + steps)[1..] == steps;
  }
}
