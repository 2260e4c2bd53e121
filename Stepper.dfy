/** The stepper shown above a multi-step form: how each step's circle,
    connector and the progress bar are drawn from the current step. It holds
    no state; everything compares a step's index with the current step. */
module Stepper {

  /** The three looks of a step circle. */
  datatype StepState = Completed | Current | Upcoming

  function StateOf(index: nat, current: int): StepState {
    if index < current then Completed
    else if index == current then Current
    else Upcoming
  }

  /** A step's button ignores clicks when the step lies ahead of the current one. */
  predicate Disabled(index: nat, current: int) {
    index > current
  }

  /** Every step but the last is followed by a connector line. */
  predicate HasConnector(index: nat, count: nat) {
    index < count - 1
  }

  /** A connector is drawn full once the step before it is done. */
  predicate ConnectorFilled(index: nat, current: int) {
    index < current
  }

  /** What a step circle shows: a check mark, or the step's number counting from one. */
  datatype Badge = CheckMark | Numbered(n: nat)

  function BadgeOf(index: nat, current: int): Badge {
    if index < current then CheckMark else Numbered(index + 1)
  }

  /** The width of the progress bar, in percent. */
  function ProgressPercent(current: int, count: nat): real
    requires count > 0
  {
    (current + 1) as real / count as real * 100.0
  }

  /** Each step is in exactly one state, and the button, connector and badge
      rules all agree with that state. */
  lemma StateAgreesWithRules(index: nat, current: int)
    ensures StateOf(index, current) == Completed <==> index < current
    ensures StateOf(index, current) == Current <==> index == current
    ensures StateOf(index, current) == Upcoming <==> index > current
    ensures Disabled(index, current) <==> StateOf(index, current) == Upcoming
    ensures ConnectorFilled(index, current) <==> StateOf(index, current) == Completed
    ensures BadgeOf(index, current) == CheckMark <==> StateOf(index, current) == Completed
    ensures BadgeOf(index, current) != CheckMark ==> BadgeOf(index, current) == Numbered(index + 1)
  {
  }

  /** On a stepper with `count` steps, every step but the last one is
      followed by a connector. */
  lemma ConnectorRule(index: nat, count: nat)
    requires index < count
    ensures HasConnector(index, count) <==> index != count - 1
  {
  }

  /** The states of steps `0 .. count-1`, as the stepper renders them. */
  function States(count: nat, current: int): (r: seq<StepState>)
    ensures |r| == count
    ensures forall i :: 0 <= i < count ==> r[i] == StateOf(i, current)
  {
    if count == 0 then [] else States(count - 1, current) + [StateOf(count - 1, current)]
  }

  function CountOf(states: seq<StepState>, s: StepState): nat {
    if states == [] then 0
    else CountOf(states[..|states| - 1], s) + (if states[|states| - 1] == s then 1 else 0)
  }

  function Clamp(x: int, lo: nat, hi: nat): nat
    requires lo <= hi
  {
    if x < lo then lo else if x > hi then hi else x
  }

  /** On a stepper with `count` steps, exactly `current` steps are completed
      (clamped to the number of steps), and exactly one step is current when
      `current` names a step. */
  lemma StateCounts(count: nat, current: int)
    ensures CountOf(States(count, current), Completed) == Clamp(current, 0, count)
    ensures CountOf(States(count, current), Current) == (if 0 <= current < count then 1 else 0)
    ensures CountOf(States(count, current), Completed) + CountOf(States(count, current), Current)
            + CountOf(States(count, current), Upcoming) == count
  {
    CompletedCount(count, current);
    CurrentCount(count, current);
    CountsSum(States(count, current));
  }

  lemma {:induction false} CompletedCount(count: nat, current: int)
    ensures CountOf(States(count, current), Completed) == Clamp(current, 0, count)
  {
    if count == 0 {
      assert States(count, current) == [];
    } else {
      CompletedCount(count - 1, current);
      LastStep(count, current, Completed);
    }
  }

  lemma {:induction false} CurrentCount(count: nat, current: int)
    ensures CountOf(States(count, current), Current) == (if 0 <= current < count then 1 else 0)
  {
    var n := CountOf(States(count, current), Current);
    if count == 0 {
      assert States(count, current) == [];
    } else {
      CurrentCount(count - 1, current);
      LastStep(count, current, Current);
      var m := CountOf(States(count - 1, current), Current);
      if current == count - 1 {
        assert m == 0 && n == 1;
      } else if 0 <= current < count - 1 {
        assert m == 1 && n == 1;
      } else {
        assert m == 0 && n == 0;
      }
    }
  }

  /** The last step adds one to the count of its own state. */
  lemma LastStep(count: nat, current: int, s: StepState)
    requires count > 0
    ensures CountOf(States(count, current), s)
      == CountOf(States(count - 1, current), s) + (if StateOf(count - 1, current) == s then 1 else 0)
  {
    var prev, x := States(count - 1, current), StateOf(count - 1, current);
    assert States(count, current) == prev + [x];
    CountOfSnoc(prev, x, s);
  }

  /** Appending one state adds one to its own count only. */
  lemma CountOfSnoc(states: seq<StepState>, x: StepState, s: StepState)
    ensures CountOf(states + [x], s) == CountOf(states, s) + (if x == s then 1 else 0)
  {
    assert (states + [x])[..|states|] == states;
  }

  /** Every state is counted under exactly one look. */
  lemma {:induction false} CountsSum(states: seq<StepState>)
    ensures CountOf(states, Completed) + CountOf(states, Current) + CountOf(states, Upcoming) == |states|
  {
    if states != [] {
      CountsSum(states[..|states| - 1]);
    }
  }

  /** The bar fills up strictly as the current step advances, and it is full
      exactly at the last step. */
  lemma ProgressGrows(current: int, count: nat)
    requires 0 <= current < count
    ensures 0.0 < ProgressPercent(current, count) <= 100.0
    ensures ProgressPercent(current, count) == 100.0 <==> current == count - 1
    ensures current + 1 < count ==> ProgressPercent(current, count) < ProgressPercent(current + 1, count)
  {
    var n := count as real;
    var a := (current + 1) as real;
    assert a / n * n == a;
    assert ProgressPercent(current + 1, count) == ProgressPercent(current, count) + 100.0 / n;
    assert 100.0 / n > 0.0;
  }
}
