/** Repeating a step until a goal is met. */
module Iteration {

  ghost function Iterate<T>(step: T -> T, t: T, n: nat): T
    decreases n
  {
    if n == 0 then t else Iterate(step, step(t), n - 1)
  }

  /** A step that lowers a measure until the goal is met reaches it within that many repetitions. */
  lemma {:induction false} ReachesGoal<T(!new)>(
    step: T -> T, goal: T -> bool, inv: T -> bool, measure: T -> nat, t: T) returns (n: nat)
    requires forall x {:trigger step(x)} :: inv(x) && !goal(x) ==> inv(step(x)) && measure(step(x)) < measure(x)
    requires inv(t)
    ensures n <= measure(t) && inv(Iterate(step, t, n)) && goal(Iterate(step, t, n))
    ensures forall i :: 0 <= i < n ==> !goal(Iterate(step, t, i)) && inv(Iterate(step, t, i))
    decreases measure(t)
  {
    n := 0;
    if !goal(t) {
      var m := ReachesGoal(step, goal, inv, measure, step(t));
      n := m + 1;
      forall i | 0 <= i < n ensures !goal(Iterate(step, t, i)) && inv(Iterate(step, t, i)) {
        if i > 0 { assert Iterate(step, t, i) == Iterate(step, step(t), i - 1); }
      }
    }
  }
}
