/** The compare-exchange protocol by which concurrent tasks claim renderer slots from one shared
    budget, under every interleaving. The atomic is accessed with relaxed ordering, so a load may
    return an old value, and a weak compare-exchange may fail for no reason. */
module RenderBudget {

  /** Where one task stands: about to load the budget, about to compare-exchange against the value it
      last saw, past the loop with a slot, or past it without. */
  datatype Task = Starting | Holding(cur: nat) | Claimed | GaveUp

  datatype State = State(budget: nat, tasks: seq<Task>)

  /** The top of the loop: a task that saw zero returns. */
  function Looped(seen: nat): Task
  {
    if seen == 0 then GaveUp else Holding(seen)
  }

  datatype Step =
    | Load(i: nat, seen: nat)
    | Exchange(i: nat)
    | Fail(i: nat, seen: nat)

  /** A value that a load can return: one the budget has had, not older than what this task saw before.
      The budget only ever goes down by one, so it has had every value from `initial` to its own. */
  predicate Visible(s: State, newest: nat, seen: nat)
  {
    s.budget <= seen <= newest
  }

  /** The step may be taken from `s`. */
  predicate Enabled(initial: nat, s: State, step: Step)
  {
    && step.i < |s.tasks|
    && match step
       case Load(i, seen) => s.tasks[i].Starting? && Visible(s, initial, seen)
       case Exchange(i) => s.tasks[i].Holding? && s.tasks[i].cur == s.budget
       // Failing against an unequal budget the task sees another value; failing spuriously it may not.
       case Fail(i, seen) =>
         && s.tasks[i].Holding? && Visible(s, s.tasks[i].cur, seen)
         && (s.tasks[i].cur != s.budget ==> seen != s.tasks[i].cur)
  }

  function Apply(initial: nat, s: State, step: Step): State
    requires Enabled(initial, s, step)
  {
    match step
    case Load(i, seen) => s.(tasks := s.tasks[i := Looped(seen)])
    case Exchange(i) =>
      State(if s.budget == 0 then 0 else s.budget - 1, s.tasks[i := Claimed])
    case Fail(i, seen) => s.(tasks := s.tasks[i := Looped(seen)])
  }

  predicate Spurious(s: State, step: Step)
    requires step.i < |s.tasks|
  {
    step.Fail? && s.tasks[step.i].Holding? && s.tasks[step.i].cur == step.seen
  }

  function Start(initial: nat, n: nat): State
  {
    State(initial, seq(n, _ => Starting))
  }

  /** A run: `states[k + 1]` results from `states[k]` by `steps[k]`. */
  ghost predicate Run(initial: nat, n: nat, states: seq<State>, steps: seq<Step>)
  {
    && |states| == |steps| + 1
    && states[0] == Start(initial, n)
    && forall k :: 0 <= k < |steps| ==>
         Enabled(initial, states[k], steps[k]) && states[k + 1] == Apply(initial, states[k], steps[k])
  }

  function Claims(tasks: seq<Task>): nat
  {
    if tasks == [] then 0
    else (if tasks[0].Claimed? then 1 else 0) + Claims(tasks[1..])
  }

  lemma {:induction false} ClaimsOfUpdate(tasks: seq<Task>, i: nat, t: Task)
    requires i < |tasks| && !tasks[i].Claimed?
    ensures Claims(tasks[i := t]) == Claims(tasks) + if t.Claimed? then 1 else 0
  {
    if i == 0 {
      assert tasks[0 := t][1..] == tasks[1..];
    } else {
      ClaimsOfUpdate(tasks[1..], i - 1, t);
      assert tasks[i := t][1..] == tasks[1..][i - 1 := t];
    }
  }

  ghost predicate Inv(initial: nat, n: nat, s: State)
  {
    && |s.tasks| == n
    && s.budget + Claims(s.tasks) == initial
    && forall i :: 0 <= i < n ==>
         && (s.tasks[i].Holding? ==> s.tasks[i].cur > 0 && s.budget <= s.tasks[i].cur <= initial)
         && (s.tasks[i].GaveUp? ==> s.budget == 0)
  }

  lemma StepKeepsInv(initial: nat, n: nat, s: State, step: Step)
    requires Inv(initial, n, s) && Enabled(initial, s, step)
    ensures Inv(initial, n, Apply(initial, s, step))
    ensures Apply(initial, s, step).budget <= s.budget
  {
    var s' := Apply(initial, s, step);
    assert !s.tasks[step.i].Claimed?;
    ClaimsOfUpdate(s.tasks, step.i, s'.tasks[step.i]);
    assert s'.tasks == s.tasks[step.i := s'.tasks[step.i]];
  }

  lemma {:induction false} NoClaimsAtStart(n: nat)
    ensures Claims(seq(n, _ => Starting)) == 0
  {
    if n > 0 {
      assert seq(n, _ => Starting)[1..] == seq(n - 1, _ => Starting);
      NoClaimsAtStart(n - 1);
    }
  }

  /** Remaining budget and claimed slots always add up to the initial budget; the budget never grows;
      and whoever gave up did so on a budget that was, and stays, zero. */
  lemma {:induction false} BudgetIsConserved(initial: nat, n: nat, states: seq<State>, steps: seq<Step>, k: nat)
    requires Run(initial, n, states, steps) && k < |states|
    ensures Inv(initial, n, states[k])
    ensures states[k].budget + Claims(states[k].tasks) == initial
    ensures forall j :: 0 <= j <= k ==> states[k].budget <= states[j].budget
    ensures forall j, i :: 0 <= j <= k && 0 <= i < n && |states[j].tasks| == n && states[j].tasks[i].GaveUp? ==>
              states[j].budget == 0 && states[k].budget == 0
    decreases k
  {
    if k == 0 {
      NoClaimsAtStart(n);
    } else {
      BudgetIsConserved(initial, n, states, steps, k - 1);
      StepKeepsInv(initial, n, states[k - 1], steps[k - 1]);
    }
  }

  predicate Finished(s: State)
  {
    forall i :: 0 <= i < |s.tasks| ==> s.tasks[i].Claimed? || s.tasks[i].GaveUp?
  }

  lemma {:induction false} ClaimsBounds(tasks: seq<Task>)
    ensures Claims(tasks) <= |tasks|
    ensures (forall i :: 0 <= i < |tasks| ==> tasks[i].Claimed?) <==> Claims(tasks) == |tasks|
  {
    if tasks != [] {
      ClaimsBounds(tasks[1..]);
      assert forall i :: 0 < i < |tasks| ==> tasks[i] == tasks[1..][i - 1];
      assert forall i :: 0 <= i < |tasks[1..]| ==> tasks[1..][i] == tasks[i + 1];
    }
  }

  /** Once every task is done, exactly the smaller of tasks and budget have rendered. */
  lemma FinishedRunsRenderMin(initial: nat, n: nat, states: seq<State>, steps: seq<Step>, k: nat)
    requires Run(initial, n, states, steps) && k < |states| && Finished(states[k])
    ensures Claims(states[k].tasks) == if n <= initial then n else initial
  {
    BudgetIsConserved(initial, n, states, steps, k);
    ClaimsBounds(states[k].tasks);
  }

  // ----- progress -----

  /** An upper bound on the steps one task still needs, spurious failures aside. */
  function Rank(initial: nat, t: Task): nat
  {
    match t
    case Starting => initial + 1
    case Holding(cur) => cur
    case Claimed => 0
    case GaveUp => 0
  }

  function TotalRank(initial: nat, tasks: seq<Task>): nat
  {
    if tasks == [] then 0 else Rank(initial, tasks[0]) + TotalRank(initial, tasks[1..])
  }

  lemma {:induction false} TotalRankOfUpdate(initial: nat, tasks: seq<Task>, i: nat, t: Task)
    requires i < |tasks|
    ensures TotalRank(initial, tasks[i := t]) == TotalRank(initial, tasks) - Rank(initial, tasks[i]) + Rank(initial, t)
  {
    if i == 0 {
      assert tasks[0 := t][1..] == tasks[1..];
    } else {
      TotalRankOfUpdate(initial, tasks[1..], i - 1, t);
      assert tasks[i := t][1..] == tasks[1..][i - 1 := t];
    }
  }

  lemma StepLowersRank(initial: nat, n: nat, s: State, step: Step)
    requires Inv(initial, n, s) && Enabled(initial, s, step)
    ensures var before, after := TotalRank(initial, s.tasks), TotalRank(initial, Apply(initial, s, step).tasks);
      if Spurious(s, step) then after == before else after < before
  {
    var s' := Apply(initial, s, step);
    TotalRankOfUpdate(initial, s.tasks, step.i, s'.tasks[step.i]);
    assert s'.tasks == s.tasks[step.i := s'.tasks[step.i]];
  }

  lemma {:induction false} RankAtStart(initial: nat, n: nat)
    ensures TotalRank(initial, seq(n, _ => Starting)) == n * (initial + 1)
  {
    if n > 0 {
      assert seq(n, _ => Starting)[1..] == seq(n - 1, _ => Starting);
      RankAtStart(initial, n - 1);
    }
  }

  /** How many of the first `k` steps were not spurious failures. */
  ghost function RealSteps(states: seq<State>, steps: seq<Step>, k: nat): nat
    requires |states| == |steps| + 1 && k <= |steps|
    requires forall j :: 0 <= j < |steps| ==> steps[j].i < |states[j].tasks|
  {
    if k == 0 then 0
    else RealSteps(states, steps, k - 1) + if Spurious(states[k - 1], steps[k - 1]) then 0 else 1
  }

  /** No run does more than `n * (initial + 1)` real steps: only spurious failures can keep tasks busy. */
  lemma {:induction false} RealStepsAreBounded(initial: nat, n: nat, states: seq<State>, steps: seq<Step>, k: nat)
    requires Run(initial, n, states, steps) && k <= |steps|
    ensures RealSteps(states, steps, k) + TotalRank(initial, states[k].tasks) <= n * (initial + 1)
    decreases k
  {
    if k == 0 {
      RankAtStart(initial, n);
    } else {
      RealStepsAreBounded(initial, n, states, steps, k - 1);
      BudgetIsConserved(initial, n, states, steps, k - 1);
      StepLowersRank(initial, n, states[k - 1], steps[k - 1]);
    }
  }

  /** And a run that is not finished can go on with a real step. */
  lemma NeverStuck(initial: nat, n: nat, s: State) returns (step: Step)
    requires Inv(initial, n, s) && !Finished(s)
    ensures Enabled(initial, s, step) && !Spurious(s, step)
  {
    var i :| 0 <= i < n && !s.tasks[i].Claimed? && !s.tasks[i].GaveUp?;
    if s.tasks[i].Starting? {
      step := Load(i, s.budget);
    } else if s.tasks[i].cur == s.budget {
      step := Exchange(i);
    } else {
      step := Fail(i, s.budget);
    }
  }
}
