/**
 Branches of a workflow that share one retry counter (backend/app/runtime/workflow/runtime.py,
 `_execute_multi_frontier`). Branches interleave only where the code awaits, so one step of a branch is
 the code between two awaits; the budget check and the increment lie in one step. A branch may be
 cancelled at any await.
 */
module RetryBudget {
  import opened Wrappers
  import opened RetryEngine

  /**
   Where a branch waits: before an attempt, while the node runs, after recording a failure, or while
   the scheduled retry is recorded and the back-off sleeps.
   */
  datatype Phase = Ready | Running | Failed(code: Code) | BackingOff | Ended

  datatype Branch = Branch(policy: Policy, phase: Phase, attempts: nat, retries: nat)

  datatype Frontier = Frontier(branches: seq<Branch>, counter: nat, maxRetries: nat)

  datatype Step =
    | Begin(branch: nat, expired: bool)
    | Return(branch: nat, failure: Option<Code>)
    | Decide(branch: nat, late: bool)
    | Wake(branch: nat)
    | Cancel(branch: nat)

  function Moved(b: Branch, step: Step, counter: nat, maxRetries: nat): Branch {
    match step
    case Begin(_, expired) =>
      if b.phase != Ready then b else if expired then b.(phase := Ended)
         else b.(phase := Running, attempts := b.attempts + 1)
    case Return(_, failure) =>
      if b.phase != Running then b else if failure.None? then b.(phase := Ended) else b.(phase := Failed(failure.value))
    case Decide(_, late) =>
      if !b.phase.Failed? then b
      else if !MayRetry(b.policy, b.attempts, b.phase.code, counter, maxRetries) || late then b.(phase := Ended)
      else b.(phase := BackingOff, retries := b.retries + 1)
    case Wake(_) => if b.phase != BackingOff then b else b.(phase := Ready)
    case Cancel(_) => b.(phase := Ended)
  }

  function Apply(f: Frontier, step: Step): Frontier {
    if step.branch >= |f.branches| then f
    else
      var b := f.branches[step.branch];
      var b' := Moved(b, step, f.counter, f.maxRetries);
      f.(branches := f.branches[step.branch := b'], counter := f.counter + if b'.retries > b.retries then 1 else 0)
  }

  function Run(f: Frontier, steps: seq<Step>): Frontier
    decreases |steps|
  {
    if steps == [] then f else Run(Apply(f, steps[0]), steps[1..])
  }

  predicate Fresh(f: Frontier) {
    f.counter <= f.maxRetries && forall i | 0 <= i < |f.branches| ::
      ValidPolicy(f.branches[i].policy) && f.branches[i] == Branch(f.branches[i].policy, Ready, 0, 0)
  }

  // ---------------------------------------------------------------- sums over branches

  function Attempts(bs: seq<Branch>): nat {
    if |bs| == 0 then 0 else Attempts(bs[..|bs| - 1]) + bs[|bs| - 1].attempts
  }

  function Retries(bs: seq<Branch>): nat {
    if |bs| == 0 then 0 else Retries(bs[..|bs| - 1]) + bs[|bs| - 1].retries
  }

  /** An upper bound of the steps that a branch can still take. */
  function Fuel(b: Branch): int {
    var left := 4 * (b.policy.maxAttempts - b.attempts);
    match b.phase
    case Ready => left
    case Running => left + 3
    case Failed(_) => left + 2
    case BackingOff => left + 1
    case Ended => 0
  }

  function TotalFuel(bs: seq<Branch>): int {
    if |bs| == 0 then 0 else TotalFuel(bs[..|bs| - 1]) + Fuel(bs[|bs| - 1])
  }

  lemma {:induction false} SumsUpdate(bs: seq<Branch>, i: nat, b: Branch)
    requires i < |bs|
    ensures Attempts(bs[i := b]) == Attempts(bs) - bs[i].attempts + b.attempts
    ensures Retries(bs[i := b]) == Retries(bs) - bs[i].retries + b.retries
    ensures TotalFuel(bs[i := b]) == TotalFuel(bs) - Fuel(bs[i]) + Fuel(b)
    decreases |bs|
  {
    var n := |bs| - 1;
    if i < n {
      assert bs[i := b][..n] == bs[..n][i := b];
      SumsUpdate(bs[..n], i, b);
    } else {
      assert bs[i := b][..n] == bs[..n];
    }
  }

  // ---------------------------------------------------------------- invariant

  /**
   A branch has made one attempt more than its retries while one is under way, and as many while it
   waits for the next.
   */
  predicate BranchInv(b: Branch) {
    b.attempts <= b.policy.maxAttempts &&
    match b.phase
    case Ready => b.attempts == b.retries < b.policy.maxAttempts
    case Running => b.attempts == b.retries + 1
    case Failed(_) => b.attempts == b.retries + 1
    case BackingOff => b.attempts == b.retries < b.policy.maxAttempts
    case Ended => b.retries <= b.attempts <= b.retries + 1
  }

  /** `before` is what the counter was when the branches started. */
  predicate Inv(f: Frontier, before: nat) {
    f.counter <= f.maxRetries && f.counter == before + Retries(f.branches) && forall i | 0 <= i < |f.branches| ::
      BranchInv(f.branches[i])
  }

  lemma StepKeeps(f: Frontier, step: Step, before: nat)
    requires Inv(f, before)
    ensures Inv(Apply(f, step), before)
  {
    if step.branch < |f.branches| {
      SumsUpdate(f.branches, step.branch, Moved(f.branches[step.branch], step, f.counter, f.maxRetries));
    }
  }

  lemma {:induction false} RunKeeps(f: Frontier, steps: seq<Step>, before: nat)
    requires Inv(f, before)
    ensures Inv(Run(f, steps), before) && |Run(f, steps).branches| == |f.branches| &&
            Run(f, steps).maxRetries == f.maxRetries
    decreases |steps|
  {
    if steps != [] {
      StepKeeps(f, steps[0], before);
      RunKeeps(Apply(f, steps[0]), steps[1..], before);
    }
  }

  lemma {:induction false} FreshSums(bs: seq<Branch>)
    requires forall i | 0 <= i < |bs| :: bs[i].phase == Ready && bs[i].attempts == 0 && bs[i].retries == 0
    ensures Attempts(bs) == 0 && Retries(bs) == 0 && TotalFuel(bs) == 4 * AttemptLimit(bs)
    decreases |bs|
  {
    if |bs| > 0 {
      FreshSums(bs[..|bs| - 1]);
    }
  }

  lemma {:induction false} AttemptsBounded(bs: seq<Branch>)
    requires forall i | 0 <= i < |bs| :: BranchInv(bs[i])
    ensures Retries(bs) <= Attempts(bs) <= |bs| + Retries(bs)
    decreases |bs|
  {
    if |bs| > 0 {
      AttemptsBounded(bs[..|bs| - 1]);
    }
  }

  /**
   However the branches interleave, the retries never exceed the shared budget, each node makes at most
   its own number of attempts, and all nodes together at most one attempt each and one for every retry.
   */
  lemma SharedBudget(f: Frontier, steps: seq<Step>)
    requires Fresh(f)
    ensures var f' := Run(f, steps);
            f'.counter <= f.maxRetries && f'.counter == f.counter + Retries(f'.branches) &&
            |f'.branches| == |f.branches| &&
            (forall i | 0 <= i < |f'.branches| :: f'.branches[i].attempts <= f'.branches[i].policy.maxAttempts) &&
            Retries(f'.branches) <= Attempts(f'.branches) <= |f.branches| + (f'.counter - f.counter) <=
            |f.branches| + f.maxRetries
  {
    FreshSums(f.branches);
    RunKeeps(f, steps, f.counter);
    AttemptsBounded(Run(f, steps).branches);
  }

  // ---------------------------------------------------------------- termination

  function AttemptLimit(bs: seq<Branch>): int {
    if |bs| == 0 then 0 else AttemptLimit(bs[..|bs| - 1]) + bs[|bs| - 1].policy.maxAttempts
  }

  /** How many steps of a run change anything. */
  function Effective(f: Frontier, steps: seq<Step>): nat
    decreases |steps|
  {
    if steps == [] then 0 else (if Apply(f, steps[0]) != f then 1 else 0) + Effective(Apply(f, steps[0]), steps[1..])
  }

  lemma StepBurnsFuel(f: Frontier, step: Step, before: nat)
    requires Inv(f, before) && Apply(f, step) != f
    ensures TotalFuel(Apply(f, step).branches) < TotalFuel(f.branches)
  {
    SumsUpdate(f.branches, step.branch, Moved(f.branches[step.branch], step, f.counter, f.maxRetries));
  }

  lemma {:induction false} FuelNonNegative(bs: seq<Branch>)
    requires forall i | 0 <= i < |bs| :: BranchInv(bs[i])
    ensures 0 <= TotalFuel(bs)
    decreases |bs|
  {
    if |bs| > 0 {
      FuelNonNegative(bs[..|bs| - 1]);
    }
  }

  lemma {:induction false} EffectiveWithinFuel(f: Frontier, steps: seq<Step>, before: nat)
    requires Inv(f, before)
    ensures Effective(f, steps) <= TotalFuel(f.branches)
    decreases |steps|
  {
    FuelNonNegative(f.branches);
    if steps != [] {
      StepKeeps(f, steps[0], before);
      if Apply(f, steps[0]) != f {
        StepBurnsFuel(f, steps[0], before);
      }
      EffectiveWithinFuel(Apply(f, steps[0]), steps[1..], before);
    }
  }

  /** Every loop ends: however the branches interleave, at most four steps for each allowed attempt change anything. */
  lemma LoopsEnd(f: Frontier, steps: seq<Step>)
    requires Fresh(f)
    ensures Effective(f, steps) <= 4 * AttemptLimit(f.branches)
  {
    FreshSums(f.branches);
    EffectiveWithinFuel(f, steps, f.counter);
  }

  // ---------------------------------------------------------------- the loop is such a branch

  lemma RunCons(f: Frontier, step: Step, steps: seq<Step>)
    ensures Run(f, [step] + steps) == Run(Apply(f, step), steps)
  {
  }

  function Alone(x: Execution, k: nat, failed: nat, s: State): Frontier
    requires k < |x.workflow.nodes|
  {
    Frontier([Branch(x.workflow.nodes[k].policy, Ready, failed, failed)], s.retries, x.workflow.maxRetries)
  }

  lemma RunFour(f: Frontier, a: Step, b: Step, c: Step, d: Step, rest: seq<Step>)
    ensures Run(f, [a] + ([b] + ([c] + ([d] + rest)))) == Run(Apply(Apply(Apply(Apply(f, a), b), c), d), rest)
  {
    RunCons(f, a, [b] + ([c] + ([d] + rest)));
    RunCons(Apply(f, a), b, [c] + ([d] + rest));
    RunCons(Apply(Apply(f, a), b), c, [d] + rest);
    RunCons(Apply(Apply(Apply(f, a), b), c), d, rest);
  }

  lemma ApplyAlone(b: Branch, step: Step, counter: nat, maxRetries: nat)
    requires step.branch == 0
    ensures var b' := Moved(b, step, counter, maxRetries);
            Apply(Frontier([b], counter, maxRetries), step) ==
              Frontier([b'], counter + if b'.retries > b.retries then 1 else 0, maxRetries)
  {
  }

  /** One attempt of the loop, as steps of the branch. */
  function AttemptThen(code: Code, late: bool, rest: seq<Step>): seq<Step> {
    [Begin(0, false)] + ([Return(0, Some(code))] + ([Decide(0, late)] + ([Wake(0)] + rest)))
  }

  lemma FailedAttempt(p: Policy, attempts: nat, retries: nat, counter: nat, maxRetries: nat, code: Code)
    ensures Apply(Apply(Frontier([Branch(p, Ready, attempts, retries)], counter, maxRetries), Begin(0, false)),
                  Return(0, Some(code))) ==
            Frontier([Branch(p, Failed(code), attempts + 1, retries)], counter, maxRetries)
  {
  }

  lemma AttemptSteps(p: Policy, attempts: nat, retries: nat, counter: nat, maxRetries: nat, code: Code, late: bool,
                     rest: seq<Step>)
    ensures Run(Frontier([Branch(p, Ready, attempts, retries)], counter, maxRetries), AttemptThen(code, late, rest)) ==
            if MayRetry(p, attempts + 1, code, counter, maxRetries) && !late
            then Run(Frontier([Branch(p, Ready, attempts + 1, retries + 1)], counter + 1, maxRetries), rest)
            else Run(Frontier([Branch(p, Ended, attempts + 1, retries)], counter, maxRetries), rest)
  {
    RunFour(Frontier([Branch(p, Ready, attempts, retries)], counter, maxRetries), Begin(0, false),
            Return(0, Some(code)), Decide(0, late), Wake(0), rest);
    FailedAttempt(p, attempts, retries, counter, maxRetries, code);
    ApplyAlone(Branch(p, Failed(code), attempts + 1, retries), Decide(0, late), counter, maxRetries);
    if MayRetry(p, attempts + 1, code, counter, maxRetries) && !late {
      ApplyAlone(Branch(p, BackingOff, attempts + 1, retries + 1), Wake(0), counter + 1, maxRetries);
    } else {
      ApplyAlone(Branch(p, Ended, attempts + 1, retries), Wake(0), counter, maxRetries);
    }
  }

  /** The steps of the branch do what the loop does: the same attempts, the same retries, the same counter. */
  ghost predicate Simulates(x: Execution, k: nat, failed: nat, s: State, s': State, steps: seq<Step>)
    requires k < |x.workflow.nodes|
  {
    var f := Run(Alone(x, k, failed, s), steps);
    f.counter == s'.retries && |f.branches| == 1 && f.branches[0].phase == Ended &&
    f.branches[0].attempts == failed + (|s'.attempts| - |s.attempts|) &&
    f.branches[0].retries == failed + (s'.retries - s.retries)
  }

  lemma ExpiredSteps(x: Execution, k: nat, failed: nat, s: State, s': State)
    requires k < |x.workflow.nodes| && s'.attempts == s.attempts && s'.retries == s.retries
    ensures Simulates(x, k, failed, s, s', [Begin(0, true)] + [])
  {
  }

  lemma OutputSteps(x: Execution, k: nat, failed: nat, s: State, s': State)
    requires k < |x.workflow.nodes| && |s'.attempts| == |s.attempts| + 1 && s'.retries == s.retries
    ensures Simulates(x, k, failed, s, s', [Begin(0, false)] + ([Return(0, None)] + []))
  {
    var f := Alone(x, k, failed, s);
    RunCons(f, Begin(0, false), [Return(0, None)] + []);
    RunCons(Apply(f, Begin(0, false)), Return(0, None), []);
  }

  lemma StopSteps(x: Execution, k: nat, failed: nat, s: State, s': State, code: Code, late: bool)
    requires k < |x.workflow.nodes| && |s'.attempts| == |s.attempts| + 1 && s'.retries == s.retries
    requires late || !MayRetry(x.workflow.nodes[k].policy, failed + 1, code, s.retries, x.workflow.maxRetries)
    ensures Simulates(x, k, failed, s, s', AttemptThen(code, late, []))
  {
    AttemptSteps(x.workflow.nodes[k].policy, failed, failed, s.retries, x.workflow.maxRetries, code, late, []);
  }

  lemma RetrySteps(x: Execution, k: nat, failed: nat, s: State, s1: State, s': State, code: Code, rest: seq<Step>)
    requires k < |x.workflow.nodes| && |s1.attempts| == |s.attempts| + 1 && s1.retries == s.retries + 1
    requires MayRetry(x.workflow.nodes[k].policy, failed + 1, code, s.retries, x.workflow.maxRetries) &&
             Simulates(x, k, failed + 1, s1, s', rest)
    ensures Simulates(x, k, failed, s, s', AttemptThen(code, false, rest))
  {
    AttemptSteps(x.workflow.nodes[k].policy, failed, failed, s.retries, x.workflow.maxRetries, code, false, rest);
  }

  /** What the loop of a node does is a run of one branch. */
  lemma {:induction false} LoopIsABranch(x: Execution, k: nat, input: Data, failed: nat, s: State)
    returns (steps: seq<Step>)
    requires k < |x.workflow.nodes| && failed < x.workflow.nodes[k].policy.maxAttempts
    ensures Simulates(x, k, failed, s, NodeRun(x, k, input, failed, s).0, steps)
    decreases x.workflow.nodes[k].policy.maxAttempts - failed
  {
    if Remaining(x, s.clock) <= 0.0 {
      ExpiredSteps(x, k, failed, s, NodeRun(x, k, input, failed, s).0);
      return [Begin(0, true)] + [];
    }
    var a := AttemptOf(x, k, input, failed, s);
    var index, s1 := |s.attempts|, AfterAttempt(x, s, a);
    if WorkOf(x, index, a).outcome.Output? {
      OutputSteps(x, k, failed, s, s1);
      return [Begin(0, false)] + ([Return(0, None)] + []);
    }
    var code, late := CodeOf(x, index, a), DelayOf(x, index, a) > Remaining(x, s1.clock);
    if late || !MayRetry(x.workflow.nodes[k].policy, failed + 1, code, s.retries, x.workflow.maxRetries) {
      StopSteps(x, k, failed, s, s1, code, late);
      return AttemptThen(code, late, []);
    }
    var s2 := s1.(clock := s1.clock + x.pauses(index).retry + DelayOf(x, index, a), retries := s1.retries + 1);
    var rest := LoopIsABranch(x, k, input, failed + 1, s2);
    RetrySteps(x, k, failed, s, s2, NodeRun(x, k, input, failed, s).0, code, rest);
    return AttemptThen(code, false, rest);
  }
}
