/**
 One circuit shared by any number of runtime calls. A call is admitted, and its success or failure is
 recorded later, in any order and in whatever state the circuit is then; a call that ends with an
 error the circuit does not count simply stays in flight. Every service call is one atomic step, as its
 row lock makes it. It reads the clock before it waits for the lock, so its reading may lie in the past.
 */
module CircuitProtocol {
  import opened Wrappers
  import opened CircuitBreaker

  /** What a call in flight carries, and for a probe the number of the window it was reserved in, from one. */
  datatype Ticket = Ticket(token: Option<Token>, window: nat)

  /**
   `calls` are the calls in flight, and `windows` the opening times of all half-open windows so far.
   In the current window, `strays` counts the successes without a token, and `reused` the older probes
   that were in flight at its opening with a token of the very same time.
   */
  datatype World = World(
    key: Key,
    clock: int,
    circuit: Option<Circuit>,
    calls: map<nat, Ticket>,
    windows: seq<int>,
    strays: nat,
    reused: nat)

  datatype Step =
    | Tick(to: int)
    | Admit(call: nat, policy: Policy, readAt: int)
    | Succeed(call: nat, policy: Policy)
    | Fail(call: nat, policy: Policy, readAt: int)

  function Start(key: Key, clock: int): World {
    World(key, clock, None, map[], [], 0, 0)
  }

  predicate Counted(w: World, policy: Policy) {
    ValidPolicy(policy) && policy.enabled && (w.circuit.Some? ==> PolicyMatches(w.circuit.value, policy))
  }

  predicate CanAdmit(w: World, call: nat, policy: Policy, readAt: int) {
    Counted(w, policy) && call !in w.calls && readAt <= w.clock && (w.circuit.Some? ==> Admits(w.circuit.value, readAt))
  }

  predicate CanComplete(w: World, call: nat, policy: Policy) {
    Counted(w, policy) && call in w.calls && w.circuit.Some?
  }

  /** What a step does; a refused call or completion changes nothing. */
  function Apply(w: World, step: Step): World {
    match step
    case Tick(to) => if to >= w.clock then w.(clock := to) else w
    case Admit(call, policy, readAt) =>
      if CanAdmit(w, call, policy, readAt) then AfterAdmit(w, call, policy, readAt) else w
    case Succeed(call, policy) => if CanComplete(w, call, policy) then AfterSuccess(w, call) else w
    case Fail(call, policy, readAt) =>
      if CanComplete(w, call, policy) && readAt <= w.clock then AfterFailure(w, call, readAt) else w
  }

  function AfterAdmit(w: World, call: nat, policy: Policy, readAt: int): World
    requires CanAdmit(w, call, policy, readAt)
  {
    match w.circuit
    case None => w.(circuit := Some(NewCircuit(policy)), calls := w.calls[call := Ticket(None, 0)])
    case Some(c) =>
      var token := Reservation(c, w.key, readAt);
      if c.state == Open
      then
        w.(circuit := Some(Admitted(c, readAt)), calls := w.calls[call := Ticket(token, |w.windows| + 1)],
           windows := w.windows + [readAt], strays := 0, reused := |Holding(w, Some(readAt))|)
      else w.(circuit := Some(Admitted(c, readAt)), calls := w.calls[call := Ticket(token, |w.windows|)])
  }

  function AfterSuccess(w: World, call: nat): World
    requires call in w.calls && w.circuit.Some?
  {
    var c, probe := w.circuit.value, w.calls[call].token;
    w.(circuit := Some(Succeeded(c, w.key, probe)),
       calls := w.calls - {call},
       strays := if c.state == HalfOpen && probe.None? then w.strays + 1 else w.strays)
  }

  function AfterFailure(w: World, call: nat, readAt: int): World
    requires call in w.calls && w.circuit.Some?
  {
    w.(circuit := Some(Failed(w.circuit.value, w.key, w.calls[call].token, readAt)), calls := w.calls - {call})
  }

  function Run(w: World, steps: seq<Step>): World
    decreases |steps|
  {
    if steps == [] then w else Run(Apply(w, steps[0]), steps[1..])
  }

  // ---------------------------------------------------------------- invariant

  /** The policy that a circuit was inserted with. */
  function PolicyOf(c: Circuit): Policy {
    Policy(true, c.failureThreshold, c.recoveryTimeoutMs, c.halfOpenMaxCalls)
  }

  predicate CircuitInv(c: Circuit) {
    ValidPolicy(PolicyOf(c)) &&
    match c.state
    case Closed => 0 <= c.failureCount < c.failureThreshold && c.successCount == 0 && c.openedAt.None? &&
      c.halfOpenedAt.None?
    case Open =>
      c.failureCount == c.failureThreshold && c.successCount == 0 && c.openedAt.Some? &&
      c.openedAt == c.lastFailureAt && c.halfOpenedAt.None?
    case HalfOpen => 1 <= c.successCount <= c.halfOpenMaxCalls && c.halfOpenedAt.Some?
  }

  function LastWindow(w: World): int
    requires w.windows != []
  {
    w.windows[|w.windows| - 1]
  }

  /** No recorded time lies in the future, and the current window is the last one. */
  predicate WindowInv(w: World) {
    (w.windows != [] ==> LastWindow(w) <= w.clock) &&
    (w.circuit.Some? && w.circuit.value.state == HalfOpen ==>
     w.windows != [] && w.circuit.value.halfOpenedAt == Some(LastWindow(w)))
  }

  /** A token carries the time of the window it was reserved in. */
  predicate TokenInv(w: World) {
    (forall call | call in w.calls && w.calls[call].token.Some? ::
       1 <= w.calls[call].window <= |w.windows| &&
       w.calls[call].token == Some(Token(w.key, Some(w.windows[w.calls[call].window - 1])))) &&
    (w.circuit.None? ==> w.calls == map[] && w.windows == [])
  }

  /** The calls in flight that hold a token of this time. */
  function Holding(w: World, window: Option<int>): set<nat> {
    set call | call in w.calls && w.calls[call].token == Some(Token(w.key, window))
  }

  /** The holders in flight are the counted probes, those a stray success released too early, and the reused tokens. */
  predicate ProbesAddUp(w: World) {
    w.circuit.Some? && w.circuit.value.state == HalfOpen ==>
      |Holding(w, w.circuit.value.halfOpenedAt)| == w.circuit.value.successCount + w.strays + w.reused
  }

  predicate Inv(w: World) {
    (w.circuit.Some? ==> CircuitInv(w.circuit.value)) && WindowInv(w) && TokenInv(w) && ProbesAddUp(w)
  }

  // ---------------------------------------------------------------- every step keeps it

  lemma HoldingAdd(w: World, w': World, call: nat, ticket: Ticket, window: Option<int>)
    requires call !in w.calls && w'.key == w.key && w'.calls == w.calls[call := ticket]
    ensures |Holding(w', window)| == |Holding(w, window)| + if ticket.token == Some(Token(w.key, window)) then 1 else 0
  {
    if ticket.token == Some(Token(w.key, window)) {
      assert Holding(w', window) == Holding(w, window) + {call};
    } else {
      assert Holding(w', window) == Holding(w, window);
    }
  }

  lemma HoldingRemove(w: World, w': World, call: nat, window: Option<int>)
    requires call in w.calls && w'.key == w.key && w'.calls == w.calls - {call}
    ensures |Holding(w, window)| == |Holding(w', window)| + if w.calls[call].token == Some(Token(w.key, window)) then 1
            else 0
  {
    assert w.calls == w'.calls[call := w.calls[call]];
    HoldingAdd(w', w, call, w.calls[call], window);
  }

  lemma AdmitKeeps(w: World, call: nat, policy: Policy, readAt: int)
    requires Inv(w) && CanAdmit(w, call, policy, readAt)
    ensures Inv(AfterAdmit(w, call, policy, readAt))
  {
    var w' := AfterAdmit(w, call, policy, readAt);
    if w.circuit.Some? {
      HoldingAdd(w, w', call, w'.calls[call], w'.circuit.value.halfOpenedAt);
    }
  }

  lemma SuccessKeeps(w: World, call: nat)
    requires Inv(w) && call in w.calls && w.circuit.Some?
    ensures Inv(AfterSuccess(w, call))
  {
    HoldingRemove(w, AfterSuccess(w, call), call, w.circuit.value.halfOpenedAt);
  }

  lemma FailureKeeps(w: World, call: nat, readAt: int)
    requires Inv(w) && call in w.calls && w.circuit.Some?
    ensures Inv(AfterFailure(w, call, readAt))
  {
    HoldingRemove(w, AfterFailure(w, call, readAt), call, w.circuit.value.halfOpenedAt);
  }

  lemma StepKeeps(w: World, step: Step)
    requires Inv(w)
    ensures Inv(Apply(w, step))
  {
    match step
    case Tick(_) =>
    case Admit(call, policy, readAt) => if CanAdmit(w, call, policy, readAt) { AdmitKeeps(w, call, policy, readAt); }
    case Succeed(call, policy) => if CanComplete(w, call, policy) { SuccessKeeps(w, call); }
    case Fail(call, policy, readAt) => if CanComplete(w, call, policy) { FailureKeeps(w, call, readAt); }
  }

  lemma {:induction false} RunKeeps(w: World, steps: seq<Step>)
    requires Inv(w)
    ensures Inv(Run(w, steps))
    decreases |steps|
  {
    if steps != [] {
      StepKeeps(w, steps[0]);
      RunKeeps(Apply(w, steps[0]), steps[1..]);
    }
  }

  // ---------------------------------------------------------------- what holds in every run

  /** In every state of every run the circuit is in one of three sound shapes. */
  lemma CircuitShape(key: Key, clock: int, steps: seq<Step>)
    ensures var w := Run(Start(key, clock), steps); w.circuit.Some? ==> CircuitInv(w.circuit.value)
  {
    RunKeeps(Start(key, clock), steps);
  }

  /**
   Whatever readings and tokens a run has, the holders of the current token are the counted probes, one
   for each success without a token, and the reused tokens.
   */
  lemma HolderAccounting(key: Key, clock: int, steps: seq<Step>)
    requires var w := Run(Start(key, clock), steps); w.circuit.Some? && w.circuit.value.state == HalfOpen
    ensures var w := Run(Start(key, clock), steps); var c := w.circuit.value;
            |Holding(w, c.halfOpenedAt)| == c.successCount + w.strays + w.reused &&
            1 <= c.successCount <= c.halfOpenMaxCalls
  {
    RunKeeps(Start(key, clock), steps);
  }

  // ---------------------------------------------------------------- the order of windows

  predicate Increasing(windows: seq<int>) {
    forall i, j | 0 <= i < j < |windows| :: windows[i] < windows[j]
  }

  lemma IncreasingSnoc(windows: seq<int>, at: int)
    ensures Increasing(windows + [at]) <==> Increasing(windows) && (windows != [] ==> windows[|windows| - 1] < at)
  {
    var all := windows + [at];
    if Increasing(all) {
      assert forall i | 0 <= i < |windows| :: all[i] == windows[i];
      assert windows != [] ==> all[|windows| - 1] < all[|windows|];
    }
  }

  /** The step opens a half-open window. */
  predicate Opens(w: World, step: Step) {
    step.Admit? && CanAdmit(w, step.call, step.policy, step.readAt) && w.circuit.Some? && w.circuit.value.state == Open
  }

  function Recovery(c: Circuit): int {
    c.recoveryTimeoutMs * MILLISECOND
  }

  /**
   A failure that opens the circuit, or keeps it open, although its clock reading lies a full recovery
   timeout or more before the last window.
   */
  predicate LateFailure(w: World, step: Step) {
    step.Fail? && CanComplete(w, step.call, step.policy) && step.readAt <= w.clock && w.windows != [] &&
    AfterFailure(w, step.call, step.readAt).circuit.value.state == Open &&
    step.readAt + Recovery(w.circuit.value) <= LastWindow(w)
  }

  predicate NoLateFailure(w: World, steps: seq<Step>)
    decreases |steps|
  {
    steps == [] || (!LateFailure(w, steps[0]) && NoLateFailure(Apply(w, steps[0]), steps[1..]))
  }

  /** The recovery timeout of an open circuit ends after its last window. */
  predicate Fresh(w: World) {
    w.circuit.Some? && w.circuit.value.state == Open && w.windows != [] ==>
      w.circuit.value.openedAt.Some? && LastWindow(w) < w.circuit.value.openedAt.value + Recovery(w.circuit.value)
  }

  /** Whatever reading is taken next, the next window comes after the ones so far. */
  ghost predicate InOrder(w: World) {
    forall step :: Increasing(Apply(w, step).windows)
  }

  ghost predicate AlwaysInOrder(w: World, steps: seq<Step>)
    decreases |steps|
  {
    InOrder(w) && (steps == [] || AlwaysInOrder(Apply(w, steps[0]), steps[1..]))
  }

  lemma StepKeepsFresh(w: World, step: Step)
    requires Inv(w) && Fresh(w)
    ensures Fresh(Apply(w, step)) <==> !LateFailure(w, step)
  {
  }

  lemma StepKeepsOrder(w: World, step: Step)
    requires Inv(w) && Fresh(w) && Increasing(w.windows)
    ensures Increasing(Apply(w, step).windows)
  {
    if Opens(w, step) {
      IncreasingSnoc(w.windows, step.readAt);
    }
  }

  lemma {:induction false} UnusedCall(calls: set<nat>) returns (call: nat)
    ensures forall other | other in calls :: other < call
    decreases |calls|
  {
    call := 0;
    if calls != {} {
      var other :| other in calls;
      var bound := UnusedCall(calls - {other});
      call := if other < bound then bound else other + 1;
      assert forall call' | call' in calls :: call' == other || call' in calls - {other};
    }
  }

  /** An open circuit that is not fresh can be reopened at the time of its last window. */
  lemma StaleOrderBreaks(w: World) returns (step: Step)
    requires Inv(w) && !Fresh(w)
    ensures !Increasing(Apply(w, step).windows)
  {
    var c := w.circuit.value;
    var call := UnusedCall(w.calls.Keys);
    step := Admit(call, PolicyOf(c), LastWindow(w));
    IncreasingSnoc(w.windows, LastWindow(w));
  }

  lemma FreshIsInOrder(w: World)
    requires Inv(w) && Increasing(w.windows)
    ensures InOrder(w) <==> Fresh(w)
  {
    if Fresh(w) {
      forall step ensures Increasing(Apply(w, step).windows) {
        StepKeepsOrder(w, step);
      }
    } else {
      var step := StaleOrderBreaks(w);
    }
  }

  lemma {:induction false} OrderAlongRun(w: World, steps: seq<Step>)
    requires Inv(w) && Increasing(w.windows) && Fresh(w)
    ensures AlwaysInOrder(w, steps) <==> NoLateFailure(w, steps)
    ensures NoLateFailure(w, steps) ==> Increasing(Run(w, steps).windows) && Fresh(Run(w, steps))
    decreases |steps|
  {
    FreshIsInOrder(w);
    if steps != [] {
      var w' := Apply(w, steps[0]);
      StepKeeps(w, steps[0]);
      StepKeepsFresh(w, steps[0]);
      StepKeepsOrder(w, steps[0]);
      if LateFailure(w, steps[0]) {
        FreshIsInOrder(w');
      } else {
        OrderAlongRun(w', steps[1..]);
      }
    }
  }

  /**
   The half-open windows of a run are in order, in every state and whatever reading comes next, if and
   only if no failure was counted on a reading taken a full recovery timeout or more before the last
   window. Then they open at strictly increasing times.
   */
  lemma WindowsIncrease(key: Key, clock: int, steps: seq<Step>)
    ensures AlwaysInOrder(Start(key, clock), steps) <==> NoLateFailure(Start(key, clock), steps)
    ensures NoLateFailure(Start(key, clock), steps) ==> Increasing(Run(Start(key, clock), steps).windows)
  {
    OrderAlongRun(Start(key, clock), steps);
  }

  /** No failure waits for its lock as long as the recovery timeout. */
  predicate Prompt(w: World, steps: seq<Step>)
    decreases |steps|
  {
    steps == [] ||
    ((steps[0].Fail? && w.circuit.Some? ==> w.clock < steps[0].readAt + Recovery(w.circuit.value)) &&
     Prompt(Apply(w, steps[0]), steps[1..]))
  }

  /** So failures that are recorded promptly, like those that read the clock under the lock, are never late. */
  lemma {:induction false} PromptFailuresAreNotLate(w: World, steps: seq<Step>)
    requires Inv(w) && Prompt(w, steps)
    ensures NoLateFailure(w, steps)
    decreases |steps|
  {
    if steps != [] {
      StepKeeps(w, steps[0]);
      PromptFailuresAreNotLate(Apply(w, steps[0]), steps[1..]);
    }
  }

  /** The clock is read under the lock. */
  predicate ReadsUnderLock(w: World, steps: seq<Step>)
    decreases |steps|
  {
    steps == [] || ((steps[0].Fail? ==> steps[0].readAt == w.clock) && ReadsUnderLock(Apply(w, steps[0]), steps[1..]))
  }

  /** A recovery timeout is positive, so a reading under the lock is prompt. */
  lemma {:induction false} ReadingUnderLockIsPrompt(w: World, steps: seq<Step>)
    requires Inv(w) && ReadsUnderLock(w, steps)
    ensures Prompt(w, steps)
    decreases |steps|
  {
    if steps != [] {
      StepKeeps(w, steps[0]);
      ReadingUnderLockIsPrompt(Apply(w, steps[0]), steps[1..]);
    }
  }

  /**
   When a reading can break the order: it reopens an open circuit at or before its last window if and
   only if the failure that opened it was read at least a full recovery timeout before that window.
   */
  lemma LateFailureBreaksOrder(key: Key, clock: int, steps: seq<Step>, call: nat, policy: Policy)
    requires var w := Run(Start(key, clock), steps);
             w.circuit.Some? && w.circuit.value.state == Open && Counted(w, policy) && call !in w.calls &&
             w.windows != []
    ensures var w := Run(Start(key, clock), steps); var c := w.circuit.value;
            c.lastFailureAt.Some? &&
            (c.lastFailureAt.value + c.recoveryTimeoutMs * MILLISECOND <= LastWindow(w) <==>
               exists readAt :: CanAdmit(w, call, policy, readAt) && readAt <= LastWindow(w))
  {
    RunKeeps(Start(key, clock), steps);
    var w := Run(Start(key, clock), steps);
    if w.circuit.value.lastFailureAt.value + w.circuit.value.recoveryTimeoutMs * MILLISECOND <= LastWindow(w) {
      assert CanAdmit(w, call, policy, LastWindow(w));
    }
  }

  // ---------------------------------------------------------------- probes

  /** The probes in flight that were reserved in the last window. */
  function Probes(w: World): set<nat> {
    set call | call in w.calls && w.calls[call].token.Some? && w.calls[call].window == |w.windows|
  }

  /** Without a reused time, exactly they hold the token of that window. */
  lemma ProbesAreHolders(w: World)
    requires TokenInv(w) && Increasing(w.windows) && w.windows != []
    ensures Holding(w, Some(LastWindow(w))) == Probes(w)
  {
  }

  /** Without late failures the token of a new window is held only by the call that opens it. */
  lemma NewWindowIsUnheld(key: Key, clock: int, steps: seq<Step>, step: Step)
    requires NoLateFailure(Start(key, clock), steps) && Opens(Run(Start(key, clock), steps), step)
    ensures var w' := Apply(Run(Start(key, clock), steps), step);
            w'.circuit.value.state == HalfOpen && Holding(w', Some(step.readAt)) == {step.call} && w'.reused == 0
  {
    var w := Run(Start(key, clock), steps);
    RunKeeps(Start(key, clock), steps);
    OrderAlongRun(Start(key, clock), steps);
    OpeningIsUnheld(w, step);
  }

  lemma OpeningIsUnheld(w: World, step: Step)
    requires Inv(w) && Increasing(w.windows) && Fresh(w) && Opens(w, step)
    ensures var w' := Apply(w, step);
            w'.circuit.value.state == HalfOpen && Holding(w', Some(step.readAt)) == {step.call} && w'.reused == 0
  {
    forall i | 0 <= i < |w.windows| ensures w.windows[i] < step.readAt {
    }
    assert Holding(w, Some(step.readAt)) == {};
  }

  /** A success that carries no token releases a probe of the half-open window. */
  predicate Tokenless(w: World, step: Step) {
    step.Succeed? && CanComplete(w, step.call, step.policy) && w.circuit.value.state == HalfOpen &&
    w.calls[step.call].token.None?
  }

  predicate NoTokenless(w: World, steps: seq<Step>)
    decreases |steps|
  {
    steps == [] || (!Tokenless(w, steps[0]) && NoTokenless(Apply(w, steps[0]), steps[1..]))
  }

  /**
   Conservation of probes: while half-open the count is that of the window's probes in flight, and the
   circuit is closed only when every probe of its last window has completed.
   */
  predicate Conserved(w: World) {
    w.circuit.Some? ==>
      match w.circuit.value.state
      case HalfOpen => w.circuit.value.successCount == |Probes(w)|
      case Closed => Probes(w) == {}
      case Open => true
  }

  predicate AlwaysConserved(w: World, steps: seq<Step>)
    decreases |steps|
  {
    Conserved(w) && (steps == [] || AlwaysConserved(Apply(w, steps[0]), steps[1..]))
  }

  lemma ProbesAdd(w: World, w': World, call: nat, ticket: Ticket)
    requires call !in w.calls && w'.calls == w.calls[call := ticket] && w'.windows == w.windows
    ensures Probes(w') == Probes(w) + if ticket.token.Some? && ticket.window == |w.windows| then {call} else {}
  {
  }

  lemma ProbesRemove(w: World, w': World, call: nat)
    requires call in w.calls && w'.calls == w.calls - {call} && w'.windows == w.windows
    ensures Probes(w') == Probes(w) - {call}
  {
  }

  lemma AdmitConserves(w: World, call: nat, policy: Policy, readAt: int)
    requires Inv(w) && Conserved(w) && CanAdmit(w, call, policy, readAt)
    ensures Conserved(AfterAdmit(w, call, policy, readAt))
  {
    var w' := AfterAdmit(w, call, policy, readAt);
    if w.circuit.Some? {
      if w.circuit.value.state == Open {
        assert Probes(w') == {call};
      } else {
        ProbesAdd(w, w', call, w'.calls[call]);
      }
    }
  }

  lemma SuccessConserves(w: World, call: nat)
    requires Inv(w) && Increasing(w.windows) && Conserved(w) && call in w.calls && w.circuit.Some?
    ensures Conserved(AfterSuccess(w, call)) <==>
            !(w.circuit.value.state == HalfOpen && w.calls[call].token.None?)
  {
    ProbesRemove(w, AfterSuccess(w, call), call);
    if w.circuit.value.state == HalfOpen {
      ProbesAreHolders(w);
      assert call in Holding(w, Some(LastWindow(w))) <==> call in Probes(w);
    }
  }

  lemma FailureConserves(w: World, call: nat, readAt: int)
    requires Inv(w) && Increasing(w.windows) && Conserved(w) && call in w.calls && w.circuit.Some?
    ensures Conserved(AfterFailure(w, call, readAt))
  {
    ProbesRemove(w, AfterFailure(w, call, readAt), call);
    if w.circuit.value.state == HalfOpen {
      ProbesAreHolders(w);
      assert call in Holding(w, Some(LastWindow(w))) <==> call in Probes(w);
    }
  }

  lemma StepConserves(w: World, step: Step)
    requires Inv(w) && Increasing(w.windows) && Conserved(w)
    ensures Conserved(Apply(w, step)) <==> !Tokenless(w, step)
  {
    match step
    case Tick(_) =>
    case Admit(call, policy, readAt) =>
      if CanAdmit(w, call, policy, readAt) { AdmitConserves(w, call, policy, readAt); }
    case Succeed(call, policy) => if CanComplete(w, call, policy) { SuccessConserves(w, call); }
    case Fail(call, policy, readAt) => if CanComplete(w, call, policy) { FailureConserves(w, call, readAt); }
  }

  lemma {:induction false} ConservedAlongRun(w: World, steps: seq<Step>)
    requires Inv(w) && Increasing(w.windows) && Fresh(w) && Conserved(w) && NoLateFailure(w, steps)
    ensures AlwaysConserved(w, steps) <==> NoTokenless(w, steps)
    ensures NoTokenless(w, steps) ==> Conserved(Run(w, steps))
    decreases |steps|
  {
    if steps != [] {
      var w' := Apply(w, steps[0]);
      StepKeeps(w, steps[0]);
      StepKeepsFresh(w, steps[0]);
      StepKeepsOrder(w, steps[0]);
      StepConserves(w, steps[0]);
      if !Tokenless(w, steps[0]) {
        ConservedAlongRun(w', steps[1..]);
      }
    }
  }

  /**
   Over any run without late failures the probes are conserved in every state if and only if no success
   without a token arrives while the circuit is half-open.
   */
  lemma ProbeConservation(key: Key, clock: int, steps: seq<Step>)
    requires NoLateFailure(Start(key, clock), steps)
    ensures AlwaysConserved(Start(key, clock), steps) <==> NoTokenless(Start(key, clock), steps)
    ensures NoTokenless(Start(key, clock), steps) ==> Conserved(Run(Start(key, clock), steps))
  {
    ConservedAlongRun(Start(key, clock), steps);
  }

  lemma StepKeepsReused(w: World, step: Step)
    requires Inv(w) && Increasing(w.windows) && Fresh(w) && w.reused == 0
    ensures Apply(w, step).reused == 0
  {
    if Opens(w, step) {
      OpeningIsUnheld(w, step);
    }
  }

  lemma {:induction false} NothingReused(w: World, steps: seq<Step>)
    requires Inv(w) && Increasing(w.windows) && Fresh(w) && w.reused == 0 && NoLateFailure(w, steps)
    ensures Run(w, steps).reused == 0
    decreases |steps|
  {
    if steps != [] {
      StepKeeps(w, steps[0]);
      StepKeepsFresh(w, steps[0]);
      StepKeepsOrder(w, steps[0]);
      StepKeepsReused(w, steps[0]);
      NothingReused(Apply(w, steps[0]), steps[1..]);
    }
  }

  /**
   Without late failures the probes of a half-open window still in flight are the counted ones and one
   for each success without a token in this very window. So the count is exact if and only if there was none.
   */
  lemma ProbeAccounting(key: Key, clock: int, steps: seq<Step>)
    requires NoLateFailure(Start(key, clock), steps)
    requires var w := Run(Start(key, clock), steps); w.circuit.Some? && w.circuit.value.state == HalfOpen
    ensures var w := Run(Start(key, clock), steps); var c := w.circuit.value;
            |Probes(w)| == c.successCount + w.strays && (c.successCount == |Probes(w)| <==> w.strays == 0)
  {
    var w := Run(Start(key, clock), steps);
    HolderAccounting(key, clock, steps);
    RunKeeps(Start(key, clock), steps);
    OrderAlongRun(Start(key, clock), steps);
    NothingReused(Start(key, clock), steps);
    ProbesAreHolders(w);
  }

  lemma ClosingLeavesStrays(w: World, call: nat, policy: Policy)
    requires Inv(w) && Increasing(w.windows) && w.circuit.Some? && w.circuit.value.state == HalfOpen
    requires |Probes(w)| == w.circuit.value.successCount + w.strays
    requires Apply(w, Succeed(call, policy)).circuit.value.state == Closed
    ensures var w' := Apply(w, Succeed(call, policy)); |Probes(w')| == w'.strays
  {
    ProbesRemove(w, AfterSuccess(w, call), call);
    ProbesAreHolders(w);
    assert call in Holding(w, Some(LastWindow(w))) <==> call in Probes(w);
  }

  /**
   Without late failures, when a success closes the circuit, as many probes of its window are still out
   as successes without a token arrived in it: none, if and only if there was no such success.
   */
  lemma ClosedAfterAllProbes(key: Key, clock: int, steps: seq<Step>, call: nat, policy: Policy)
    requires NoLateFailure(Start(key, clock), steps)
    requires var w := Run(Start(key, clock), steps);
             w.circuit.Some? && w.circuit.value.state == HalfOpen &&
             Apply(w, Succeed(call, policy)).circuit.value.state == Closed
    ensures var w' := Apply(Run(Start(key, clock), steps), Succeed(call, policy));
            |Probes(w')| == w'.strays && (Probes(w') == {} <==> w'.strays == 0)
  {
    var w := Run(Start(key, clock), steps);
    RunKeeps(Start(key, clock), steps);
    OrderAlongRun(Start(key, clock), steps);
    ProbeAccounting(key, clock, steps);
    ClosingLeavesStrays(w, call, policy);
  }

  // ---------------------------------------------------------------- stale probes

  /** The call is a probe, and the half-open window it was reserved in is over. */
  predicate Stale(w: World, call: nat) {
    call in w.calls && w.calls[call].token.Some? && w.circuit.Some? &&
    !(w.circuit.value.state == HalfOpen && w.calls[call].window == |w.windows|)
  }

  /**
   Without late failures a stale success never changes the circuit. A stale failure leaves a half-open
   circuit alone; in the closed and open states it counts, and is lost only if the same instant was
   already recorded as the failure that opened the circuit.
   */
  lemma StaleProbes(key: Key, clock: int, steps: seq<Step>, call: nat, policy: Policy, readAt: int)
    requires NoLateFailure(Start(key, clock), steps)
    requires var w := Run(Start(key, clock), steps); Stale(w, call) && CanComplete(w, call, policy) && readAt <= w.clock
    ensures var w := Run(Start(key, clock), steps); var c := w.circuit.value;
            Apply(w, Succeed(call, policy)).circuit == Some(c) &&
            (Apply(w, Fail(call, policy, readAt)).circuit == Some(c) <==>
               c.state == HalfOpen || (c.state == Open && c.lastFailureAt == Some(readAt)))
  {
    var w := Run(Start(key, clock), steps);
    RunKeeps(Start(key, clock), steps);
    OrderAlongRun(Start(key, clock), steps);
    if w.windows != [] {
      ProbesAreHolders(w);
      assert call in Holding(w, Some(LastWindow(w))) <==> call in Probes(w);
    }
  }

  // ---------------------------------------------------------------- transitions

  /**
   An open circuit admits a call exactly when the reading of the call lies a full recovery timeout
   after the reading of the failure it counted last. A completion never moves it: a success changes
   nothing, a failure restarts the timeout from its own reading.
   */
  lemma OpenUntilRecovered(key: Key, clock: int, steps: seq<Step>, call: nat, policy: Policy, readAt: int)
    requires var w := Run(Start(key, clock), steps);
             w.circuit.Some? && w.circuit.value.state == Open && Counted(w, policy) && readAt <= w.clock
    ensures var w := Run(Start(key, clock), steps); var c := w.circuit.value;
            (call !in w.calls ==>
               (Apply(w, Admit(call, policy, readAt)) != w <==>
                  c.lastFailureAt.Some? && c.lastFailureAt.value + c.recoveryTimeoutMs * MILLISECOND <= readAt)) &&
            Apply(w, Succeed(call, policy)).circuit == w.circuit &&
            (call in w.calls ==>
               Apply(w, Fail(call, policy, readAt)).circuit ==
                 Some(c.(lastFailureAt := Some(readAt), openedAt := Some(readAt))))
  {
    RunKeeps(Start(key, clock), steps);
  }

  /** How the state may change in one step, and that the stored policy never does. */
  lemma Transitions(key: Key, clock: int, steps: seq<Step>, step: Step)
    requires Run(Start(key, clock), steps).circuit.Some?
    ensures var w := Run(Start(key, clock), steps); var w' := Apply(w, step);
            w'.circuit.Some? &&
            var c, c' := w.circuit.value, w'.circuit.value;
            c'.failureThreshold == c.failureThreshold && c'.recoveryTimeoutMs == c.recoveryTimeoutMs &&
            c'.halfOpenMaxCalls == c.halfOpenMaxCalls &&
            (c'.state != c.state ==>
               (c.state == Closed && c'.state == Open && step.Fail? && c.failureCount + 1 == c.failureThreshold) ||
               (c.state == Open && c'.state == HalfOpen && step.Admit?) ||
               (c.state == HalfOpen && c'.state == Open && step.Fail?) ||
               (c.state == HalfOpen && c'.state == Closed && step.Succeed? && c.successCount == 1))
  {
    RunKeeps(Start(key, clock), steps);
  }

  // ---------------------------------------------------------------- failures in a row

  predicate ClosedNow(w: World) {
    w.circuit.Some? && w.circuit.value.state == Closed
  }

  /** A failure reported to a closed circuit adds one; a success without a token, and closing, start again. */
  function Counting(n: nat, w: World, step: Step): nat {
    if !ClosedNow(w) then 0
    else
      match step
      case Succeed(call, policy) => if CanComplete(w, call, policy) && w.calls[call].token.None? then 0 else n
      case Fail(call, policy, readAt) => if CanComplete(w, call, policy) && readAt <= w.clock then n + 1 else n
      case _ => n
  }

  /** The failures reported since the circuit was last closed or had a success without a token, `n` before the run. */
  function Streak(n: nat, w: World, steps: seq<Step>): nat
    decreases |steps|
  {
    if steps == [] then n else Streak(Counting(n, w, steps[0]), Apply(w, steps[0]), steps[1..])
  }

  lemma StepCounts(w: World, step: Step, n: nat)
    requires Inv(w) && (ClosedNow(w) ==> w.circuit.value.failureCount == n)
    ensures ClosedNow(Apply(w, step)) ==> Apply(w, step).circuit.value.failureCount == Counting(n, w, step)
    ensures ClosedNow(w) ==>
              (!ClosedNow(Apply(w, step)) <==> Counting(n, w, step) == w.circuit.value.failureThreshold)
  {
  }

  lemma {:induction false} RunCounts(w: World, steps: seq<Step>, n: nat)
    requires Inv(w) && (ClosedNow(w) ==> w.circuit.value.failureCount == n)
    ensures ClosedNow(Run(w, steps)) ==> Run(w, steps).circuit.value.failureCount == Streak(n, w, steps)
    decreases |steps|
  {
    if steps != [] {
      StepKeeps(w, steps[0]);
      StepCounts(w, steps[0], n);
      RunCounts(Apply(w, steps[0]), steps[1..], Counting(n, w, steps[0]));
    }
  }

  /**
   The failure count of a closed circuit is that of the failures reported since it was last closed or had
   a success without a token. So it opens exactly with the failure that brings these to the threshold.
   */
  lemma FailuresInARow(key: Key, clock: int, steps: seq<Step>, step: Step)
    requires ClosedNow(Run(Start(key, clock), steps))
    ensures var w := Run(Start(key, clock), steps); var w' := Apply(w, step);
            var streak := Streak(0, Start(key, clock), steps);
            w.circuit.value.failureCount == streak < w.circuit.value.failureThreshold &&
            w'.circuit.Some? &&
            (w'.circuit.value.state == Open <==>
               step.Fail? && Counting(streak, w, step) == streak + 1 == w.circuit.value.failureThreshold)
  {
    RunKeeps(Start(key, clock), steps);
    RunCounts(Start(key, clock), steps, 0);
    StepCounts(Run(Start(key, clock), steps), step, Streak(0, Start(key, clock), steps));
  }

  // ---------------------------------------------------------------- why tokens matter

  const SAMPLE := Policy(true, 1, 100, 1)

  function SampleKey(): Key {
    Key(0, "k")
  }

  lemma {:induction false} RunSnoc(w: World, steps: seq<Step>, step: Step)
    ensures Run(w, steps + [step]) == Apply(Run(w, steps), step)
    decreases |steps|
  {
    if steps == [] {
      assert [step][1..] == [];
    } else {
      assert (steps + [step])[1..] == steps[1..] + [step];
      RunSnoc(Apply(w, steps[0]), steps[1..], step);
    }
  }

  function Opening(): seq<Step> {
    [] + [Admit(0, SAMPLE, 0)] + [Admit(1, SAMPLE, 0)] + [Fail(1, SAMPLE, 0)]
  }

  function HalfOpened(at: int): Circuit {
    Circuit(HalfOpen, 1, 100, 1, 1, 1, Some(0), Some(0), Some(at))
  }

  function Reopening(at: int): seq<Step> {
    Opening() + [Tick(at)] + [Admit(2, SAMPLE, at)]
  }

  function Tokened(at: int, window: nat): Ticket {
    Ticket(Some(Token(SampleKey(), Some(at))), window)
  }

  lemma AfterOpening()
    ensures Run(Start(SampleKey(), 0), Opening()) ==
            World(SampleKey(), 0, Some(Circuit(Open, 1, 100, 1, 1, 0, Some(0), Some(0), None)),
                  map[0 := Ticket(None, 0)], [], 0, 0)
  {
  }

  lemma AfterReopening(at: int)
    requires at >= 100 * MILLISECOND
    ensures Run(Start(SampleKey(), 0), Reopening(at)) ==
            World(SampleKey(), at, Some(HalfOpened(at)), map[0 := Ticket(None, 0), 2 := Tokened(at, 1)], [at], 0, 0)
  {
    AfterOpening();
    var w := Run(Start(SampleKey(), 0), Opening());
    RunSnoc(Start(SampleKey(), 0), Opening(), Tick(at));
    RunSnoc(Start(SampleKey(), 0), Opening() + [Tick(at)], Admit(2, SAMPLE, at));
    assert Holding(w.(clock := at), Some(at)) == {};
  }

  /**
   A call admitted while the circuit was closed carries no token. When it succeeds late, in the
   half-open window of another call's probe, it closes the circuit while that probe is still out.
   */
  lemma TokenlessSuccessClosesEarly()
    ensures var at := 100 * MILLISECOND; var w := Run(Start(SampleKey(), 0), Reopening(at) + [Succeed(0, SAMPLE)]);
            w.circuit.Some? && w.circuit.value.state == Closed && w.strays == 1 && Holding(w, Some(at)) == {2}
  {
    var at := 100 * MILLISECOND;
    AfterReopening(at);
    RunSnoc(Start(SampleKey(), 0), Reopening(at), Succeed(0, SAMPLE));
  }

  /**
   A failure that read the clock early reopens the circuit, and the next probe is admitted on another
   early reading.
   */
  function EarlyReadings(readAt: int): seq<Step> {
    Reopening(500 * MILLISECOND) + [Fail(0, SAMPLE, 200 * MILLISECOND)] + [Admit(3, SAMPLE, readAt)]
  }

  lemma AfterEarlyReadings(readAt: int)
    requires 300 * MILLISECOND <= readAt <= 500 * MILLISECOND
    ensures var w := Run(Start(SampleKey(), 0), EarlyReadings(readAt)); var at := 500 * MILLISECOND;
            w.circuit.Some? && w.circuit.value.state == HalfOpen && w.circuit.value.successCount == 1 &&
            w.circuit.value.halfOpenedAt == Some(readAt) &&
            w.key == SampleKey() && w.windows == [at, readAt] &&
            w.calls == map[2 := Tokened(at, 1), 3 := Tokened(readAt, 2)] &&
            PolicyMatches(w.circuit.value, SAMPLE)
  {
    var at := 500 * MILLISECOND;
    AfterReopening(at);
    RunSnoc(Start(SampleKey(), 0), Reopening(at), Fail(0, SAMPLE, 200 * MILLISECOND));
    RunSnoc(Start(SampleKey(), 0), Reopening(at) + [Fail(0, SAMPLE, 200 * MILLISECOND)], Admit(3, SAMPLE, readAt));
  }

  /**
   Early readings break the order of windows: the second one may open before the first, or at the very
   same time. Then the token of the first probe fits the second window, and its late success closes the
   circuit while the second probe is out.
   */
  lemma EarlyReadingsReuseTokens()
    ensures Run(Start(SampleKey(), 0), EarlyReadings(400 * MILLISECOND)).windows ==
            [500 * MILLISECOND, 400 * MILLISECOND]
    ensures var at := 500 * MILLISECOND; var w := Run(Start(SampleKey(), 0), EarlyReadings(at));
            var w' := Apply(w, Succeed(2, SAMPLE));
            Holding(w, Some(at)) == {2, 3} && Stale(w, 2) && w'.circuit.Some? && w'.circuit.value.state == Closed &&
            Holding(w', Some(at)) == {3}
  {
    AfterEarlyReadings(400 * MILLISECOND);
    AfterEarlyReadings(500 * MILLISECOND);
  }
}
