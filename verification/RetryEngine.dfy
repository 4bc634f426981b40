/**
 Node execution of the workflow runtime (backend/app/runtime/workflow/runtime.py): the retry loop of
 one node under the shared retry budget and the workflow deadline, and the sequential workflow.

 A node runs for at most the timeout given to it and a back-off sleeps for exactly its delay. What the
 nodes do, the jitter drawn, and how long the database calls around an attempt take come from outside:
 they are the results of arbitrary functions of how many attempts were made before.
 */
module RetryEngine {
  import opened Wrappers

  /** The state that a node receives or returns. */
  type Data = nat

  type Duration = d: real | 0.0 <= d

  datatype Code = WorkflowTimeout | CircuitOpen | NodeTimeout | Http(status: int) | Connection | Other(name: string)

  datatype Fault = Opens | TimesOut | Responds(status: int) | Disconnects | Raises(name: string)

  datatype Error = HttpError(status: int) | CircuitOpenError | ConnectionError

  datatype Outcome = Output(data: Data) | Fails(fault: Fault)

  /** How long a node would run if it were not cut off, and how it would end. */
  datatype Work = Work(duration: Duration, outcome: Outcome)

  type World = (nat, Data) -> Work

  /**
   How long it takes to mark a node as running (or, past the deadline, as failed) before an attempt, to
   record its outcome after it, and to audit a retry before the back-off.
   */
  datatype Pause = Pause(before: Duration, after: Duration, retry: Duration)

  datatype Policy = Policy(maxAttempts: int, backoffMs: nat, maxBackoffMs: nat, jitterMs: nat, retryable: set<Code>)

  datatype Node = Node(policy: Policy, timeoutMs: nat)

  datatype Workflow = Workflow(nodes: seq<Node>, timeoutMs: nat, maxRetries: nat)

  /** What `resolve_retry_policy` accepts. */
  predicate ValidPolicy(p: Policy) {
    1 <= p.maxAttempts <= 5 && p.backoffMs <= 10_000 && p.maxBackoffMs <= 60_000 && p.jitterMs <= 10_000 &&
    p.backoffMs <= p.maxBackoffMs
  }

  /** What `validate_definition` and `execute` accept. */
  predicate ValidWorkflow(w: Workflow) {
    0 < w.timeoutMs <= 300_000 && w.maxRetries <= 20 && forall k | 0 <= k < |w.nodes| ::
      ValidPolicy(w.nodes[k].policy) && 0 < w.nodes[k].timeoutMs <= 300_000
  }

  // ---------------------------------------------------------------- pieces of the loop

  function Seconds(ms: nat): Duration {
    ms as real / 1000.0
  }

  function Least(a: real, b: real): real {
    if a <= b then a else b
  }

  function Power(n: nat): nat {
    if n == 0 then 1 else 2 * Power(n - 1)
  }

  function Ceiling(p: Policy, failed: nat): real {
    Least(p.maxBackoffMs as real, (p.backoffMs * Power(if failed == 0 then 0 else failed - 1)) as real)
  }

  function Clamp(x: real): real {
    if x < 0.0 then 0.0 else Least(1.0, x)
  }

  function Jitter(p: Policy, random: real): Duration {
    JitterNonNegative(p, random);
    Clamp(random) * p.jitterMs as real
  }

  lemma JitterNonNegative(p: Policy, random: real)
    ensures 0.0 <= Clamp(random) * p.jitterMs as real
  {
  }

  function Backoff(p: Policy, failed: nat, jitter: Duration): Duration {
    Least(p.maxBackoffMs as real, Ceiling(p, failed) + jitter) / 1000.0
  }

  /** `retry_delay_seconds` */
  function Delay(p: Policy, failed: nat, random: real): Duration {
    Backoff(p, failed, Jitter(p, random))
  }

  lemma {:induction false} PowerMonotone(a: nat, b: nat)
    requires a <= b
    ensures 1 <= Power(a) <= Power(b)
    decreases b
  {
    if a < b {
      PowerMonotone(a, b - 1);
    } else if a > 0 {
      PowerMonotone(a - 1, a - 1);
    }
  }

  lemma ScaleMonotone(n: nat, a: nat, b: nat)
    requires a <= b
    ensures n * a <= n * b
  {
  }

  lemma CeilingBounds(p: Policy, failed: nat, later: nat)
    requires p.backoffMs <= p.maxBackoffMs && failed <= later
    ensures p.backoffMs as real <= Ceiling(p, failed) <= Ceiling(p, later) <= p.maxBackoffMs as real
  {
    var a, b := if failed == 0 then 0 else failed - 1, if later == 0 then 0 else later - 1;
    PowerMonotone(0, a);
    PowerMonotone(a, b);
    ScaleMonotone(p.backoffMs, 1, Power(a));
    ScaleMonotone(p.backoffMs, Power(a), Power(b));
  }

  /** The delay never falls as attempts fail, and lies between the first back-off and the largest. */
  lemma DelayBounds(p: Policy, failed: nat, later: nat, random: real)
    requires ValidPolicy(p) && failed <= later
    ensures Seconds(p.backoffMs) <= Delay(p, failed, random) <= Delay(p, later, random) <= Seconds(p.maxBackoffMs)
  {
    BackoffBounds(p, failed, later, Jitter(p, random));
  }

  lemma BackoffBounds(p: Policy, failed: nat, later: nat, jitter: Duration)
    requires p.backoffMs <= p.maxBackoffMs && failed <= later
    ensures Seconds(p.backoffMs) <= Backoff(p, failed, jitter) <= Backoff(p, later, jitter) <= Seconds(p.maxBackoffMs)
  {
    CeilingBounds(p, failed, later);
    CappedMonotone(p.maxBackoffMs as real, Ceiling(p, failed), Ceiling(p, later), jitter);
  }

  lemma CappedMonotone(cap: real, a: real, b: real, jitter: real)
    requires a <= b <= cap && 0.0 <= jitter
    ensures a <= Least(cap, a + jitter) <= Least(cap, b + jitter) <= cap
  {
  }

  lemma CeilingDoubles(p: Policy, failed: nat)
    requires p.backoffMs <= p.maxBackoffMs && 1 <= failed
    ensures Ceiling(p, 1) == p.backoffMs as real
    ensures Ceiling(p, failed + 1) == Least(p.maxBackoffMs as real, 2.0 * Ceiling(p, failed))
  {
    var raw := p.backoffMs * Power(failed - 1);
    assert Power(0) == 1 && Power(failed) == 2 * Power(failed - 1);
    assert p.backoffMs * Power(failed) == 2 * raw;
    assert (2 * raw) as real == 2.0 * raw as real;
  }

  lemma DelayByCeiling(p: Policy, failed: nat, random: real)
    requires p.backoffMs <= p.maxBackoffMs && 0.0 <= random <= 1.0
    ensures Delay(p, failed, 0.0) == Ceiling(p, failed) / 1000.0
    ensures Delay(p, failed, random) ==
            Least(p.maxBackoffMs as real, Ceiling(p, failed) + random * p.jitterMs as real) / 1000.0
  {
    CeilingBounds(p, failed, failed);
  }

  /**
   Without jitter the first delay is the back-off, and each further one is twice the one before, up to the
   largest. Jitter adds its share of the given range, also up to the largest.
   */
  lemma DelayDoubles(p: Policy, failed: nat, random: real)
    requires p.backoffMs <= p.maxBackoffMs && 1 <= failed
    ensures Delay(p, 1, 0.0) == Seconds(p.backoffMs)
    ensures Delay(p, failed + 1, 0.0) == Least(Seconds(p.maxBackoffMs), 2.0 * Delay(p, failed, 0.0))
    ensures 0.0 <= random <= 1.0 ==>
              Delay(p, failed, random) ==
                Least(p.maxBackoffMs as real, Delay(p, failed, 0.0) * 1000.0 + random * p.jitterMs as real) / 1000.0
  {
    CeilingDoubles(p, failed);
    DelayByCeiling(p, 1, 0.0);
    DelayByCeiling(p, failed + 1, 0.0);
    if 0.0 <= random <= 1.0 {
      DelayByCeiling(p, failed, random);
    }
  }

  /** `wait_for`: the work ends by itself, or is cut off at the timeout. */
  function WaitFor(work: Work, timeout: Duration): (r: Work)
    ensures r.duration <= timeout
  {
    if work.duration > timeout then Work(timeout, Fails(TimesOut)) else work
  }

  /** `classify_error`, where only a timeout is told whether the deadline limited it. */
  function Classify(f: Fault, deadlineLimited: bool): Code {
    match f
    case TimesOut => if deadlineLimited then WorkflowTimeout else NodeTimeout
    case Opens => CircuitOpen
    case Responds(status) => Http(status)
    case Disconnects => Connection
    case Raises(name) => Other(name)
  }

  predicate Retryable(p: Policy, c: Code) {
    c in p.retryable && c != CircuitOpen && c != WorkflowTimeout
  }

  predicate MayRetry(p: Policy, attempt: nat, c: Code, retries: nat, maxRetries: nat) {
    Retryable(p, c) && attempt < p.maxAttempts && retries < maxRetries
  }

  /** The error that leaves the loop. */
  function Raised(c: Code): Error {
    match c
    case WorkflowTimeout => HttpError(504)
    case CircuitOpen => CircuitOpenError
    case NodeTimeout => HttpError(504)
    case Http(status) => HttpError(status)
    case Connection => ConnectionError
    case Other(_) => HttpError(500)
  }

  // ---------------------------------------------------------------- the loop as a function

  /** One attempt: the node, its number from one, what it received, the clock it read for its timeout, and that. */
  datatype Attempt = Attempt(node: nat, number: nat, input: Data, readAt: real, timeout: Duration)

  /** The clock, the shared retry counter, and every attempt so far. */
  datatype State = State(clock: real, retries: nat, attempts: seq<Attempt>)

  /** A workflow started at some time, `lead` before its first node, among nodes, jitter and pauses from outside. */
  datatype Execution = Execution(
    workflow: Workflow,
    started: real,
    lead: Duration,
    world: World,
    random: nat -> real,
    pauses: nat -> Pause)

  /** The head of the loop for the first node. */
  function Initial(x: Execution): State {
    State(x.started + x.lead, 0, [])
  }

  function Remaining(x: Execution, clock: real): real {
    Seconds(x.workflow.timeoutMs) - (clock - x.started)
  }

  function AttemptOf(x: Execution, k: nat, input: Data, failed: nat, s: State): Attempt
    requires k < |x.workflow.nodes| && Remaining(x, s.clock) > 0.0
  {
    Attempt(k, failed + 1, input, s.clock, Least(Seconds(x.workflow.nodes[k].timeoutMs), Remaining(x, s.clock)))
  }

  /** How the attempt with this index among all went. */
  function WorkOf(x: Execution, index: nat, a: Attempt): Work {
    WaitFor(x.world(index, a.input), a.timeout)
  }

  /** When the node of the attempt with this index ends. */
  function EndOf(x: Execution, index: nat, a: Attempt): real {
    a.readAt + x.pauses(index).before + WorkOf(x, index, a).duration
  }

  function AfterAttempt(x: Execution, s: State, a: Attempt): State {
    State(EndOf(x, |s.attempts|, a) + x.pauses(|s.attempts|).after, s.retries, s.attempts + [a])
  }

  /**
   A node that would run longer than its timeout is cut off and fails, even if it would have succeeded; any
   other ends by itself.
   */
  lemma CutOff(x: Execution, index: nat, a: Attempt)
    ensures var planned, work := x.world(index, a.input), WorkOf(x, index, a);
            (a.timeout < planned.duration ==> work.outcome == Fails(TimesOut)) &&
            (planned.duration <= a.timeout ==> work.outcome == planned.outcome) &&
            EndOf(x, index, a) - x.pauses(index).before - a.readAt == Least(planned.duration, a.timeout)
  {
  }

  predicate DeadlineLimited(x: Execution, a: Attempt)
    requires a.node < |x.workflow.nodes|
  {
    Remaining(x, a.readAt) <= Seconds(x.workflow.nodes[a.node].timeoutMs)
  }

  function CodeOf(x: Execution, index: nat, a: Attempt): Code
    requires a.node < |x.workflow.nodes| && WorkOf(x, index, a).outcome.Fails?
  {
    Classify(WorkOf(x, index, a).outcome.fault, DeadlineLimited(x, a))
  }

  function DelayOf(x: Execution, index: nat, a: Attempt): Duration
    requires a.node < |x.workflow.nodes|
  {
    Delay(x.workflow.nodes[a.node].policy, a.number, x.random(index))
  }

  /** One turn of the loop either leaves it or leads to the next turn. */
  datatype Turn = Over(state: State, result: Result<Data, Error>) | Again(state: State)

  function TurnOf(x: Execution, k: nat, input: Data, failed: nat, s: State): (t: Turn)
    requires k < |x.workflow.nodes| && failed < x.workflow.nodes[k].policy.maxAttempts
    ensures t.Again? ==> failed + 1 < x.workflow.nodes[k].policy.maxAttempts
  {
    if Remaining(x, s.clock) <= 0.0
    then Over(s.(clock := s.clock + x.pauses(|s.attempts|).before), Failure(HttpError(504)))
    else
      var a := AttemptOf(x, k, input, failed, s);
      var index, s1 := |s.attempts|, AfterAttempt(x, s, a);
      match WorkOf(x, index, a).outcome
      case Output(data) => Over(s1, Success(data))
      case Fails(_) =>
        if !MayRetry(x.workflow.nodes[k].policy, failed + 1, CodeOf(x, index, a), s.retries, x.workflow.maxRetries)
        then Over(s1, Failure(Raised(CodeOf(x, index, a))))
        else if DelayOf(x, index, a) > Remaining(x, s1.clock) then Over(s1, Failure(HttpError(504)))
        else Again(State(s1.clock + x.pauses(index).retry + DelayOf(x, index, a), s.retries + 1, s1.attempts))
  }

  /**
   When an attempt fails: it is retried exactly if its kind of failure is listed, attempts and budget are
   left and the delay fits; an open circuit and a timeout at the deadline never are. Otherwise the caller gets
   the failure itself, a 504 for timeouts and for a delay that does not fit, and a 500 for the rest.
   */
  lemma FailedTurn(x: Execution, k: nat, input: Data, failed: nat, s: State)
    requires k < |x.workflow.nodes| && failed < x.workflow.nodes[k].policy.maxAttempts && Remaining(x, s.clock) > 0.0
    requires WorkOf(x, |s.attempts|, AttemptOf(x, k, input, failed, s)).outcome.Fails?
    ensures var node := x.workflow.nodes[k]; var a := AttemptOf(x, k, input, failed, s);
            var fault := WorkOf(x, |s.attempts|, a).outcome.fault; var listed := node.policy.retryable;
            var ended := Remaining(x, EndOf(x, |s.attempts|, a) + x.pauses(|s.attempts|).after);
            var retriable :=
              failed + 1 < node.policy.maxAttempts && s.retries < x.workflow.maxRetries &&
              match fault
              case Opens => false
              case TimesOut => Seconds(node.timeoutMs) < Remaining(x, s.clock) && NodeTimeout in listed
              case Responds(status) => Http(status) in listed
              case Disconnects => Connection in listed
              case Raises(name) => Other(name) in listed;
            var delay := Delay(node.policy, failed + 1, x.random(|s.attempts|));
            match TurnOf(x, k, input, failed, s)
            case Again(s') => retriable && delay <= ended && s'.retries == s.retries + 1
            case Over(s', r) =>
              s'.retries == s.retries && (retriable ==> delay > ended && r == Failure(HttpError(504))) &&
              (!retriable ==>
                 (fault == TimesOut ==> r == Failure(HttpError(504))) &&
                 (fault == Opens ==> r == Failure(CircuitOpenError)) &&
                 (fault == Disconnects ==> r == Failure(ConnectionError)) &&
                 (fault.Responds? ==> r == Failure(HttpError(fault.status))) &&
                 (fault.Raises? ==> r == Failure(HttpError(500))))
  {
  }

  /** `_execute_node_with_policy` from the head of its loop, after `failed` attempts. */
  function NodeRun(x: Execution, k: nat, input: Data, failed: nat, s: State): (State, Result<Data, Error>)
    requires k < |x.workflow.nodes| && failed < x.workflow.nodes[k].policy.maxAttempts
    decreases x.workflow.nodes[k].policy.maxAttempts - failed
  {
    match TurnOf(x, k, input, failed, s)
    case Over(s', r) => (s', r)
    case Again(s') => NodeRun(x, k, input, failed + 1, s')
  }

  /** The sequential workflow from node `k`. */
  function WorkflowRun(x: Execution, k: nat, data: Data, s: State): (State, Result<Data, Error>)
    requires ValidWorkflow(x.workflow) && k <= |x.workflow.nodes|
    decreases |x.workflow.nodes| - k
  {
    if k == |x.workflow.nodes| then (s, Success(data))
    else
      var (s1, r) := NodeRun(x, k, data, 0, s);
      if r.Failure? then (s1, r) else WorkflowRun(x, k + 1, r.value, s1)
  }

  // ---------------------------------------------------------------- the loops

  class Runtime {
    const execution: Execution
    var clock: real
    var retries: nat
    var attempts: seq<Attempt>

    ghost function Now(): State
      reads this
    {
      State(clock, retries, attempts)
    }

    constructor (execution: Execution)
      ensures this.execution == execution && Now() == Initial(execution)
    {
      this.execution := execution;
      clock, retries, attempts := execution.started + execution.lead, 0, [];
    }

    method ExecuteNode(k: nat, input: Data) returns (r: Result<Data, Error>)
      requires k < |execution.workflow.nodes| && ValidPolicy(execution.workflow.nodes[k].policy)
      modifies this
      ensures (Now(), r) == NodeRun(execution, k, input, 0, old(Now()))
    {
      var node := execution.workflow.nodes[k];
      var attempt := 0;
      while true
        invariant 0 <= attempt < node.policy.maxAttempts
        invariant NodeRun(execution, k, input, attempt, Now()) == NodeRun(execution, k, input, 0, old(Now()))
        decreases node.policy.maxAttempts - attempt
      {
        ghost var before := Now();
        attempt := attempt + 1;
        var remaining := Remaining(execution, clock);
        var index := |attempts|;
        var pause := execution.pauses(index);
        if remaining <= 0.0 {
          clock := clock + pause.before;
          assert TurnOf(execution, k, input, attempt - 1, before) == Over(Now(), Failure(HttpError(504)));
          return Failure(HttpError(504));
        }
        var a := Attempt(k, attempt, input, clock, Least(Seconds(node.timeoutMs), remaining));
        var deadlineLimited := remaining <= Seconds(node.timeoutMs);
        clock := clock + pause.before;
        var work := WaitFor(execution.world(index, input), a.timeout);
        clock := clock + work.duration + pause.after;
        attempts := attempts + [a];
        if work.outcome.Output? {
          assert TurnOf(execution, k, input, attempt - 1, before) == Over(Now(), Success(work.outcome.data));
          return Success(work.outcome.data);
        }
        var code := Classify(work.outcome.fault, deadlineLimited);
        if !Retryable(node.policy, code) || attempt >= node.policy.maxAttempts ||
           retries >= execution.workflow.maxRetries {
          assert TurnOf(execution, k, input, attempt - 1, before) == Over(Now(), Failure(Raised(code)));
          return Failure(Raised(code));
        }
        var delay := Delay(node.policy, attempt, execution.random(index));
        if delay > Remaining(execution, clock) {
          assert TurnOf(execution, k, input, attempt - 1, before) == Over(Now(), Failure(HttpError(504)));
          return Failure(HttpError(504));
        }
        retries := retries + 1;
        clock := clock + pause.retry + delay;
        assert TurnOf(execution, k, input, attempt - 1, before) == Again(Now());
      }
    }

    method Execute(input: Data) returns (r: Result<Data, Error>)
      requires ValidWorkflow(execution.workflow)
      modifies this
      ensures (Now(), r) == WorkflowRun(execution, 0, input, old(Now()))
    {
      var data := input;
      ghost var whole := WorkflowRun(execution, 0, input, Now());
      for k := 0 to |execution.workflow.nodes|
        invariant WorkflowRun(execution, k, data, Now()) == whole
      {
        r := ExecuteNode(k, data);
        if r.Failure? {
          return r;
        }
        data := r.value;
      }
      return Success(data);
    }
  }

  // ---------------------------------------------------------------- deadline

  function Deadline(x: Execution): real {
    x.started + Seconds(x.workflow.timeoutMs)
  }

  /**
   An attempt reads the clock before the deadline, and its positive timeout is within the node's limit
   and the time that remains.
   */
  predicate OnTime(x: Execution, a: Attempt) {
    a.node < |x.workflow.nodes| && x.started <= a.readAt < Deadline(x) &&
    0.0 < a.timeout <= Seconds(x.workflow.nodes[a.node].timeoutMs) && a.readAt + a.timeout <= Deadline(x)
  }

  /** By how much the head of the loop may be reached too late after this many attempts. */
  function Lateness(x: Execution, attempts: nat): real {
    if attempts == 0 then x.lead
    else
      var p := x.pauses(attempts - 1);
      if p.before + p.after <= p.retry then p.retry else p.before + p.after
  }

  predicate AllOnTime(x: Execution, s: State, pause: Duration) {
    x.started <= s.clock <= Deadline(x) + Lateness(x, |s.attempts|) + pause &&
    forall i | 0 <= i < |s.attempts| :: OnTime(x, s.attempts[i])
  }

  /** Where the loop ends, it may have marked one more node as failed. */
  function LastPause(x: Execution, s: State, r: Result<Data, Error>): Duration {
    if r.Failure? then x.pauses(|s.attempts|).before else 0.0
  }

  lemma TurnOnTime(x: Execution, k: nat, input: Data, failed: nat, s: State)
    requires k < |x.workflow.nodes| && failed < x.workflow.nodes[k].policy.maxAttempts &&
             0 < x.workflow.nodes[k].timeoutMs
    requires AllOnTime(x, s, 0.0)
    ensures var turn := TurnOf(x, k, input, failed, s);
            AllOnTime(x, turn.state, if turn.Over? then LastPause(x, turn.state, turn.result) else 0.0)
  {
  }

  lemma {:induction false} NodeOnTime(x: Execution, k: nat, input: Data, failed: nat, s: State)
    requires k < |x.workflow.nodes| && failed < x.workflow.nodes[k].policy.maxAttempts &&
             0 < x.workflow.nodes[k].timeoutMs
    requires AllOnTime(x, s, 0.0)
    ensures var run := NodeRun(x, k, input, failed, s); AllOnTime(x, run.0, LastPause(x, run.0, run.1))
    decreases x.workflow.nodes[k].policy.maxAttempts - failed
  {
    TurnOnTime(x, k, input, failed, s);
    var turn := TurnOf(x, k, input, failed, s);
    if turn.Again? {
      NodeOnTime(x, k, input, failed + 1, turn.state);
    }
  }

  lemma {:induction false} WorkflowOnTime(x: Execution, k: nat, data: Data, s: State)
    requires ValidWorkflow(x.workflow) && k <= |x.workflow.nodes| && AllOnTime(x, s, 0.0)
    ensures var run := WorkflowRun(x, k, data, s); AllOnTime(x, run.0, LastPause(x, run.0, run.1))
    decreases |x.workflow.nodes| - k
  {
    if k < |x.workflow.nodes| {
      NodeOnTime(x, k, data, 0, s);
      var (s1, r) := NodeRun(x, k, data, 0, s);
      if r.Success? {
        WorkflowOnTime(x, k + 1, r.value, s1);
      }
    }
  }

  /**
   Whatever the nodes do, every attempt is on time: its node ends by the deadline, but for the pause
   before it. The workflow exceeds the deadline by no more than the pauses around its last attempt.
   */
  lemma DeadlineSafety(x: Execution, input: Data)
    requires ValidWorkflow(x.workflow)
    ensures var (s, r) := WorkflowRun(x, 0, input, Initial(x));
            s.clock <= Deadline(x) + Lateness(x, |s.attempts|) + LastPause(x, s, r) &&
            forall i | 0 <= i < |s.attempts| ::
              OnTime(x, s.attempts[i]) && EndOf(x, i, s.attempts[i]) <= Deadline(x) + x.pauses(i).before
  {
    WorkflowOnTime(x, 0, input, Initial(x));
  }

  /**
   A timeout is blamed on the workflow deadline although time remains exactly when the deadline limited
   the attempt and the node timed out by itself before its timeout was up.
   */
  lemma TimeoutVerdict(x: Execution, index: nat, a: Attempt)
    requires OnTime(x, a) && WorkOf(x, index, a).outcome == Fails(TimesOut)
    requires a.timeout == Least(Seconds(x.workflow.nodes[a.node].timeoutMs), Remaining(x, a.readAt))
    ensures CodeOf(x, index, a) == WorkflowTimeout && EndOf(x, index, a) < Deadline(x) <==>
            DeadlineLimited(x, a) && x.pauses(index).before + x.world(index, a.input).duration < a.timeout
  {
  }

  // ---------------------------------------------------------------- every run is a legal sequence of attempts

  /**
   What may follow an attempt once its outcome is recorded: after a failure that may be retried, the
   same node with the same input once the delay is over; after an output, the next node with that output.
   */
  predicate Linked(x: Execution, index: nat, a: Attempt, b: Attempt)
    requires a.node < |x.workflow.nodes|
  {
    var recorded := EndOf(x, index, a) + x.pauses(index).after;
    match WorkOf(x, index, a).outcome
    case Output(data) => b.node == a.node + 1 && b.number == 1 && b.input == data && b.readAt == recorded
    case Fails(_) =>
      Retryable(x.workflow.nodes[a.node].policy, CodeOf(x, index, a)) &&
      b.node == a.node && b.number == a.number + 1 && b.input == a.input &&
      b.readAt == recorded + x.pauses(index).retry + DelayOf(x, index, a)
  }

  /** One of the node's attempts, given all of the node's time or what remains of the workflow's, if that is less. */
  predicate Numbered(x: Execution, a: Attempt) {
    a.node < |x.workflow.nodes| && 1 <= a.number <= x.workflow.nodes[a.node].policy.maxAttempts &&
    (if a.readAt + Seconds(x.workflow.nodes[a.node].timeoutMs) <= x.started + Seconds(x.workflow.timeoutMs)
     then a.timeout == Seconds(x.workflow.nodes[a.node].timeoutMs)
     else a.timeout == x.started + Seconds(x.workflow.timeoutMs) - a.readAt)
  }

  predicate Legal(x: Execution, input: Data, attempts: seq<Attempt>) {
    (forall i | 0 <= i < |attempts| :: Numbered(x, attempts[i])) &&
    (attempts != [] ==>
       attempts[0].node == 0 && attempts[0].number == 1 && attempts[0].input == input &&
       attempts[0].readAt == x.started + x.lead) &&
    (forall i | 0 <= i < |attempts| - 1 :: Linked(x, i, attempts[i], attempts[i + 1]))
  }

  /** The attempt that would come next at the head of the loop fits what came before. */
  predicate NextFits(x: Execution, first: Data, k: nat, input: Data, failed: nat, s: State) {
    Legal(x, first, s.attempts) &&
    if s.attempts == [] then k == 0 && failed == 0 && input == first && s.clock == x.started + x.lead
    else
      var index := |s.attempts| - 1;
      Linked(x, index, s.attempts[index], Attempt(k, failed + 1, input, s.clock, 0.0))
  }

  /** At the head of the loop every attempt so far either finished a node or was followed by a retry. */
  predicate Head(x: Execution, first: Data, k: nat, input: Data, failed: nat, s: State) {
    NextFits(x, first, k, input, failed, s) && s.retries <= x.workflow.maxRetries && |s.attempts| == k + s.retries
  }

  /** Why a run gives up: its time is up, the last failure may not be retried, or its delay does not fit. */
  predicate GivesUp(x: Execution, s: State, e: Error) {
    (e == HttpError(504) && Remaining(x, s.clock - x.pauses(|s.attempts|).before) <= 0.0) ||
    (|s.attempts| > 0 && s.attempts[|s.attempts| - 1].node < |x.workflow.nodes| &&
     var index := |s.attempts| - 1; var a := s.attempts[index]; var policy := x.workflow.nodes[a.node].policy;
     WorkOf(x, index, a).outcome.Fails? &&
     if MayRetry(policy, a.number, CodeOf(x, index, a), s.retries, x.workflow.maxRetries)
     then e == HttpError(504) && DelayOf(x, index, a) > Remaining(x, s.clock)
     else e == Raised(CodeOf(x, index, a)))
  }

  lemma AttemptIsLegal(x: Execution, first: Data, k: nat, input: Data, failed: nat, s: State)
    requires k < |x.workflow.nodes| && failed < x.workflow.nodes[k].policy.maxAttempts && Remaining(x, s.clock) > 0.0
    requires NextFits(x, first, k, input, failed, s)
    ensures Legal(x, first, AfterAttempt(x, s, AttemptOf(x, k, input, failed, s)).attempts)
  {
  }

  /** Where the node leaves the run: at the head for the next node, or giving up. */
  predicate Leaves(x: Execution, first: Data, k: nat, s: State, r: Result<Data, Error>) {
    match r
    case Success(data) => Head(x, first, k + 1, data, 0, s)
    case Failure(error) =>
      Legal(x, first, s.attempts) && GivesUp(x, s, error) && s.retries <= x.workflow.maxRetries &&
      k + s.retries <= |s.attempts| <= k + 1 + s.retries
  }

  lemma {:induction false} TurnOverLeaves(x: Execution, first: Data, k: nat, input: Data, failed: nat, s: State)
    requires k < |x.workflow.nodes| && failed < x.workflow.nodes[k].policy.maxAttempts &&
             Head(x, first, k, input, failed, s)
    requires TurnOf(x, k, input, failed, s).Over?
    ensures var turn := TurnOf(x, k, input, failed, s); Leaves(x, first, k, turn.state, turn.result)
  {
    if Remaining(x, s.clock) > 0.0 {
      var a := AttemptOf(x, k, input, failed, s);
      AttemptIsLegal(x, first, k, input, failed, s);
      assert AfterAttempt(x, s, a).attempts[|s.attempts|] == a;
    }
  }

  lemma TurnAgainFits(x: Execution, first: Data, k: nat, input: Data, failed: nat, s: State)
    requires k < |x.workflow.nodes| && failed < x.workflow.nodes[k].policy.maxAttempts &&
             Head(x, first, k, input, failed, s)
    requires TurnOf(x, k, input, failed, s).Again?
    ensures Head(x, first, k, input, failed + 1, TurnOf(x, k, input, failed, s).state)
  {
  }

  lemma {:induction false} NodeTrace(x: Execution, first: Data, k: nat, input: Data, failed: nat, s: State)
    requires k < |x.workflow.nodes| && failed < x.workflow.nodes[k].policy.maxAttempts &&
             Head(x, first, k, input, failed, s)
    ensures var run := NodeRun(x, k, input, failed, s); Leaves(x, first, k, run.0, run.1)
    decreases x.workflow.nodes[k].policy.maxAttempts - failed
  {
    var turn := TurnOf(x, k, input, failed, s);
    if turn.Over? {
      TurnOverLeaves(x, first, k, input, failed, s);
      assert NodeRun(x, k, input, failed, s) == (turn.state, turn.result);
    } else {
      TurnAgainFits(x, first, k, input, failed, s);
      assert NodeRun(x, k, input, failed, s) == NodeRun(x, k, input, failed + 1, turn.state);
      NodeTrace(x, first, k, input, failed + 1, turn.state);
    }
  }

  /** How a workflow ends. */
  predicate Ends(x: Execution, first: Data, s: State, r: Result<Data, Error>) {
    Legal(x, first, s.attempts) && s.retries <= x.workflow.maxRetries &&
    |s.attempts| <= |x.workflow.nodes| + s.retries &&
    match r
    case Success(data) =>
      |s.attempts| == |x.workflow.nodes| + s.retries &&
      if |s.attempts| == 0 then data == first
      else
        var index := |s.attempts| - 1;
        s.attempts[index].node == |x.workflow.nodes| - 1 &&
        WorkOf(x, index, s.attempts[index]).outcome == Output(data)
    case Failure(error) => GivesUp(x, s, error)
  }

  lemma LastNodeEnds(x: Execution, first: Data, data: Data, s: State)
    requires Head(x, first, |x.workflow.nodes|, data, 0, s)
    ensures Ends(x, first, s, Success(data))
  {
  }

  lemma GivingUpEnds(x: Execution, first: Data, k: nat, s: State, error: Error)
    requires k < |x.workflow.nodes| && Leaves(x, first, k, s, Failure(error))
    ensures Ends(x, first, s, Failure(error))
  {
  }

  lemma {:induction false} WorkflowTrace(x: Execution, first: Data, k: nat, data: Data, s: State)
    requires ValidWorkflow(x.workflow) && k <= |x.workflow.nodes| && Head(x, first, k, data, 0, s)
    ensures var run := WorkflowRun(x, k, data, s); Ends(x, first, run.0, run.1)
    decreases |x.workflow.nodes| - k
  {
    if k == |x.workflow.nodes| {
      LastNodeEnds(x, first, data, s);
    } else {
      NodeTrace(x, first, k, data, 0, s);
      var (s1, r) := NodeRun(x, k, data, 0, s);
      if r.Failure? {
        GivingUpEnds(x, first, k, s1, r.error);
        assert WorkflowRun(x, k, data, s) == (s1, r);
      } else {
        assert WorkflowRun(x, k, data, s) == WorkflowRun(x, k + 1, r.value, s1);
        WorkflowTrace(x, first, k + 1, r.value, s1);
      }
    }
  }

  /**
   Whatever the nodes do, the attempts of a workflow form a legal sequence within the retry budget. It
   succeeds with the output of the last node, having made one attempt for every node and every retry;
   or it fails for one of the three reasons above.
   */
  lemma WorkflowAttempts(x: Execution, input: Data)
    requires ValidWorkflow(x.workflow)
    ensures var run := WorkflowRun(x, 0, input, Initial(x)); Ends(x, input, run.0, run.1)
  {
    WorkflowTrace(x, input, 0, input, Initial(x));
  }

  /** In a legal sequence no attempt starts before every earlier one has ended. */
  lemma {:induction false} AttemptsDoNotOverlap(x: Execution, input: Data, attempts: seq<Attempt>, i: nat, j: nat)
    requires Legal(x, input, attempts) && i < j < |attempts|
    ensures EndOf(x, i, attempts[i]) <= attempts[j].readAt
    decreases j
  {
    assert Linked(x, j - 1, attempts[j - 1], attempts[j - 1 + 1]);
    if i < j - 1 {
      AttemptsDoNotOverlap(x, input, attempts, i, j - 1);
    }
  }
}
