/**
 Idempotent operator actions (backend/app/services/runtime_operations/operator_governance.py).

 An action claims its key if it must, acts, settles the record of the key and adds the audit facts. The
 insertion of the key makes a concurrent claim of the same key wait for the transaction. As a rule that
 is the transaction of the whole call, which is then one atomic step. An invocation, however, runs its
 workflow inside, and the circuit breaker commits the shared session when it reserves a probe
 (backend/app/runtime/workflow/circuit_breaker.py). Such a call is two steps: it commits its claim early,
 and it closes later, if it is not interrupted. What the domain services do is the outcome of the call.
 */
module OperatorIdempotency {
  import opened Wrappers

  type Id = nat

  datatype Action = Run | Cancel | Retry | Resume | Enable | Disable | Delete | Invoke

  predicate OnExecution(a: Action) {
    a == Run || a == Cancel || a == Retry || a == Resume
  }

  predicate NeedsConfirmation(a: Action) {
    a != Run && a != Invoke
  }

  predicate NeedsKey(a: Action) {
    a == Retry || a == Invoke
  }

  /** The actions that claim their key before they act. */
  predicate Claims(a: Action) {
    a == Retry || a == Resume || a == Invoke
  }

  datatype Status = Started | Succeeded | Failed

  datatype Resource = WorkflowExecution(id: Id) | WorkflowTrigger(id: Id)

  datatype Record = Record(action: Action, resource: Id, status: Status, result: Option<Resource>)

  datatype Key = Key(tenantId: nat, key: string)

  /** A committed successful action, with the key under which it was recorded. */
  datatype Effect = Effect(tenantId: nat, key: Option<string>, action: Action, resource: Id, result: Resource)

  datatype Store = Store(records: map<Key, Record>, executions: set<(nat, Id)>, effects: seq<Effect>)

  /** How the domain service ends: with the execution it names, or with an error. */
  datatype Outcome = Done(execution: Id) | Fails(status: int)

  /**
   `allowed` is the availability of the action now, `checkpointKey` the key derived from the latest
   checkpoint, and `unused` the name drawn for an action without a key.
   */
  datatype Call = Call(
    tenantId: nat,
    action: Action,
    resource: Id,
    key: Option<string>,
    confirm: bool,
    allowed: bool,
    checkpointKey: Option<string>,
    outcome: Outcome,
    unused: string)

  datatype Response = Returned(result: Resource) | Refused(status: int)

  predicate Malformed(c: Call) {
    (NeedsConfirmation(c.action) && !c.confirm) || (NeedsKey(c.action) && (c.key == None || c.key == Some("")))
  }

  /** The key under which the call is recorded; resuming derives one when none is given. */
  function EffectiveKey(c: Call): Option<string> {
    if c.action == Resume && c.key.None? then c.checkpointKey else c.key
  }

  /** The name under which a success is recorded: an administered trigger ignores an empty key. */
  function UsedKey(c: Call): Option<string> {
    if EffectiveKey(c) == Some("") && !OnExecution(c.action) then None else EffectiveKey(c)
  }

  function ResultOf(c: Call): Resource
    requires c.outcome.Done?
  {
    match c.action
    case Run => WorkflowExecution(c.resource)
    case Cancel => WorkflowExecution(c.resource)
    case Enable => WorkflowTrigger(c.resource)
    case Disable => WorkflowTrigger(c.resource)
    case Delete => WorkflowTrigger(c.resource)
    case _ => WorkflowExecution(c.outcome.execution)
  }

  // ---------------------------------------------------------------- what a call does

  /** `_claim_idempotency` on an existing record, then `_reuse_or_raise`. */
  function Reuse(s: Store, c: Call, k: Key): Response
    requires k in s.records
  {
    var r := s.records[k];
    if r.action != c.action || r.resource != c.resource then Refused(409)
    else if r.status != Succeeded || r.result.None? then Refused(409)
    else if !r.result.value.WorkflowExecution? then Refused(409)
    else if (k.tenantId, r.result.value.id) !in s.executions then Refused(409)
    else Returned(r.result.value)
  }

  /** The record of a call that succeeds is settled with its result, or made under an unused name. */
  function Commit(s: Store, c: Call, records: map<Key, Record>): Store
    requires c.outcome.Done?
  {
    Store(records,
          if ResultOf(c).WorkflowExecution? then s.executions + {(c.tenantId, ResultOf(c).id)} else s.executions,
          s.effects + [Effect(c.tenantId, UsedKey(c), c.action, c.resource, ResultOf(c))])
  }

  function Settled(r: Record, c: Call): Record {
    match c.outcome
    case Done(_) => r.(status := Succeeded, result := Some(ResultOf(c)))
    case Fails(_) => r.(status := Failed, result := None)
  }

  /** The records once the key is claimed. */
  function WithClaim(records: map<Key, Record>, c: Call, k: Key): map<Key, Record> {
    if Claims(c.action) then records[k := Record(c.action, c.resource, Started, None)] else records
  }

  /** `_audit` finds the record of its key, or adds one under an unused name. */
  function Audited(records: map<Key, Record>, c: Call): Option<map<Key, Record>>
    requires c.outcome.Done?
  {
    if EffectiveKey(c).Some? && EffectiveKey(c).value != "" then
      var k := Key(c.tenantId, EffectiveKey(c).value);
      if k in records then Some(records[k := Settled(records[k], c)]) else None
    else
      var k := Key(c.tenantId, c.unused);
      if k in records then None else Some(records[k := Settled(Record(c.action, c.resource, Started, None), c)])
  }

  /** `execute_execution` once it may act. */
  function Act(s: Store, c: Call): (Store, Response) {
    if EffectiveKey(c).None? then
      if c.outcome.Fails? then (s, Refused(c.outcome.status)) else Finish(s, c, s.records)
    else
      var k := Key(c.tenantId, EffectiveKey(c).value);
      var records := WithClaim(s.records, c, k);
      if k !in records then (s, Refused(500))
      else if c.outcome.Fails? then (s.(records := records[k := Settled(records[k], c)]), Refused(c.outcome.status))
      else Finish(s, c, records[k := Settled(records[k], c)])
  }

  function Finish(s: Store, c: Call, records: map<Key, Record>): (Store, Response)
    requires c.outcome.Done?
  {
    match Audited(records, c)
    case None => (s, Refused(if EffectiveKey(c).Some? && EffectiveKey(c).value != "" then 409 else 500))
    case Some(audited) => (Commit(s, c, audited), Returned(ResultOf(c)))
  }

  function OnExecutions(s: Store, c: Call): (Store, Response) {
    if Malformed(c) then (s, Refused(400))
    else if !c.allowed || (c.action == Resume && c.checkpointKey.None?) then (s, Refused(409))
    else if Claims(c.action) && EffectiveKey(c).Some? && Key(c.tenantId, EffectiveKey(c).value) in s.records
    then (s, Reuse(s, c, Key(c.tenantId, EffectiveKey(c).value)))
    else Act(s, c)
  }

  /** `execute_trigger`: only an invocation claims a key, and it is looked up before the availability. */
  function OnTriggers(s: Store, c: Call): (Store, Response) {
    if Malformed(c) then (s, Refused(400))
    else if c.action == Invoke && Key(c.tenantId, c.key.value) in s.records
      then (s, Reuse(s, c, Key(c.tenantId, c.key.value)))
    else if !c.allowed then (s, Refused(409))
    else if c.action == Invoke then Act(s, c)
    else if c.outcome.Fails? then (s, Refused(c.outcome.status))
    else Finish(s, c, s.records)
  }

  function Perform(s: Store, c: Call): (Store, Response) {
    if OnExecution(c.action) then OnExecutions(s, c) else OnTriggers(s, c)
  }

  // ---------------------------------------------------------------- calls in one transaction or two

  /** The invocation claims its key and may act. */
  predicate CanBegin(s: Store, c: Call) {
    c.action == Invoke && !Malformed(c) && Key(c.tenantId, c.key.value) !in s.records && c.allowed
  }

  /** The early commit of an invocation stores its claim, and the execution that it has created and is running. */
  function Begun(s: Store, c: Call, execution: Id): Store
    requires CanBegin(s, c)
  {
    s.(records := s.records[Key(c.tenantId, c.key.value) := Record(Invoke, c.resource, Started, None)],
       executions := s.executions + {(c.tenantId, execution)})
  }

  /** The second transaction of an invocation. */
  function Closed(s: Store, c: Call, k: Key): Store {
    if k !in s.records then s
    else if c.outcome.Fails? then s.(records := s.records[k := Settled(s.records[k], c)])
    else Finish(s, c, s.records[k := Settled(s.records[k], c)]).0
  }

  /**
   `open` are the invocations between their two transactions, which can only succeed with the execution
   they created. `left` remembers the keys of those that
   committed early and since then neither closed nor were overwritten.
   */
  datatype World = World(store: Store, open: map<Key, Call>, left: set<Key>)

  /** A call that is interrupted before its only commit leaves no trace and is not a step. */
  datatype Step =
    | Whole(call: Call)
    | Begins(call: Call, execution: Id)
    | Closes(key: Key, failure: Option<int>)
    | Drops(key: Key)

  function Closing(c: Call, failure: Option<int>): Call {
    if failure.Some? then c.(outcome := Fails(failure.value)) else c
  }

  function Apply(w: World, step: Step): World {
    match step
    case Whole(c) => World(Perform(w.store, c).0, w.open, w.left - OverwrittenBy(w.store, c))
    case Begins(c, execution) =>
      if !CanBegin(w.store, c) then w
      else
        var k := Key(c.tenantId, c.key.value);
        World(Begun(w.store, c, execution), w.open[k := c.(outcome := Done(execution))], w.left + {k})
    case Closes(k, failure) =>
      if k in w.open then World(Closed(w.store, Closing(w.open[k], failure), k), w.open - {k}, w.left - {k}) else w
    case Drops(k) => w.(open := w.open - {k})
  }

  function After(w: World, steps: seq<Step>): World
    decreases |steps|
  {
    if steps == [] then w else After(Apply(w, steps[0]), steps[1..])
  }

  function Start(): World {
    World(Store(map[], {}, []), map[], {})
  }

  /**
   The calls that write to a record that is already there: those that carry its key without claiming
   it, once they are allowed to act, and for a trigger only if they succeed.
   */
  predicate Overwrites(c: Call, k: Key, s: Store) {
    !Claims(c.action) && c.key == Some(k.key) && c.tenantId == k.tenantId && !Malformed(c) && c.allowed &&
    (c.outcome.Done? && k.key == "" ==> OnExecution(c.action) && Key(c.tenantId, c.unused) !in s.records) &&
    (OnExecution(c.action) || c.outcome.Done?)
  }

  function OverwrittenBy(s: Store, c: Call): set<Key> {
    if c.key.Some? && Overwrites(c, Key(c.tenantId, c.key.value), s) then {Key(c.tenantId, c.key.value)} else {}
  }

  // ---------------------------------------------------------------- the service

  class Service {
    var records: map<Key, Record>
    var executions: set<(nat, Id)>
    var effects: seq<Effect>
    var open: map<Key, Call>

    ghost function State(): Store
      reads this
    {
      Store(records, executions, effects)
    }

    constructor ()
      ensures State() == Start().store && open == map[]
    {
      records, executions, effects, open := map[], {}, [], map[];
    }

    /** `_claim_idempotency`: registers the key unless it is there. */
    method Claim(c: Call, k: Key) returns (existing: Option<Record>)
      modifies this`records
      ensures if k in old(records) then existing == Some(old(records)[k]) && records == old(records)
              else existing == None && records == old(records)[k := Record(c.action, c.resource, Started, None)]
    {
      if k in records {
        return Some(records[k]);
      }
      records := records[k := Record(c.action, c.resource, Started, None)];
      return None;
    }

    /** `_finish_idempotency`: settles the record of the key, or fails when there is none. */
    method Settle(c: Call, k: Key) returns (found: bool)
      modifies this`records
      ensures found == (k in old(records))
      ensures records == if found then old(records)[k := Settled(old(records)[k], c)] else old(records)
    {
      found := k in records;
      if found {
        records := records[k := Settled(records[k], c)];
      }
    }

    /** `_audit` and the commit; the transaction is rolled back when the record of the key is missing. */
    method Close(c: Call, ghost s: Store, rollback: map<Key, Record>) returns (r: Response)
      requires c.outcome.Done? && s == Store(rollback, executions, effects)
      modifies this`records, this`executions, this`effects
      ensures (State(), r) == Finish(s, c, old(records))
    {
      var key := EffectiveKey(c);
      if key.Some? && key.value != "" {
        var found := Settle(c, Key(c.tenantId, key.value));
        if !found {
          records := rollback;
          return Refused(409);
        }
      } else {
        var existing := Claim(c, Key(c.tenantId, c.unused));
        if existing.Some? {
          records := rollback;
          return Refused(500);
        }
        var _ := Settle(c, Key(c.tenantId, c.unused));
        assert records == old(records)[Key(c.tenantId, c.unused) :=
               Settled(Record(c.action, c.resource, Started, None), c)];
      }
      if ResultOf(c).WorkflowExecution? {
        executions := executions + {(c.tenantId, ResultOf(c).id)};
      }
      effects := effects + [Effect(c.tenantId, UsedKey(c), c.action, c.resource, ResultOf(c))];
      return Returned(ResultOf(c));
    }

    /** The action itself, with the key already claimed where it must be. */
    method Execute(c: Call, ghost s: Store, rollback: map<Key, Record>) returns (r: Response)
      requires s == Store(rollback, executions, effects)
      requires records == if EffectiveKey(c).Some? then WithClaim(rollback, c, Key(c.tenantId, EffectiveKey(c).value))
               else rollback
      modifies this`records, this`executions, this`effects
      ensures (State(), r) == Act(s, c)
    {
      var key := EffectiveKey(c);
      if key.Some? {
        var found := Settle(c, Key(c.tenantId, key.value));
        if !found {
          records := rollback;
          return Refused(500);
        }
      }
      if c.outcome.Fails? {
        return Refused(c.outcome.status);
      }
      r := Close(c, s, rollback);
    }

    method ExecuteExecution(c: Call) returns (r: Response)
      modifies this`records, this`executions, this`effects
      ensures (State(), r) == OnExecutions(old(State()), c)
    {
      if Malformed(c) {
        return Refused(400);
      }
      if !c.allowed || (c.action == Resume && c.checkpointKey.None?) {
        return Refused(409);
      }
      var rollback, key := records, EffectiveKey(c);
      if Claims(c.action) && key.Some? {
        var existing := Claim(c, Key(c.tenantId, key.value));
        if existing.Some? {
          return Reuse(Store(records, executions, effects), c, Key(c.tenantId, key.value));
        }
      }
      r := Execute(c, old(State()), rollback);
    }

    method ExecuteTrigger(c: Call) returns (r: Response)
      requires !OnExecution(c.action)
      modifies this`records, this`executions, this`effects
      ensures (State(), r) == OnTriggers(old(State()), c)
    {
      if Malformed(c) {
        return Refused(400);
      }
      var rollback := records;
      if c.action == Invoke {
        var existing := Claim(c, Key(c.tenantId, c.key.value));
        if existing.Some? {
          return Reuse(Store(records, executions, effects), c, Key(c.tenantId, c.key.value));
        }
      }
      if !c.allowed {
        records := rollback;
        return Refused(409);
      }
      if c.action == Invoke {
        r := Execute(c, old(State()), rollback);
      } else if c.outcome.Fails? {
        return Refused(c.outcome.status);
      } else {
        r := Close(c, old(State()), rollback);
      }
    }

    /**
     The first half of an invocation that commits early: the claim, the execution, and then the commit of
     the circuit breaker.
     */
    method BeginInvocation(c: Call, execution: Id) returns (begun: bool)
      modifies this`records, this`executions, this`open
      ensures begun == CanBegin(old(State()), c)
      ensures State() == if begun then Begun(old(State()), c, execution) else old(State())
      ensures open == if begun then old(open)[Key(c.tenantId, c.key.value) := c.(outcome := Done(execution))]
              else old(open)
    {
      if c.action != Invoke || Malformed(c) || !c.allowed {
        return false;
      }
      var existing := Claim(c, Key(c.tenantId, c.key.value));
      if existing.Some? {
        return false;
      }
      executions := executions + {(c.tenantId, execution)};
      open := open[Key(c.tenantId, c.key.value) := c.(outcome := Done(execution))];
      return true;
    }

    /** The second half: the record of the key is settled, and a success is audited. */
    method CloseInvocation(k: Key, failure: Option<int>)
      requires k in open && EffectiveKey(open[k]) == Some(k.key) && open[k].tenantId == k.tenantId && k.key != ""
      modifies this
      ensures State() == Closed(old(State()), Closing(old(open)[k], failure), k) && open == old(open) - {k}
    {
      var c := Closing(open[k], failure);
      open := open - {k};
      ghost var s := State();
      var rollback := records;
      var found := Settle(c, k);
      if found && c.outcome.Done? {
        var _ := Close(c, s, rollback);
      }
    }
  }

  // ---------------------------------------------------------------- which records stay started

  /** A record is settled: succeeded with a result, or failed without one. */
  predicate IsSettled(r: Record) {
    (r.status == Succeeded && r.result.Some?) || (r.status == Failed && r.result.None?)
  }

  /** An open invocation has a record and an execution of its own. */
  predicate OpenInv(w: World, k: Key) {
    k in w.open ==>
      w.open[k].action == Invoke && w.open[k].key == Some(k.key) && w.open[k].tenantId == k.tenantId && k.key != "" &&
      k in w.store.records && w.open[k].outcome.Done? &&
      (k.tenantId, w.open[k].outcome.execution) in w.store.executions
  }

  predicate StartedInv(w: World, k: Key) {
    (k in w.left ==> k in w.store.records) &&
    (k in w.store.records ==>
     if k in w.left then w.store.records[k].status == Started else IsSettled(w.store.records[k]))
  }

  ghost predicate Inv(w: World) {
    forall k :: OpenInv(w, k) && StartedInv(w, k)
  }

  /** A committed record is overwritten by exactly these calls, and by no other; it is never deleted. */
  lemma RecordAfter(s: Store, c: Call, k: Key)
    requires k in s.records
    ensures k in Perform(s, c).0.records
    ensures Perform(s, c).0.records[k] == if Overwrites(c, k, s) then Settled(s.records[k], c) else s.records[k]
  {
  }

  /** A call in one transaction leaves only settled records behind. */
  lemma NewRecordSettled(s: Store, c: Call, k: Key)
    requires k !in s.records && k in Perform(s, c).0.records
    ensures IsSettled(Perform(s, c).0.records[k])
  {
  }

  lemma ClosedRecords(s: Store, c: Call, k: Key)
    requires k in s.records && k.key != "" && EffectiveKey(c) == Some(k.key) && c.tenantId == k.tenantId
    ensures Closed(s, c, k).records == s.records[k := Settled(s.records[k], c)]
  {
  }

  lemma WholeKeepsKey(w: World, c: Call, k: Key)
    requires OpenInv(w, k) && StartedInv(w, k)
    ensures OpenInv(Apply(w, Whole(c)), k) && StartedInv(Apply(w, Whole(c)), k)
  {
    if k in w.store.records {
      RecordAfter(w.store, c, k);
    } else if k in Perform(w.store, c).0.records {
      NewRecordSettled(w.store, c, k);
    }
  }

  lemma StepKeepsKey(w: World, step: Step, k: Key)
    requires Inv(w)
    ensures OpenInv(Apply(w, step), k) && StartedInv(Apply(w, step), k)
  {
    assert OpenInv(w, k) && StartedInv(w, k);
    match step
    case Whole(c) => WholeKeepsKey(w, c, k);
    case Begins(_, _) =>
    case Closes(closed, failure) =>
      if closed in w.open {
        assert OpenInv(w, closed);
        ClosedRecords(w.store, Closing(w.open[closed], failure), closed);
      }
    case Drops(_) =>
  }

  lemma {:induction false} RunKeeps(w: World, steps: seq<Step>)
    requires Inv(w)
    ensures Inv(After(w, steps))
    decreases |steps|
  {
    if steps != [] {
      forall k ensures OpenInv(Apply(w, steps[0]), k) && StartedInv(Apply(w, steps[0]), k) {
        StepKeepsKey(w, steps[0], k);
      }
      RunKeeps(Apply(w, steps[0]), steps[1..]);
    }
  }

  /**
   In every reachable state a committed record is `started` if and only if its invocation committed
   early and has since neither closed nor been overwritten; every other record has succeeded with a
   result or failed without one.
   */
  lemma StartedExactly(steps: seq<Step>, k: Key)
    requires k in After(Start(), steps).store.records
    ensures var w := After(Start(), steps); var r := w.store.records[k];
            (r.status == Started <==> k in w.left) && (r.status != Started ==> IsSettled(r))
  {
    RunKeeps(Start(), steps);
    assert StartedInv(After(Start(), steps), k);
  }

  predicate NoEarlyCommit(steps: seq<Step>) {
    forall i | 0 <= i < |steps| :: !steps[i].Begins?
  }

  /** So if no invocation commits early, no record is ever left started. */
  lemma {:induction false} NeverLeftStarted(w: World, steps: seq<Step>)
    requires Inv(w) && w.left == {} && NoEarlyCommit(steps)
    ensures forall k | k in After(w, steps).store.records :: IsSettled(After(w, steps).store.records[k])
    decreases |steps|
  {
    if steps == [] {
      assert forall k | k in w.store.records :: StartedInv(w, k);
    } else {
      forall k ensures OpenInv(Apply(w, steps[0]), k) && StartedInv(Apply(w, steps[0]), k) {
        StepKeepsKey(w, steps[0], k);
      }
      assert !steps[0].Begins?;
      NeverLeftStarted(Apply(w, steps[0]), steps[1..]);
    }
  }

  // ---------------------------------------------------------------- when a record changes

  /** The step writes another value to a record that is there. */
  predicate Rewrites(w: World, step: Step, k: Key) {
    k in w.store.records &&
    match step
    case Whole(c) => Overwrites(c, k, w.store) && Settled(w.store.records[k], c) != w.store.records[k]
    case Closes(closed, failure) =>
      closed == k && k in w.open && Settled(w.store.records[k], Closing(w.open[k], failure)) != w.store.records[k]
    case _ => false
  }

  /**
   A committed record changes if and only if a call that does not claim its key overwrites it, or its
   own invocation closes.
   */
  lemma RecordAfterStep(w: World, step: Step, k: Key)
    requires Inv(w) && k in w.store.records
    ensures k in Apply(w, step).store.records
    ensures Apply(w, step).store.records[k] != w.store.records[k] <==> Rewrites(w, step, k)
  {
    match step
    case Whole(c) => RecordAfter(w.store, c, k);
    case Begins(_, _) =>
    case Closes(closed, failure) =>
      if closed in w.open {
        assert OpenInv(w, closed);
        ClosedRecords(w.store, Closing(w.open[closed], failure), closed);
      }
    case Drops(_) =>
  }

  /** A call gives its key only to an action that claims it. */
  predicate Proper(c: Call) {
    c.key.Some? ==> Claims(c.action)
  }

  predicate AllProper(steps: seq<Step>) {
    forall i | 0 <= i < |steps| :: steps[i].Whole? ==> Proper(steps[i].call)
  }

  /** With proper calls a committed record whose invocation is not under way never changes again. */
  lemma {:induction false} RecordIsFinal(w: World, steps: seq<Step>, k: Key)
    requires Inv(w) && k in w.store.records && k !in w.open && AllProper(steps)
    ensures var w' := After(w, steps);
            k in w'.store.records && k !in w'.open && w'.store.records[k] == w.store.records[k]
    decreases |steps|
  {
    if steps != [] {
      assert steps[0].Whole? ==> Proper(steps[0].call);
      RecordAfterStep(w, steps[0], k);
      RunKeeps(w, [steps[0]]);
      assert [steps[0]][1..] == [] && After(w, [steps[0]]) == After(Apply(w, steps[0]), []);
      RecordIsFinal(Apply(w, steps[0]), steps[1..], k);
    }
  }

  // ---------------------------------------------------------------- one effect for each key

  predicate SameKey(a: Effect, b: Effect) {
    a.tenantId == b.tenantId && a.key.Some? && a.key == b.key
  }

  predicate Unique(effects: seq<Effect>) {
    forall i, j | 0 <= i < j < |effects| :: !SameKey(effects[i], effects[j])
  }

  /** The key of every effect has a record. */
  predicate KeysRecorded(s: Store) {
    forall i | 0 <= i < |s.effects| && s.effects[i].key.Some? ::
      Key(s.effects[i].tenantId, s.effects[i].key.value) in s.records
  }

  predicate HasEffect(effects: seq<Effect>, k: Key) {
    exists i :: 0 <= i < |effects| && effects[i].tenantId == k.tenantId && effects[i].key == Some(k.key)
  }

  /**
   A second effect under a key: a call that carries the key without claiming it succeeds although the key
   has an effect, or an invocation closes with success although such a call succeeded while it was under way.
   */
  predicate Repeats(w: World, step: Step) {
    match step
    case Whole(c) =>
      c.outcome.Done? && c.key.Some? && UsedKey(c).Some? && Overwrites(c, Key(c.tenantId, c.key.value), w.store) &&
      HasEffect(w.store.effects, Key(c.tenantId, c.key.value))
    case Closes(k, failure) => failure.None? && k in w.open && HasEffect(w.store.effects, k)
    case _ => false
  }

  predicate NoRepeats(w: World, steps: seq<Step>)
    decreases |steps|
  {
    steps == [] || (!Repeats(w, steps[0]) && NoRepeats(Apply(w, steps[0]), steps[1..]))
  }

  lemma UniqueSnoc(effects: seq<Effect>, e: Effect)
    ensures Unique(effects + [e]) <==>
            Unique(effects) && (e.key.Some? ==> !HasEffect(effects, Key(e.tenantId, e.key.value)))
  {
    var all := effects + [e];
    assert forall i | 0 <= i < |effects| :: all[i] == effects[i];
    if e.key.Some? && HasEffect(effects, Key(e.tenantId, e.key.value)) {
      var i :| 0 <= i < |effects| && effects[i].tenantId == e.tenantId && effects[i].key == e.key;
      assert SameKey(all[i], all[|effects|]);
    }
    if Unique(all) {
      assert forall i, j | 0 <= i < j < |effects| :: SameKey(effects[i], effects[j]) == SameKey(all[i], all[j]);
    }
  }

  predicate Acts(s: Store, c: Call) {
    |Perform(s, c).0.effects| > |s.effects|
  }

  /** What a call in one transaction adds to the effects, and when. */
  lemma WholeEffects(s: Store, c: Call)
    ensures var effects := Perform(s, c).0.effects;
            effects == s.effects ||
            (c.outcome.Done? &&
             effects == s.effects + [Effect(c.tenantId, UsedKey(c), c.action, c.resource, ResultOf(c))])
    ensures Acts(s, c) && UsedKey(c).Some? ==> Key(c.tenantId, UsedKey(c).value) in Perform(s, c).0.records
    ensures UsedKey(c).Some? && Key(c.tenantId, UsedKey(c).value) in s.records ==>
              (Acts(s, c) <==>
                 c.outcome.Done? && c.key == UsedKey(c) && Overwrites(c, Key(c.tenantId, UsedKey(c).value), s))
  {
  }

  lemma WholeKeepsUnique(w: World, c: Call)
    requires KeysRecorded(w.store) && Unique(w.store.effects)
    ensures Unique(Perform(w.store, c).0.effects) <==> !Repeats(w, Whole(c))
  {
    WholeEffects(w.store, c);
    if Acts(w.store, c) {
      UniqueSnoc(w.store.effects, Effect(c.tenantId, UsedKey(c), c.action, c.resource, ResultOf(c)));
    }
  }

  lemma WholeKeepsRecords(s: Store, c: Call)
    ensures s.records.Keys <= Perform(s, c).0.records.Keys
  {
    forall k | k in s.records ensures k in Perform(s, c).0.records {
      RecordAfter(s, c, k);
    }
  }

  lemma StepKeepsRecorded(w: World, step: Step)
    requires Inv(w) && KeysRecorded(w.store)
    ensures KeysRecorded(Apply(w, step).store)
  {
    match step
    case Whole(c) =>
      WholeEffects(w.store, c);
      WholeKeepsRecords(w.store, c);
    case Begins(_, _) =>
    case Closes(k, failure) =>
      if k in w.open {
        assert OpenInv(w, k);
        var c := Closing(w.open[k], failure);
        ClosedRecords(w.store, c, k);
        ClosedEffects(w.store, c, k);
      }
    case Drops(_) =>
  }

  lemma ClosedEffects(s: Store, c: Call, k: Key)
    requires k in s.records && k.key != "" && c.key == Some(k.key) && c.tenantId == k.tenantId
    ensures Closed(s, c, k).effects ==
            if c.outcome.Done? then s.effects + [Effect(c.tenantId, Some(k.key), c.action, c.resource, ResultOf(c))]
               else s.effects
  {
  }

  /** One more step keeps the effects unique if and only if it does not repeat a key. */
  lemma StepKeepsUnique(w: World, step: Step)
    requires Inv(w) && KeysRecorded(w.store) && Unique(w.store.effects)
    ensures KeysRecorded(Apply(w, step).store)
    ensures Unique(Apply(w, step).store.effects) <==> !Repeats(w, step)
  {
    StepKeepsRecorded(w, step);
    match step
    case Whole(c) => WholeKeepsUnique(w, c);
    case Begins(_, _) =>
    case Closes(k, failure) =>
      if k in w.open {
        assert OpenInv(w, k);
        var c := Closing(w.open[k], failure);
        ClosedEffects(w.store, c, k);
        if failure.None? {
          UniqueSnoc(w.store.effects, Effect(c.tenantId, Some(k.key), c.action, c.resource, ResultOf(c)));
        }
      }
    case Drops(_) =>
  }

  lemma StepKeepsEffects(w: World, step: Step)
    requires Inv(w)
    ensures w.store.effects <= Apply(w, step).store.effects && w.store.executions <= Apply(w, step).store.executions
  {
    match step
    case Whole(c) => WholeEffects(w.store, c);
    case Begins(_, _) =>
    case Closes(k, failure) =>
      if k in w.open {
        assert OpenInv(w, k);
        ClosedEffects(w.store, Closing(w.open[k], failure), k);
      }
    case Drops(_) =>
  }

  lemma StepKeepsInv(w: World, step: Step)
    requires Inv(w)
    ensures Inv(Apply(w, step))
  {
    forall k ensures OpenInv(Apply(w, step), k) && StartedInv(Apply(w, step), k) {
      StepKeepsKey(w, step, k);
    }
  }

  lemma {:induction false} RunKeepsRecorded(w: World, steps: seq<Step>)
    requires Inv(w) && KeysRecorded(w.store)
    ensures Inv(After(w, steps)) && KeysRecorded(After(w, steps).store)
    decreases |steps|
  {
    if steps != [] {
      StepKeepsInv(w, steps[0]);
      StepKeepsRecorded(w, steps[0]);
      RunKeepsRecorded(Apply(w, steps[0]), steps[1..]);
    }
  }

  lemma {:induction false} RunKeepsEffects(w: World, steps: seq<Step>)
    requires Inv(w)
    ensures w.store.effects <= After(w, steps).store.effects && w.store.executions <= After(w, steps).store.executions
    decreases |steps|
  {
    if steps != [] {
      StepKeepsInv(w, steps[0]);
      StepKeepsEffects(w, steps[0]);
      RunKeepsEffects(Apply(w, steps[0]), steps[1..]);
    }
  }

  lemma {:induction false} UniqueAlongRun(w: World, steps: seq<Step>)
    requires Inv(w) && KeysRecorded(w.store) && Unique(w.store.effects)
    ensures Unique(After(w, steps).store.effects) <==> NoRepeats(w, steps)
    decreases |steps|
  {
    if steps != [] {
      var w' := Apply(w, steps[0]);
      StepKeepsInv(w, steps[0]);
      StepKeepsUnique(w, steps[0]);
      if Repeats(w, steps[0]) {
        RunKeepsEffects(w', steps[1..]);
      } else {
        UniqueAlongRun(w', steps[1..]);
      }
    }
  }

  /**
   Over any run at most one successful action is committed under each key of a tenant if and only if
   none repeats a key: succeeds without having claimed it, or after another did so, though it has an effect.
   */
  lemma OneEffectPerKey(steps: seq<Step>)
    ensures Unique(After(Start(), steps).store.effects) <==> NoRepeats(Start(), steps)
  {
    UniqueAlongRun(Start(), steps);
  }

  /** An open invocation has no effect under its key yet. */
  predicate FreshOpen(w: World) {
    forall k | k in w.open :: !HasEffect(w.store.effects, k)
  }

  lemma ProperEffect(w: World, c: Call, k: Key)
    requires Proper(c) && k in w.store.records && !HasEffect(w.store.effects, k)
    ensures !HasEffect(Perform(w.store, c).0.effects, k)
  {
    WholeEffects(w.store, c);
  }

  /** Only its own invocation gives a recorded key an effect. */
  lemma ProperStepKeepsUnused(w: World, step: Step, k: Key)
    requires Inv(w) && k in w.store.records && !HasEffect(w.store.effects, k) && (step.Whole? ==> Proper(step.call))
    requires !(step.Closes? && step.key == k && k in w.open)
    ensures !HasEffect(Apply(w, step).store.effects, k)
  {
    match step
    case Whole(c) => ProperEffect(w, c, k);
    case Begins(_, _) =>
    case Closes(closed, failure) =>
      if closed in w.open {
        assert OpenInv(w, closed);
        ClosedEffects(w.store, Closing(w.open[closed], failure), closed);
      }
    case Drops(_) =>
  }

  lemma ProperStepKeepsFresh(w: World, step: Step)
    requires Inv(w) && FreshOpen(w) && KeysRecorded(w.store) && (step.Whole? ==> Proper(step.call))
    ensures FreshOpen(Apply(w, step))
  {
    forall k | k in w.open && k in Apply(w, step).open ensures !HasEffect(Apply(w, step).store.effects, k) {
      assert OpenInv(w, k);
      ProperStepKeepsUnused(w, step, k);
    }
  }

  lemma {:induction false} UnusedForever(w: World, steps: seq<Step>, k: Key)
    requires Inv(w) && k in w.store.records && k !in w.open && !HasEffect(w.store.effects, k) && AllProper(steps)
    ensures !HasEffect(After(w, steps).store.effects, k)
    decreases |steps|
  {
    if steps != [] {
      assert steps[0].Whole? ==> Proper(steps[0].call);
      StepKeepsInv(w, steps[0]);
      RecordAfterStep(w, steps[0], k);
      ProperStepKeepsUnused(w, steps[0], k);
      UnusedForever(Apply(w, steps[0]), steps[1..], k);
    }
  }

  /** Proper calls repeat no key, whether or not they commit early. */
  lemma {:induction false} ProperCallsRepeatNothing(w: World, steps: seq<Step>)
    requires Inv(w) && FreshOpen(w) && KeysRecorded(w.store) && Unique(w.store.effects) && AllProper(steps)
    ensures NoRepeats(w, steps)
    decreases |steps|
  {
    if steps != [] {
      assert steps[0].Whole? ==> Proper(steps[0].call);
      StepKeepsInv(w, steps[0]);
      StepKeepsUnique(w, steps[0]);
      ProperStepKeepsFresh(w, steps[0]);
      ProperCallsRepeatNothing(Apply(w, steps[0]), steps[1..]);
    }
  }

  // ---------------------------------------------------------------- what a key decides

  /** Results are executions unless a trigger was administered, and they exist. */
  predicate ResultExists(s: Store, k: Key) {
    k in s.records && s.records[k].status == Succeeded ==>
      s.records[k].result.Some? &&
      (Claims(s.records[k].action) ==> s.records[k].result.value.WorkflowExecution?) &&
      (s.records[k].result.value.WorkflowExecution? ==> (k.tenantId, s.records[k].result.value.id) in s.executions)
  }

  lemma WholeKeepsResult(s: Store, c: Call, k: Key)
    requires Proper(c) && ResultExists(s, k)
    ensures ResultExists(Perform(s, c).0, k)
  {
  }

  lemma StepKeepsResult(w: World, step: Step, k: Key)
    requires Inv(w) && ResultExists(w.store, k) && (step.Whole? ==> Proper(step.call))
    ensures ResultExists(Apply(w, step).store, k)
  {
    match step
    case Whole(c) => WholeKeepsResult(w.store, c, k);
    case Begins(_, _) =>
    case Closes(closed, failure) =>
      if closed in w.open {
        assert OpenInv(w, closed);
      }
    case Drops(_) =>
  }

  lemma {:induction false} RunKeepsResult(w: World, steps: seq<Step>, k: Key)
    requires Inv(w) && ResultExists(w.store, k) && AllProper(steps)
    ensures ResultExists(After(w, steps).store, k)
    decreases |steps|
  {
    if steps != [] {
      assert steps[0].Whole? ==> Proper(steps[0].call);
      StepKeepsInv(w, steps[0]);
      StepKeepsResult(w, steps[0], k);
      RunKeepsResult(Apply(w, steps[0]), steps[1..], k);
    }
  }

  /**
   The record of a key whose invocation is not under way decides every later call with it: after a
   success the same invocation returns the same execution whatever the trigger's status or the service
   would do, and the same retry or resumption does so while it is available; after a failure or an
   interrupted invocation, or for anything else under that key, the call is refused. The store does not change.
   */
  lemma KeyDecidesLaterCalls(past: seq<Step>, future: seq<Step>, k: Key, c: Call)
    requires AllProper(past) && AllProper(future) && k in After(Start(), past).store.records &&
             k !in After(Start(), past).open
    requires Proper(c) && Claims(c.action) && !Malformed(c) && c.tenantId == k.tenantId &&
             EffectiveKey(c) == Some(k.key)
    ensures var r := After(Start(), past).store.records[k]; var s := After(After(Start(), past), future).store;
            Perform(s, c).0 == s && (r.status == Succeeded ==> r.result.Some?) &&
            Perform(s, c).1 ==
            if (OnExecution(c.action) && (!c.allowed || (c.action == Resume && c.checkpointKey.None?))) ||
               r.action != c.action || r.resource != c.resource || r.status != Succeeded
            then Refused(409) else Returned(r.result.value)
  {
    var w := After(Start(), past);
    RunKeeps(Start(), past);
    RunKeepsResult(Start(), past, k);
    RunKeepsResult(w, future, k);
    RecordIsFinal(w, future, k);
    assert ResultExists(After(w, future).store, k);
  }

  /** While an invocation is under way after its early commit, every call that claims its key is refused. */
  lemma OpenKeyRefuses(steps: seq<Step>, k: Key, c: Call)
    requires var w := After(Start(), steps); k in w.store.records && w.store.records[k].status == Started
    requires Claims(c.action) && !Malformed(c) && c.tenantId == k.tenantId && EffectiveKey(c) == Some(k.key)
    ensures var s := After(Start(), steps).store; Perform(s, c) == (s, Refused(409))
  {
  }

  // ---------------------------------------------------------------- what a single call does

  /** Destructive actions need a confirmation, and retries and invocations a key. */
  lemma IncompleteCallIsRefused(s: Store, c: Call)
    requires (c.action in {Cancel, Retry, Resume, Enable, Disable, Delete} && !c.confirm) ||
             (c.action in {Retry, Invoke} && c.key in {None, Some("")})
    ensures Perform(s, c) == (s, Refused(400))
  {
  }

  /** With both, an action whose resource is not in a state for it is refused, unless its key is known. */
  lemma UnavailableActionIsRefused(s: Store, c: Call)
    requires c.action in {Run, Invoke} || c.confirm
    requires c.action in {Retry, Invoke} ==> c.key !in {None, Some("")}
    requires !c.allowed && (c.action == Invoke ==> Key(c.tenantId, c.key.value) !in s.records)
    ensures Perform(s, c) == (s, Refused(409))
  {
  }

  /** The call has its confirmation and its key, and its action is possible, where that is asked for. */
  predicate Possible(c: Call) {
    (c.action in {Run, Invoke} || c.confirm) && (c.action in {Retry, Invoke} ==> c.key !in {None, Some("")}) &&
    (c.action == Invoke || (c.allowed && (c.action == Resume ==> c.checkpointKey.Some?)))
  }

  /**
   What a used key gives to a call that claims it: the execution it names, if a success of the same action
   on the same resource is recorded there and its execution still exists, and otherwise a conflict.
   */
  lemma UsedKeyGives(s: Store, c: Call)
    requires Possible(c) && c.action in {Retry, Resume, Invoke} && Key(c.tenantId, KeyInUse(c)) in s.records
    ensures var r := s.records[Key(c.tenantId, KeyInUse(c))];
            Perform(s, c) ==
            (s, if r.action == c.action && r.resource == c.resource && r.status == Succeeded && r.result.Some? &&
                   r.result.value.WorkflowExecution? && (c.tenantId, r.result.value.id) in s.executions
                then Returned(r.result.value) else Refused(409))
  {
  }

  /**
   An action that claims no key fails under a key that nobody registered: on an execution with an internal
   error, and on a trigger, if it succeeded, with a conflict. An internal name that is taken is an internal error.
   */
  lemma UnregisteredKeyFails(s: Store, c: Call)
    requires Possible(c) && c.allowed && c.action !in {Retry, Resume, Invoke}
    ensures c.key.Some? && c.action in {Run, Cancel} && Key(c.tenantId, c.key.value) !in s.records ==>
              Perform(s, c) == (s, Refused(500))
    ensures c.key.Some? && c.key.value != "" && c.action in {Enable, Disable, Delete} && c.outcome.Done? &&
            Key(c.tenantId, c.key.value) !in s.records ==>
              Perform(s, c) == (s, Refused(409))
    ensures c.key.None? && c.outcome.Done? && Key(c.tenantId, c.unused) in s.records ==>
              Perform(s, c) == (s, Refused(500))
  {
    if c.outcome.Done? && c.key.Some? && c.key.value != "" && Key(c.tenantId, c.key.value) !in s.records {
      assert Audited(s.records, c).None?;
      assert c.action in {Enable, Disable, Delete} ==> !Malformed(c) && Perform(s, c) == Finish(s, c, s.records);
    }
  }

  /** An invocation reaches its early commit exactly if it brings an unused key and its trigger may be invoked. */
  lemma BeginPasses(s: Store, c: Call)
    ensures CanBegin(s, c) <==>
            c.action == Invoke && c.allowed && c.key.Some? && c.key.value != "" &&
            Key(c.tenantId, c.key.value) !in s.records
  {
  }

  /** The call may act, and under a key that nobody used, whether it was given one or a checkpoint gives it. */
  predicate FirstUse(s: Store, c: Call) {
    (c.action in {Run, Invoke} || c.confirm) && (c.action in {Retry, Invoke} ==> c.key !in {None, Some("")}) &&
    c.allowed && (c.action == Resume ==> c.checkpointKey.Some? && c.key != Some("") && c.checkpointKey != Some("")) &&
    (c.action in {Retry, Resume, Invoke} ==> Key(c.tenantId, KeyInUse(c)) !in s.records) &&
    (c.action !in {Retry, Resume, Invoke} ==> c.key.None?) && Key(c.tenantId, c.unused) !in s.records
  }

  /** The key that a retry, a resumption or an invocation registers. */
  function KeyInUse(c: Call): string {
    if c.key.Some? then c.key.value
    else if c.action == Resume && c.checkpointKey.Some? then c.checkpointKey.value else c.unused
  }

  /** The resource that a success names: the one acted on, or the execution that was made. */
  function Named(c: Call): Resource {
    match c.action
    case Run => WorkflowExecution(c.resource)
    case Cancel => WorkflowExecution(c.resource)
    case Retry => WorkflowExecution(MadeBy(c))
    case Resume => WorkflowExecution(MadeBy(c))
    case Invoke => WorkflowExecution(MadeBy(c))
    case Enable => WorkflowTrigger(c.resource)
    case Disable => WorkflowTrigger(c.resource)
    case Delete => WorkflowTrigger(c.resource)
  }

  function MadeBy(c: Call): Id {
    if c.outcome.Done? then c.outcome.execution else c.resource
  }

  /**
   A first use leaves exactly one record: that of its key, or an internal one if it has none. A success
   names its resource there, returns it and is audited once; a failure returns the error of the service, and
   leaves a failed record under a registered key only.
   */
  lemma FirstUseActs(s: Store, c: Call)
    requires FirstUse(s, c)
    ensures var (s', r) := Perform(s, c); var k := Key(c.tenantId, KeyInUse(c));
            match c.outcome
            case Done(_) =>
              r == Returned(Named(c)) &&
              s'.records == s.records[k := Record(c.action, c.resource, Succeeded, Some(Named(c)))] &&
              s'.effects == s.effects +
                            [Effect(c.tenantId, if c.action in {Retry, Resume, Invoke} then Some(k.key) else None,
                                    c.action, c.resource, Named(c))]
            case Fails(status) =>
              r == Refused(status) && s'.effects == s.effects && s'.executions == s.executions &&
              s'.records == if c.action in {Retry, Resume, Invoke}
                            then s.records[k := Record(c.action, c.resource, Failed, None)] else s.records
  {
  }

  // ---------------------------------------------------------------- interrupted invocations

  /** The state an invocation leaves that commits early and is then interrupted. */
  function Interrupted(w: World, c: Call, execution: Id): World
    requires CanBegin(w.store, c)
  {
    Apply(Apply(w, Begins(c, execution)), Drops(Key(c.tenantId, c.key.value)))
  }

  /**
   An invocation that is interrupted after its early commit, in any reachable state, leaves its record
   started for good: whatever proper calls follow, a call that claims its key is refused. The execution
   it created stays, but no successful action is ever recorded under the key.
   */
  lemma InterruptedInvocationIsStranded(past: seq<Step>, c: Call, execution: Id, future: seq<Step>, later: Call)
    requires AllProper(future) && CanBegin(After(Start(), past).store, c)
    requires Claims(later.action) && !Malformed(later) && later.tenantId == c.tenantId && EffectiveKey(later) == c.key
    ensures var k := Key(c.tenantId, c.key.value);
            var s := After(Interrupted(After(Start(), past), c, execution), future).store;
            k in s.records && s.records[k] == Record(Invoke, c.resource, Started, None) &&
            (c.tenantId, execution) in s.executions && !HasEffect(s.effects, k) &&
            Perform(s, later) == (s, Refused(409))
  {
    var k, w := Key(c.tenantId, c.key.value), After(Start(), past);
    RunKeepsRecorded(Start(), past);
    StepKeepsInv(w, Begins(c, execution));
    StepKeepsInv(Apply(w, Begins(c, execution)), Drops(k));
    RecordIsFinal(Interrupted(w, c, execution), future, k);
    UnusedForever(Interrupted(w, c, execution), future, k);
    RunKeepsEffects(Interrupted(w, c, execution), future);
  }

  // ---------------------------------------------------------------- bad runs

  function InvokeCall(outcome: Outcome): Call {
    Call(0, Invoke, 1, Some("k"), false, true, None, outcome, "")
  }

  function RunCall(outcome: Outcome): Call {
    Call(0, Run, 2, Some("k"), false, true, None, outcome, "")
  }

  lemma AfterTwo(w: World, a: Step, b: Step)
    ensures After(w, [a, b]) == Apply(Apply(w, a), b)
  {
    assert [a, b][1..] == [b] && [b][1..] == [];
    assert After(Apply(w, a), [b]) == After(Apply(Apply(w, a), b), []);
  }

  /**
   An action that carries a key without claiming it settles the record of whoever did: if it fails, a
   successful invocation can no longer be replayed; if it succeeds, there are two effects under one key,
   and a failed invocation is replayed as an execution it never made.
   */
  lemma SharedKeyBreaksReplay(execution: Id)
    ensures var s := After(Start(), [Whole(InvokeCall(Done(execution))), Whole(RunCall(Fails(409)))]).store;
            |s.effects| == 1 && s.effects[0].result == WorkflowExecution(execution) &&
            Perform(s, InvokeCall(Done(execution))).1 == Refused(409)
    ensures var effects :=
            After(Start(), [Whole(InvokeCall(Done(execution))), Whole(RunCall(Done(execution)))]).store.effects;
            |effects| == 2 && SameKey(effects[0], effects[1])
    ensures var s := After(Start(), [Whole(InvokeCall(Fails(409))), Whole(RunCall(Done(execution)))]).store;
            Perform(s, InvokeCall(Done(execution))).1 == Returned(WorkflowExecution(2))
  {
    AfterTwo(Start(), Whole(InvokeCall(Done(execution))), Whole(RunCall(Fails(409))));
    AfterTwo(Start(), Whole(InvokeCall(Done(execution))), Whole(RunCall(Done(execution))));
    AfterTwo(Start(), Whole(InvokeCall(Fails(409))), Whole(RunCall(Done(execution))));
  }
}
