/**
 Whole runs of agent delegation: any interleaving of executions starting and changing status, and of
 delegations being created, claimed, finished and cancelled. Creating locks the source execution,
 claiming and finishing lock the delegation, so each of those calls is one atomic step. Cancelling locks
 nothing: it reads in one step and writes in a later one.
 */
module DelegationProtocol {
  import opened Wrappers
  import opened Delegation
  import Text

  datatype Step =
    | Starts(tenantId: nat, createdBy: nat)
    | Moves(execution: Id, status: ExecutionStatus)
    | Creates(request: Request)
    | Claims(tenantId: nat, d: Id, owner: string, now: int)
    | Finishes(tenantId: nat, d: Id, worker: Id, outcome: Outcome, now: int)
    | CancelReads(ticket: nat, tenantId: nat, source: Id, d: Id, actor: nat, admin: bool)
    | CancelWrites(ticket: nat, now: int)

  /** What a step does; a refused call changes nothing. */
  ghost function Apply(s: Settings, t: Tables, step: Step): Tables {
    match step
    case Starts(tenantId, createdBy) =>
      t.(nextId := t.nextId + 1,
         executions := t.executions[t.nextId := Execution(tenantId, createdBy, ExecutionPending, None, None)])
    case Moves(e, status) =>
      if e in t.executions then t.(executions := t.executions[e := t.executions[e].(status := status)]) else t
    case Creates(r) => if CanCreate(t, s, r) then Created(t, s, r) else t
    case Claims(tenantId, d, owner, now) =>
      if ClaimRefusal(t, tenantId, d, owner, now).None? then Claimed(t, tenantId, d, owner, now) else t
    case Finishes(tenantId, d, worker, o, now) =>
      if FinishRefusal(t, tenantId, d, worker, o).None? then Finished(t, d, o, now) else t
    case CancelReads(ticket, tenantId, source, d, actor, admin) =>
      if ticket !in t.cancels && CancelRefusal(t, tenantId, source, d, actor, admin).None?
         then t.(cancels := t.cancels[ticket := d]) else t
    case CancelWrites(ticket, now) => if CanWrite(t, ticket) then CancelWritten(t, ticket, now) else t
  }

  predicate CanWrite(t: Tables, ticket: nat) {
    ticket in t.cancels && t.cancels[ticket] in t.delegations
  }

  ghost function Run(s: Settings, t: Tables, steps: seq<Step>): Tables
    decreases |steps|
  {
    if steps == [] then t else Run(s, Apply(s, t, steps[0]), steps[1..])
  }

  function Start(): Tables {
    Tables(0, map[], map[], [], map[])
  }

  // ---------------------------------------------------------------- the forest

  /** Every worker execution is newer than the source of its delegation, and belongs to one delegation. */
  ghost predicate Forest(t: map<Id, DelegationRow>) {
    UniqueWorkers(t) && forall d | d in t && t[d].worker.Some? :: t[d].source < t[d].worker.value
  }

  lemma ParentOlder(t: map<Id, DelegationRow>, e: Id)
    requires Forest(t)
    ensures ParentOf(t, e).Some? ==> ParentOf(t, e).value < e
  {
  }

  /** The number of delegations between an execution and the root of its lineage, counting the next one. */
  ghost function Lineage(t: map<Id, DelegationRow>, e: Id): (n: nat)
    requires Forest(t)
    ensures n >= 1
    decreases e
  {
    ParentOlder(t, e);
    match ParentOf(t, e)
    case None => 1
    case Some(source) => 1 + Lineage(t, source)
  }

  function Min(a: nat, b: nat): nat {
    if a < b then a else b
  }

  /** In a forest the walk never meets an execution twice and reports the true lineage up to its cap. */
  lemma {:induction false} WalkIsLineage(t: map<Id, DelegationRow>, e: Id, depth: nat, visited: set<Id>,
                                         settingsMax: int)
    requires Forest(t) && 1 <= depth < DepthCap(settingsMax) && forall v | v in visited :: e < v
    ensures Walk(t, e, depth, visited, settingsMax) == Some(Min(depth + Lineage(t, e) - 1, DepthCap(settingsMax)))
    decreases DepthCap(settingsMax) - depth
  {
    ParentOlder(t, e);
    var parent := ParentOf(t, e);
    if parent.Some? && depth + 1 <= settingsMax + 1 {
      WalkIsLineage(t, parent.value, depth + 1, visited + {e}, settingsMax);
    }
  }

  /** Lineage depends only on which delegations the older executions work for. */
  lemma {:induction false} LineageStable(t: map<Id, DelegationRow>, t': map<Id, DelegationRow>, e: Id)
    requires Forest(t) && Forest(t')
    requires forall a: Id | a <= e :: ParentOf(t, a) == ParentOf(t', a)
    ensures Lineage(t, e) == Lineage(t', e)
    decreases e
  {
    ParentOlder(t, e);
    if ParentOf(t, e).Some? {
      LineageStable(t, t', ParentOf(t, e).value);
    }
  }

  // ---------------------------------------------------------------- invariant

  /** Identifiers are below the next one, and rows refer to executions of their own tenant. */
  predicate References(t: Tables) {
    (forall e | e in t.executions :: e < t.nextId) && (forall d | d in t.delegations :: d < t.nextId) &&
    (forall d | d in t.delegations :: SourceOf(t, t.delegations[d].tenantId, t.delegations[d].source)) &&
    (forall d | d in t.delegations && t.delegations[d].worker.Some? ::
     SourceOf(t, t.delegations[d].tenantId, t.delegations[d].worker.value))
  }

  /** An execution and the delegation it works for have one tenant, so its parent has it too. */
  lemma ParentInTenant(t: Tables, tenantId: nat, e: Id)
    requires References(t) && UniqueWorkers(t.delegations) && SourceOf(t, tenantId, e)
    ensures ParentOf(OfTenant(t.delegations, tenantId), e) == ParentOf(t.delegations, e)
    ensures ParentOf(t.delegations, e).Some? ==> SourceOf(t, tenantId, ParentOf(t.delegations, e).value)
  {
    var own := OfTenant(t.delegations, tenantId);
    if d :| ClaimedBy(t.delegations, d, e) {
      assert ClaimedBy(own, d, e);
      ParentIs(t.delegations, d, e);
      ParentIs(own, d, e);
    } else if d :| ClaimedBy(own, d, e) {
      assert ClaimedBy(t.delegations, d, e);
    }
  }

  /** So the walk loses nothing by looking only at the delegations of its tenant. */
  lemma {:induction false} WalkInTenant(t: Tables, tenantId: nat, e: Id, depth: nat, visited: set<Id>, settingsMax: int)
    requires References(t) && UniqueWorkers(t.delegations) && SourceOf(t, tenantId, e) && depth < DepthCap(settingsMax)
    ensures Walk(OfTenant(t.delegations, tenantId), e, depth, visited, settingsMax) ==
            Walk(t.delegations, e, depth, visited, settingsMax)
    decreases DepthCap(settingsMax) - depth
  {
    ParentInTenant(t, tenantId, e);
    var parent := ParentOf(t.delegations, e);
    if parent.Some? && depth + 1 <= settingsMax + 1 {
      WalkInTenant(t, tenantId, parent.value, depth + 1, visited + {e}, settingsMax);
    }
  }

  lemma DepthIsLineage(t: Tables, tenantId: nat, e: Id, settingsMax: int)
    requires References(t) && Forest(t.delegations) && SourceOf(t, tenantId, e)
    ensures DepthOf(t.delegations, tenantId, e, settingsMax) ==
            Some(Min(Lineage(t.delegations, e), DepthCap(settingsMax)))
  {
    WalkInTenant(t, tenantId, e, 1, {}, settingsMax);
    WalkIsLineage(t.delegations, e, 1, {}, settingsMax);
  }

  predicate RowShape(row: DelegationRow) {
    (row.status == Pending ==> row.worker.None?) &&
    (row.status != Pending && row.status != Cancelled ==> row.worker.Some?)
  }

  /** The unique constraint on tenant, source and key. */
  predicate UniqueKeys(t: map<Id, DelegationRow>) {
    forall d, e | d in t && e in t && t[d].tenantId == t[e].tenantId && t[d].source == t[e].source &&
      t[d].key == t[e].key :: d == e
  }

  predicate Serves(t: Tables, f: Frontier) {
    f.delegation in t.delegations && t.delegations[f.delegation].worker == Some(f.execution)
  }

  /** The frontiers are exactly those of the claimed delegations, one each. */
  predicate FrontierInv(t: Tables) {
    (forall d | d in t.delegations && t.delegations[d].worker.Some? ::
     Frontier(t.delegations[d].worker.value, d) in t.frontiers) &&
    (forall i | 0 <= i < |t.frontiers| :: Serves(t, t.frontiers[i])) &&
    (forall i, j | 0 <= i < j < |t.frontiers| :: t.frontiers[i].execution != t.frontiers[j].execution)
  }

  /** The stored depth is the true lineage up to the cap, and within the requested maximum. */
  ghost predicate DepthInv(s: Settings, t: map<Id, DelegationRow>)
    requires Forest(t)
  {
    forall d | d in t :: t[d].depth == Min(Lineage(t, t[d].source), DepthCap(s.maxDepth)) && t[d].depth <= t[d].maxDepth
  }

  ghost predicate Inv(s: Settings, t: Tables) {
    References(t) && (forall d | d in t.delegations :: RowShape(t.delegations[d])) && UniqueKeys(t.delegations) &&
    FrontierInv(t) &&
    Forest(t.delegations) && DepthInv(s, t.delegations)
  }

  /** Same rows but for fields outside the lineage: parents, and so depths, stay. */
  lemma SameParents(t: map<Id, DelegationRow>, d: Id, row: DelegationRow, e: Id)
    requires Forest(t) && Forest(t[d := row])
    requires if d in t then row.source == t[d].source &&
             (row.worker == t[d].worker || (t[d].worker.None? && row.worker != Some(e))) else row.worker.None?
    ensures ParentOf(t[d := row], e) == ParentOf(t, e)
  {
    var t' := t[d := row];
    if x :| ClaimedBy(t, x, e) {
      ParentIs(t, x, e);
      assert ClaimedBy(t', x, e);
      ParentIs(t', x, e);
    } else if y :| ClaimedBy(t', y, e) {
      assert ClaimedBy(t, y, e);
    }
  }

  lemma UpdateKeepsDepths(s: Settings, t: map<Id, DelegationRow>, d: Id, row: DelegationRow)
    requires Forest(t) && DepthInv(s, t) && Forest(t[d := row])
    requires d in t && row.source == t[d].source && row.depth == t[d].depth && row.maxDepth == t[d].maxDepth
    requires row.worker == t[d].worker ||
             (t[d].worker.None? && row.worker.Some? && forall e | e in t :: t[e].source < row.worker.value)
    ensures DepthInv(s, t[d := row])
  {
    var t' := t[d := row];
    forall e | e in t' ensures Lineage(t', t'[e].source) == Lineage(t, t[e].source) {
      forall a: Id | a <= t[e].source ensures ParentOf(t, a) == ParentOf(t', a) {
        SameParents(t, d, row, a);
      }
      LineageStable(t, t', t[e].source);
    }
  }

  lemma CreateKeepsDepths(s: Settings, t: map<Id, DelegationRow>, d: Id, row: DelegationRow)
    requires Forest(t) && DepthInv(s, t) && Forest(t[d := row]) && d !in t && row.worker.None?
    requires row.depth == Min(Lineage(t, row.source), DepthCap(s.maxDepth)) && row.depth <= row.maxDepth
    ensures DepthInv(s, t[d := row])
  {
    var t' := t[d := row];
    forall e | e in t' ensures Lineage(t', t'[e].source) == Lineage(t, t'[e].source) {
      forall a: Id | a <= t'[e].source ensures ParentOf(t, a) == ParentOf(t', a) {
        SameParents(t, d, row, a);
      }
      LineageStable(t, t', t'[e].source);
    }
  }

  // ---------------------------------------------------------------- every step keeps it

  lemma StatusChangeKeeps(s: Settings, t: Tables, d: Id, row: DelegationRow)
    requires Inv(s, t) && d in t.delegations && RowShape(row)
    requires row == t.delegations[d].(status := row.status, endedAt := row.endedAt, error := row.error)
    ensures Inv(s, t.(delegations := t.delegations[d := row]))
  {
    UniqueAfter(t.delegations, d, row);
    UpdateKeepsDepths(s, t.delegations, d, row);
  }

  lemma NewKeyIsUnique(t: Tables, d: Id, row: DelegationRow)
    requires UniqueKeys(t.delegations) && ByKey(t, row.tenantId, row.source, row.key) == {}
    ensures UniqueKeys(t.delegations[d := row])
  {
    forall e | e in t.delegations ensures !HasKey(t, e, row.tenantId, row.source, row.key) {
      assert e !in ByKey(t, row.tenantId, row.source, row.key);
    }
  }

  lemma NewRowKeepsFrontiers(t: Tables, row: DelegationRow)
    requires References(t) && FrontierInv(t) && row.worker.None?
    ensures FrontierInv(t.(nextId := t.nextId + 1, delegations := t.delegations[t.nextId := row]))
  {
  }

  lemma NewRowKeepsForest(s: Settings, t: map<Id, DelegationRow>, d: Id, row: DelegationRow)
    requires Forest(t) && DepthInv(s, t) && d !in t && row.worker.None?
    requires row.depth == Min(Lineage(t, row.source), DepthCap(s.maxDepth)) && row.depth <= row.maxDepth
    ensures Forest(t[d := row]) && DepthInv(s, t[d := row])
  {
    UniqueAfter(t, d, row);
    CreateKeepsDepths(s, t, d, row);
  }

  lemma NewRowKeeps(s: Settings, t: Tables, row: DelegationRow)
    requires Inv(s, t) && SourceOf(t, row.tenantId, row.source) && row.worker.None? && row.status == Pending
    requires ByKey(t, row.tenantId, row.source, row.key) == {}
    requires DepthOf(t.delegations, row.tenantId, row.source, s.maxDepth) == Some(row.depth)
    requires row.depth <= row.maxDepth
    ensures Inv(s, t.(nextId := t.nextId + 1, delegations := t.delegations[t.nextId := row]))
  {
    NewRowKeepsReferences(t, row);
    NewKeyIsUnique(t, t.nextId, row);
    NewRowKeepsFrontiers(t, row);
    DepthIsLineage(t, row.tenantId, row.source, s.maxDepth);
    NewRowKeepsForest(s, t.delegations, t.nextId, row);
  }

  lemma NewRowFacts(s: Settings, t: Tables, r: Request)
    requires CanCreate(t, s, r)
    ensures var row := NewRow(s, r, DepthOf(t.delegations, r.tenantId, r.source, s.maxDepth).value);
            SourceOf(t, row.tenantId, row.source) && row.worker.None? && row.status == Pending &&
            ByKey(t, row.tenantId, row.source, row.key) == {} && row.depth <= row.maxDepth &&
            Created(t, s, r) == t.(nextId := t.nextId + 1, delegations := t.delegations[t.nextId := row])
  {
  }

  lemma CreateKeeps(s: Settings, t: Tables, r: Request)
    requires Inv(s, t) && CanCreate(t, s, r)
    ensures Inv(s, Created(t, s, r))
  {
    NewRowFacts(s, t, r);
    NewRowKeeps(s, t, NewRow(s, r, DepthOf(t.delegations, r.tenantId, r.source, s.maxDepth).value));
  }

  lemma NewRowKeepsReferences(t: Tables, row: DelegationRow)
    requires References(t) && SourceOf(t, row.tenantId, row.source) && row.worker.None? && row.status == Pending
    requires forall d | d in t.delegations :: RowShape(t.delegations[d])
    ensures var t' := t.(nextId := t.nextId + 1, delegations := t.delegations[t.nextId := row]);
            References(t') && forall d | d in t'.delegations :: RowShape(t'.delegations[d])
  {
  }

  lemma ClaimKeepsReferences(t: Tables, tenantId: nat, d: Id, owner: string, now: int)
    requires References(t) && ClaimRefusal(t, tenantId, d, owner, now).None?
    requires forall e | e in t.delegations :: RowShape(t.delegations[e])
    ensures var t' := Claimed(t, tenantId, d, owner, now);
            References(t') && forall e | e in t'.delegations :: RowShape(t'.delegations[e])
  {
  }

  lemma ClaimKeeps(s: Settings, t: Tables, tenantId: nat, d: Id, owner: string, now: int)
    requires Inv(s, t) && ClaimRefusal(t, tenantId, d, owner, now).None?
    ensures Inv(s, Claimed(t, tenantId, d, owner, now))
  {
    var row := Claimed(t, tenantId, d, owner, now).delegations[d];
    ClaimKeepsReferences(t, tenantId, d, owner, now);
    UniqueAfter(t.delegations, d, row);
    UpdateKeepsDepths(s, t.delegations, d, row);
    ClaimKeepsFrontiers(t, tenantId, d, owner, now);
  }

  lemma ClaimKeepsFrontiers(t: Tables, tenantId: nat, d: Id, owner: string, now: int)
    requires References(t) && FrontierInv(t) && ClaimRefusal(t, tenantId, d, owner, now).None? &&
             RowShape(t.delegations[d])
    ensures FrontierInv(Claimed(t, tenantId, d, owner, now))
  {
  }

  lemma FinishKeeps(s: Settings, t: Tables, d: Id, o: Outcome, now: int)
    requires Inv(s, t) && d in t.delegations && t.delegations[d].worker.Some?
    ensures Inv(s, Finished(t, d, o, now))
  {
    StatusChangeKeeps(s, t, d, Finished(t, d, o, now).delegations[d]);
  }

  lemma CancelKeeps(s: Settings, t: Tables, ticket: nat, now: int)
    requires Inv(s, t) && CanWrite(t, ticket)
    ensures Inv(s, CancelWritten(t, ticket, now))
  {
    var d := t.cancels[ticket];
    StatusChangeKeeps(s, t, d, CancelledRow(t.delegations[d], now));
  }

  lemma SameDelegations(s: Settings, t: Tables, t': Tables)
    requires Inv(s, t) && References(t') && t'.delegations == t.delegations && t'.frontiers == t.frontiers
    ensures Inv(s, t')
  {
  }

  lemma ExecutionsReferred(s: Settings, t: Tables, step: Step)
    requires References(t) && (step.Starts? || step.Moves? || step.CancelReads?)
    ensures References(Apply(s, t, step))
  {
  }

  lemma ExecutionsKeep(s: Settings, t: Tables, step: Step)
    requires Inv(s, t) && (step.Starts? || step.Moves? || step.CancelReads?)
    ensures Inv(s, Apply(s, t, step))
  {
    ExecutionsReferred(s, t, step);
    SameDelegations(s, t, Apply(s, t, step));
  }

  lemma StepKeeps(s: Settings, t: Tables, step: Step)
    requires Inv(s, t)
    ensures Inv(s, Apply(s, t, step))
  {
    match step
    case Starts(_, _) => ExecutionsKeep(s, t, step);
    case Moves(_, _) => ExecutionsKeep(s, t, step);
    case Creates(r) => if CanCreate(t, s, r) { CreateKeeps(s, t, r); }
    case Claims(tenantId, d, owner, now) =>
      if ClaimRefusal(t, tenantId, d, owner, now).None? { ClaimKeeps(s, t, tenantId, d, owner, now); }
    case Finishes(tenantId, d, worker, o, now) =>
      if FinishRefusal(t, tenantId, d, worker, o).None? { FinishKeeps(s, t, d, o, now); }
    case CancelReads(_, _, _, _, _, _) => ExecutionsKeep(s, t, step);
    case CancelWrites(ticket, now) => if CanWrite(t, ticket) { CancelKeeps(s, t, ticket, now); }
  }

  lemma {:induction false} RunKeeps(s: Settings, t: Tables, steps: seq<Step>)
    requires Inv(s, t)
    ensures Inv(s, Run(s, t, steps))
    decreases |steps|
  {
    if steps != [] {
      StepKeeps(s, t, steps[0]);
      RunKeeps(s, Apply(s, t, steps[0]), steps[1..]);
    }
  }

  // ---------------------------------------------------------------- lifecycle

  /**
   How a row may look one step later: its status takes an allowed transition, and only a pending row
   gets a worker.
   */
  predicate Follows(row: DelegationRow, row': DelegationRow) {
    row'.tenantId == row.tenantId && row'.source == row.source && row'.key == row.key && row'.target == row.target &&
    row'.depth == row.depth && row'.maxDepth == row.maxDepth && row'.maxActive == row.maxActive &&
    row'.timeoutAt == row.timeoutAt &&
    (row'.status == row.status || Allowed(row.status, row'.status)) &&
    (row'.status == row.status ==> row' == row) &&
    (row'.worker != row.worker ==> row.status == Pending && row'.status == Running)
  }

  /** A cancel writes to a row that became terminal after it was read, and changes it. */
  predicate Overwrites(t: Tables, step: Step, d: Id) {
    step.CancelWrites? && CanWrite(t, step.ticket) && t.cancels[step.ticket] == d &&
    Terminal(t.delegations[d].status) && CancelledRow(t.delegations[d], step.now) != t.delegations[d]
  }

  /** How a row may look at any later time, whatever cancels overwrite. */
  predicate Later(row: DelegationRow, row': DelegationRow) {
    row'.tenantId == row.tenantId && row'.source == row.source && row'.key == row.key && row'.target == row.target &&
    row'.depth == row.depth &&
    (Terminal(row.status) ==> Terminal(row'.status)) &&
    (row.status != Pending ==> row'.status != Pending && row'.worker == row.worker) &&
    (row'.status == Pending ==> row' == row)
  }

  lemma CancelStep(t: Tables, ticket: nat, now: int, d: Id)
    requires CanWrite(t, ticket) && d in t.delegations
    ensures var t' := CancelWritten(t, ticket, now);
            d in t'.delegations && Later(t.delegations[d], t'.delegations[d]) &&
            (Follows(t.delegations[d], t'.delegations[d]) <==> !Overwrites(t, CancelWrites(ticket, now), d))
  {
  }

  lemma OtherStep(s: Settings, t: Tables, step: Step, d: Id)
    requires d in t.delegations && d < t.nextId && !step.CancelWrites?
    ensures d in Apply(s, t, step).delegations
    ensures Later(t.delegations[d], Apply(s, t, step).delegations[d]) &&
            Follows(t.delegations[d], Apply(s, t, step).delegations[d])
  {
  }

  /**
   Rows are never deleted. A step moves a row along an allowed transition or leaves it alone, if and
   only if it is not a cancel that overwrites it.
   */
  lemma LifecycleStep(s: Settings, t: Tables, step: Step, d: Id)
    requires References(t) && d in t.delegations
    ensures d in Apply(s, t, step).delegations && Later(t.delegations[d], Apply(s, t, step).delegations[d])
    ensures Follows(t.delegations[d], Apply(s, t, step).delegations[d]) <==> !Overwrites(t, step, d)
  {
    if !step.CancelWrites? {
      OtherStep(s, t, step, d);
    } else if CanWrite(t, step.ticket) {
      CancelStep(t, step.ticket, step.now, d);
    }
  }

  ghost predicate NothingOverwritten(s: Settings, t: Tables, steps: seq<Step>, d: Id)
    decreases |steps|
  {
    steps == [] || (!Overwrites(t, steps[0], d) && NothingOverwritten(s, Apply(s, t, steps[0]), steps[1..], d))
  }

  /** Every step of the run moves the row along an allowed transition or leaves it alone. */
  ghost predicate FollowsThroughout(s: Settings, t: Tables, steps: seq<Step>, d: Id)
    decreases |steps|
  {
    steps == [] ||
    (d in t.delegations && d in Apply(s, t, steps[0]).delegations &&
     Follows(t.delegations[d], Apply(s, t, steps[0]).delegations[d]) &&
     FollowsThroughout(s, Apply(s, t, steps[0]), steps[1..], d))
  }

  /**
   Over any run a bound worker stays bound, no row becomes pending again and none is revived. The history
   of a row is a path of allowed transitions, so that a terminal row never changes, if and only if no
   cancel writes to it after it became terminal.
   */
  lemma {:induction false} LifecycleRun(s: Settings, t: Tables, steps: seq<Step>, d: Id)
    requires Inv(s, t) && d in t.delegations
    ensures d in Run(s, t, steps).delegations && Later(t.delegations[d], Run(s, t, steps).delegations[d])
    ensures FollowsThroughout(s, t, steps, d) <==> NothingOverwritten(s, t, steps, d)
    ensures NothingOverwritten(s, t, steps, d) && Terminal(t.delegations[d].status) ==>
            Run(s, t, steps).delegations[d] == t.delegations[d]
    decreases |steps|
  {
    if steps != [] {
      StepKeeps(s, t, steps[0]);
      LifecycleStep(s, t, steps[0], d);
      LifecycleRun(s, Apply(s, t, steps[0]), steps[1..], d);
    }
  }

  /** The worker finishes between the read and the write of a cancel. */
  function LateCancel(ticket: nat, row: DelegationRow, d: Id, worker: Id, now: int): seq<Step> {
    [CancelReads(ticket, row.tenantId, row.source, d, 0, true), Moves(worker, ExecutionCompleted),
     Finishes(row.tenantId, d, worker, Complete, now), CancelWrites(ticket, now)]
  }

  lemma RunFour(s: Settings, t: Tables, a: Step, b: Step, c: Step, e: Step)
    ensures Run(s, t, [a, b, c]) == Apply(s, Apply(s, Apply(s, t, a), b), c)
    ensures Run(s, t, [a, b, c, e]) == Apply(s, Run(s, t, [a, b, c]), e)
  {
    RunTwo(s, Apply(s, t, a), b, c);
    assert [a, b, c][1..] == [b, c] && Run(s, t, [a, b, c]) == Run(s, Apply(s, t, a), [b, c]);
    RunAppend(s, t, [a, b, c], [e]);
    RunOne(s, Run(s, t, [a, b, c]), e);
    assert [a, b, c] + [e] == [a, b, c, e];
  }

  lemma LateCancelSteps(s: Settings, t: Tables, d: Id, worker: Id, ticket: nat, now: int)
    requires d in t.delegations && t.delegations[d].status == Running && t.delegations[d].worker == Some(worker) &&
             ticket !in t.cancels
    requires SourceOf(t, t.delegations[d].tenantId, t.delegations[d].source) &&
             SourceOf(t, t.delegations[d].tenantId, worker)
    ensures var steps := LateCancel(ticket, t.delegations[d], d, worker, now);
            var before := Apply(s, Apply(s, Apply(s, t, steps[0]), steps[1]), steps[2]);
            d in before.delegations && before.delegations[d].status == Completed && Overwrites(before, steps[3], d)
  {
    var tenant, row := t.delegations[d].tenantId, t.delegations[d];
    var t1 := t.(cancels := t.cancels[ticket := d]);
    assert Apply(s, t, CancelReads(ticket, tenant, row.source, d, 0, true)) == t1;
    var t2 := t1.(executions := t.executions[worker := t.executions[worker].(status := ExecutionCompleted)]);
    assert Apply(s, t1, Moves(worker, ExecutionCompleted)) == t2;
    assert FinishRefusal(t2, tenant, d, worker, Complete).None?;
  }

  /** In every reachable state, each running delegation can be completed and then still become cancelled. */
  lemma CancelOverwritesCompletion(s: Settings, past: seq<Step>, d: Id, ticket: nat, now: int)
    requires var t := Run(s, Start(), past);
             d in t.delegations && t.delegations[d].status == Running && ticket !in t.cancels
    ensures var t := Run(s, Start(), past);
            t.delegations[d].worker.Some? &&
            var steps := LateCancel(ticket, t.delegations[d], d, t.delegations[d].worker.value, now);
            var before := Run(s, t, steps[..3]);
            d in before.delegations && before.delegations[d].status == Completed && Overwrites(before, steps[3], d) &&
            d in Run(s, t, steps).delegations && Run(s, t, steps).delegations[d].status == Cancelled
  {
    RunKeeps(s, Start(), past);
    OverwritesCompletion(s, Run(s, Start(), past), d, ticket, now);
  }

  lemma OverwritesCompletion(s: Settings, t: Tables, d: Id, ticket: nat, now: int)
    requires References(t) && d in t.delegations && RowShape(t.delegations[d]) && t.delegations[d].status == Running &&
             ticket !in t.cancels
    ensures t.delegations[d].worker.Some? &&
            var steps := LateCancel(ticket, t.delegations[d], d, t.delegations[d].worker.value, now);
            var before := Run(s, t, steps[..3]);
            d in before.delegations && before.delegations[d].status == Completed && Overwrites(before, steps[3], d) &&
            d in Run(s, t, steps).delegations && Run(s, t, steps).delegations[d].status == Cancelled
  {
    var steps := LateCancel(ticket, t.delegations[d], d, t.delegations[d].worker.value, now);
    LateCancelSteps(s, t, d, t.delegations[d].worker.value, ticket, now);
    RunFour(s, t, steps[0], steps[1], steps[2], steps[3]);
    assert steps[..3] == [steps[0], steps[1], steps[2]];
  }

  // ---------------------------------------------------------------- claims

  predicate Wins(t: Tables, step: Step, d: Id) {
    step.Claims? && step.d == d && ClaimRefusal(t, step.tenantId, d, step.owner, step.now).None?
  }

  /** How many claims of a delegation succeed in a run. */
  ghost function ClaimCount(s: Settings, t: Tables, steps: seq<Step>, d: Id): nat
    decreases |steps|
  {
    if steps == [] then 0
       else (if Wins(t, steps[0], d) then 1 else 0) + ClaimCount(s, Apply(s, t, steps[0]), steps[1..], d)
  }

  /** Of all the claims that any workers ever make of one delegation, at most one succeeds. */
  lemma {:induction false} ClaimedOnce(s: Settings, t: Tables, steps: seq<Step>, d: Id)
    requires Inv(s, t)
    ensures ClaimCount(s, t, steps, d) <= if d in t.delegations && t.delegations[d].status != Pending then 0 else 1
    decreases |steps|
  {
    if steps != [] {
      StepKeeps(s, t, steps[0]);
      if d in t.delegations {
        LifecycleStep(s, t, steps[0], d);
      }
      ClaimedOnce(s, Apply(s, t, steps[0]), steps[1..], d);
    }
  }

  /** The claimed delegations have distinct worker executions, each with exactly one frontier. */
  lemma OneWorkerOneFrontier(s: Settings, steps: seq<Step>, d: Id, e: Id)
    requires var t := Run(s, Start(), steps).delegations; d in t && e in t && t[d].worker.Some? && t[e].worker.Some?
    ensures var t := Run(s, Start(), steps);
            (t.delegations[d].worker == t.delegations[e].worker ==> d == e) &&
            t.delegations[d].worker.value in t.executions &&
            exists i :: 0 <= i < |t.frontiers| && t.frontiers[i] == Frontier(t.delegations[d].worker.value, d) &&
                        forall j | 0 <= j < |t.frontiers| && t.frontiers[j].execution == t.frontiers[i].execution ::
                          j == i
  {
    RunKeeps(s, Start(), steps);
  }

  /**
   Only the worker execution bound at the claim can finish a delegation, only while it runs, and only
   with the status it really has.
   */
  lemma FinishedByItsWorker(s: Settings, steps: seq<Step>, step: Step, d: Id)
    requires step.Finishes? && d in Run(s, Start(), steps).delegations
    requires Apply(s, Run(s, Start(), steps), step).delegations[d] != Run(s, Start(), steps).delegations[d]
    ensures var t := Run(s, Start(), steps); var row := t.delegations[d];
            step.d == d && row.status == Running && row.worker == Some(step.worker) && step.worker in t.executions &&
            Matches(step.outcome, t.executions[step.worker].status) &&
            forall e | e in t.delegations && e != d ::
              FinishRefusal(t, step.tenantId, e, step.worker, step.outcome).Some?
  {
    RunKeeps(s, Start(), steps);
  }

  // ---------------------------------------------------------------- caps and keys

  predicate CapsWithin(s: Settings, steps: seq<Step>, cap: int) {
    forall i | 0 <= i < |steps| :: steps[i].Creates? ==> Or(steps[i].request.maxActive, s.maxActive) <= cap
  }

  ghost predicate ActiveWithin(t: Tables, cap: nat) {
    forall tenantId, source :: |Active(t, tenantId, source)| <= cap
  }

  lemma SubsetSize(a: set<Id>, b: set<Id>)
    requires a <= b
    ensures |a| <= |b|
  {
    assert b == a + (b - a);
  }

  /** Only a create for this source makes a delegation active. */
  lemma ActiveBefore(s: Settings, t: Tables, step: Step, tenantId: nat, source: Id, d: Id)
    requires References(t) && d in Active(Apply(s, t, step), tenantId, source)
    requires !(step.Creates? && CanCreate(t, s, step.request) && step.request.tenantId == tenantId &&
               step.request.source == source)
    ensures d in Active(t, tenantId, source)
  {
  }

  lemma CreateAddsOne(s: Settings, t: Tables, r: Request)
    requires References(t) && CanCreate(t, s, r)
    ensures |Active(Created(t, s, r), r.tenantId, r.source)| == |Active(t, r.tenantId, r.source)| + 1
  {
    assert Active(Created(t, s, r), r.tenantId, r.source) == Active(t, r.tenantId, r.source) + {t.nextId};
  }

  lemma StepKeepsCap(s: Settings, t: Tables, step: Step, cap: nat, tenantId: nat, source: Id)
    requires References(t) && ActiveWithin(t, cap) && (step.Creates? ==> Or(step.request.maxActive, s.maxActive) <= cap)
    ensures |Active(Apply(s, t, step), tenantId, source)| <= cap
  {
    if step.Creates? && CanCreate(t, s, step.request) && step.request.tenantId == tenantId &&
       step.request.source == source {
      CreateAddsOne(s, t, step.request);
    } else {
      forall d | d in Active(Apply(s, t, step), tenantId, source) ensures d in Active(t, tenantId, source) {
        ActiveBefore(s, t, step, tenantId, source, d);
      }
      SubsetSize(Active(Apply(s, t, step), tenantId, source), Active(t, tenantId, source));
    }
  }

  lemma {:induction false} RunKeepsCap(s: Settings, t: Tables, steps: seq<Step>, cap: nat)
    requires Inv(s, t) && ActiveWithin(t, cap) && CapsWithin(s, steps, cap)
    ensures ActiveWithin(Run(s, t, steps), cap)
    decreases |steps|
  {
    if steps != [] {
      StepKeeps(s, t, steps[0]);
      forall tenantId, source ensures |Active(Apply(s, t, steps[0]), tenantId, source)| <= cap {
        StepKeepsCap(s, t, steps[0], cap, tenantId, source);
      }
      RunKeepsCap(s, Apply(s, t, steps[0]), steps[1..], cap);
    }
  }

  /** With a common cap no execution ever has more pending and running delegations than it. */
  lemma ActiveCap(s: Settings, steps: seq<Step>, cap: nat, tenantId: nat, source: Id)
    requires CapsWithin(s, steps, cap)
    ensures |Active(Run(s, Start(), steps), tenantId, source)| <= cap
  {
    assert forall tenant, e :: Active(Start(), tenant, e) == {};
    RunKeepsCap(s, Start(), steps, cap);
  }

  lemma KeyIsTaken(s: Settings, t: Tables, d: Id, r: Request)
    requires UniqueKeys(t.delegations) && HasKey(t, d, r.tenantId, r.source, Text.Strip(r.key))
    ensures ByKey(t, r.tenantId, r.source, Text.Strip(r.key)) == {d} && Apply(s, t, Creates(r)) == t
  {
    assert d in ByKey(t, r.tenantId, r.source, Text.Strip(r.key));
  }

  /**
   Once a delegation exists under a key, the key names that delegation for good: a later create with
   the same key finds it and adds no row, whatever happened in between and however full the cap is.
   */
  lemma KeyNamesOneDelegation(s: Settings, past: seq<Step>, future: seq<Step>, d: Id, r: Request)
    requires var t := Run(s, Start(), past); HasKey(t, d, r.tenantId, r.source, Text.Strip(r.key))
    ensures var t' := Run(s, Run(s, Start(), past), future);
            ByKey(t', r.tenantId, r.source, Text.Strip(r.key)) == {d} &&
            t'.delegations[d].target == Run(s, Start(), past).delegations[d].target && Apply(s, t', Creates(r)) == t'
  {
    var t := Run(s, Start(), past);
    RunKeeps(s, Start(), past);
    RunKeeps(s, t, future);
    LifecycleRun(s, t, future, d);
    KeyIsTaken(s, Run(s, t, future), d, r);
  }

  // ---------------------------------------------------------------- time limit

  lemma CreatedRow(s: Settings, t: Tables, r: Request)
    requires CanCreate(t, s, r)
    ensures t.nextId in Created(t, s, r).delegations
    ensures var row := Created(t, s, r).delegations[t.nextId];
            row.tenantId == r.tenantId && row.source == r.source && row.status == Pending &&
            row.timeoutSeconds == (if r.timeoutSeconds.Some? then r.timeoutSeconds.value else s.timeoutSeconds) &&
            row.timeoutAt == r.now + row.timeoutSeconds * SECOND
  {
  }

  /** A row that is still pending is as it was created, and its source exists. */
  lemma PendingSinceCreation(s: Settings, past: seq<Step>, r: Request, future: seq<Step>)
    requires CanCreate(Run(s, Start(), past), s, r)
    requires var d := Run(s, Start(), past).nextId; var t := Run(s, Start(), past + [Creates(r)] + future);
             d in t.delegations && t.delegations[d].status == Pending
    ensures var d := Run(s, Start(), past).nextId; var t := Run(s, Start(), past + [Creates(r)] + future);
            var row := t.delegations[d];
            row.tenantId == r.tenantId && row.source == r.source && SourceOf(t, r.tenantId, r.source) &&
            row.timeoutSeconds == (if r.timeoutSeconds.Some? then r.timeoutSeconds.value else s.timeoutSeconds) &&
            row.timeoutAt == r.now + row.timeoutSeconds * SECOND
  {
    var t0 := Run(s, Start(), past);
    var t1 := Apply(s, t0, Creates(r));
    RunAppend(s, Start(), past + [Creates(r)], future);
    RunAppend(s, Start(), past, [Creates(r)]);
    RunOne(s, t0, Creates(r));
    RunKeeps(s, Start(), past);
    StepKeeps(s, t0, Creates(r));
    CreatedRow(s, t0, r);
    RunKeeps(s, t1, future);
    LifecycleRun(s, t1, future, t0.nextId);
  }

  lemma PendingClaim(t: Tables, d: Id, owner: string, now: int)
    requires d in t.delegations && t.delegations[d].status == Pending && 1 <= |Text.Strip(owner)| <= 128
    requires SourceOf(t, t.delegations[d].tenantId, t.delegations[d].source)
    ensures var row := t.delegations[d]; var refusal := ClaimRefusal(t, row.tenantId, d, owner, now);
            var source := t.executions[row.source];
            (refusal == Some(TimeoutDue) <==> row.timeoutAt <= now) &&
            (refusal == None <==> now < row.timeoutAt && source.status in {ExecutionPending, ExecutionRunning}) &&
            (refusal == None ==>
               var t' := Claimed(t, row.tenantId, d, owner, now);
               t'.delegations[d] == row.(status := Running, worker := Some(t.nextId), startedAt := Some(now)) &&
               t'.executions[t.nextId] == Execution(row.tenantId, source.createdBy, ExecutionRunning,
                                                    Some(Text.Strip(owner)), Some(now + row.timeoutSeconds * SECOND)))
  {
  }

  /**
   However long it has been pending, a delegation can be claimed as long as its source lives and the seconds
   asked for, or those of the settings, have not passed since its creation; from then on a claim is refused as
   too late. A claim starts a worker in the name of the source's creator, leased for as many seconds again.
   */
  lemma ClaimableUntilTimeout(s: Settings, past: seq<Step>, r: Request, future: seq<Step>, owner: string, now: int)
    requires var t := Run(s, Start(), past); CanCreate(t, s, r)
    requires var d := Run(s, Start(), past).nextId; var t := Run(s, Start(), past + [Creates(r)] + future);
             d in t.delegations && t.delegations[d].status == Pending
    requires 1 <= |Text.Strip(owner)| <= 128
    ensures var d := Run(s, Start(), past).nextId; var t := Run(s, Start(), past + [Creates(r)] + future);
            var limit := (if r.timeoutSeconds.Some? then r.timeoutSeconds.value else s.timeoutSeconds) * SECOND;
            r.source in t.executions &&
            var source := t.executions[r.source];
            (ClaimRefusal(t, r.tenantId, d, owner, now) == Some(TimeoutDue) <==> r.now + limit <= now) &&
            (ClaimRefusal(t, r.tenantId, d, owner, now) == None <==>
               now < r.now + limit && source.status in {ExecutionPending, ExecutionRunning}) &&
            (ClaimRefusal(t, r.tenantId, d, owner, now) == None ==>
               var t' := Apply(s, t, Claims(r.tenantId, d, owner, now));
               t'.delegations[d] == t.delegations[d].(status := Running, worker := Some(t.nextId),
                                                      startedAt := Some(now)) &&
               t'.executions[t.nextId] == Execution(r.tenantId, source.createdBy, ExecutionRunning,
                                                    Some(Text.Strip(owner)), Some(now + limit)))
  {
    var t0 := Run(s, Start(), past);
    var t := Run(s, Start(), past + [Creates(r)] + future);
    PendingSinceCreation(s, past, r, future);
    PendingClaim(t, t0.nextId, owner, now);
  }

  // ---------------------------------------------------------------- depth

  /**
   In every reachable state the walk ends without meeting a cycle and reports the true lineage up to
   its cap, which is what the rows store. So a row created with a maximum below the cap stores its
   true depth and is no deeper than requested.
   */
  lemma DepthIsTrue(s: Settings, steps: seq<Step>, d: Id)
    requires d in Run(s, Start(), steps).delegations
    ensures var t := Run(s, Start(), steps).delegations;
            Forest(t) &&
            t[d].depth == Min(Lineage(t, t[d].source), DepthCap(s.maxDepth)) &&
            DepthOf(t, t[d].tenantId, t[d].source, s.maxDepth) == Some(t[d].depth) &&
            (t[d].maxDepth < DepthCap(s.maxDepth) ==> t[d].depth == Lineage(t, t[d].source) <= t[d].maxDepth) &&
            (t[d].worker.Some? ==> Lineage(t, t[d].worker.value) == Lineage(t, t[d].source) + 1)
  {
    RunKeeps(s, Start(), steps);
    var t := Run(s, Start(), steps).delegations;
    DepthIsLineage(Run(s, Start(), steps), t[d].tenantId, t[d].source, s.maxDepth);
    if t[d].worker.Some? {
      ParentIs(t, d, t[d].worker.value);
    }
  }

  // ---------------------------------------------------------------- the cap is the limit of the depth guard

  lemma {:induction false} RunAppend(s: Settings, t: Tables, a: seq<Step>, b: seq<Step>)
    ensures Run(s, t, a + b) == Run(s, Run(s, t, a), b)
    decreases |a|
  {
    if a == [] {
      assert a + b == b;
    } else {
      assert (a + b)[1..] == a[1..] + b;
      RunAppend(s, Apply(s, t, a[0]), a[1..], b);
    }
  }

  function ChainRequest(source: Id, requested: int): Request {
    Request(0, source, 0, false, 0, "k", Some(requested), Some(1), Some(1), true, true, 0)
  }

  /** A live execution without delegations, `n` deep. */
  ghost predicate Tip(t: Tables, e: Id, n: nat) {
    Forest(t.delegations) && SourceOf(t, 0, e) && !Ended(t.executions[e].status) && t.executions[e].createdBy == 0 &&
    (forall d | d in t.delegations :: t.delegations[d].source != e) && Lineage(t.delegations, e) == n
  }

  lemma TipDelegates(s: Settings, t: Tables, e: Id, n: nat, requested: int)
    requires Inv(s, t) && Tip(t, e, n) && DepthCap(s.maxDepth) <= requested <= 20
    ensures var t' := Apply(s, t, Creates(ChainRequest(e, requested)));
            CanCreate(t, s, ChainRequest(e, requested)) && t.nextId in t'.delegations &&
            t'.delegations[t.nextId] == NewRow(s, ChainRequest(e, requested), Min(n, DepthCap(s.maxDepth)))
  {
    var r := ChainRequest(e, requested);
    Text.StripUnique("k", 0, 1);
    DepthIsLineage(t, 0, e, s.maxDepth);
    assert Active(t, 0, e) == {} && ByKey(t, 0, e, "k") == {};
  }

  /** A new row without a worker changes no lineage. */
  lemma CreateKeepsLineage(s: Settings, t: Tables, r: Request, e: Id)
    requires Inv(s, t) && CanCreate(t, s, r) && Forest(Created(t, s, r).delegations)
    ensures Lineage(Created(t, s, r).delegations, e) == Lineage(t.delegations, e)
  {
    var t' := Created(t, s, r);
    forall a: Id | a <= e ensures ParentOf(t.delegations, a) == ParentOf(t'.delegations, a) {
      SameParents(t.delegations, t.nextId, t'.delegations[t.nextId], a);
    }
    LineageStable(t.delegations, t'.delegations, e);
  }

  /** The worker execution of a claim is one deeper than the source. */
  lemma ClaimDeepens(s: Settings, t: Tables, d: Id, owner: string, now: int, tenantId: nat)
    requires Inv(s, t) && ClaimRefusal(t, tenantId, d, owner, now).None? &&
             Forest(Claimed(t, tenantId, d, owner, now).delegations)
    ensures Lineage(Claimed(t, tenantId, d, owner, now).delegations, t.nextId) ==
            Lineage(t.delegations, t.delegations[d].source) + 1
  {
    var t' := Claimed(t, tenantId, d, owner, now);
    var e := t.delegations[d].source;
    ParentIs(t'.delegations, d, t.nextId);
    forall a: Id | a <= e ensures ParentOf(t.delegations, a) == ParentOf(t'.delegations, a) {
      SameParents(t.delegations, d, t'.delegations[d], a);
    }
    LineageStable(t.delegations, t'.delegations, e);
  }

  lemma NewTip(s: Settings, t: Tables, d: Id, n: nat)
    requires Inv(s, t) && ClaimRefusal(t, 0, d, "w", 0).None? && t.executions[t.delegations[d].source].createdBy == 0
    requires Lineage(t.delegations, t.delegations[d].source) == n
    ensures Tip(Claimed(t, 0, d, "w", 0), t.nextId, n + 1)
  {
    ClaimKeeps(s, t, 0, d, "w", 0);
    ClaimDeepens(s, t, d, "w", 0, 0);
  }

  function ChainSteps(e: Id, d: Id, requested: int): seq<Step> {
    [Creates(ChainRequest(e, requested)), Claims(0, d, "w", 0)]
  }

  lemma TipClaimable(s: Settings, t: Tables, e: Id, n: nat, requested: int)
    requires Inv(s, t) && Tip(t, e, n) && CanCreate(t, s, ChainRequest(e, requested))
    ensures var t1 := Created(t, s, ChainRequest(e, requested));
            ClaimRefusal(t1, 0, t.nextId, "w", 0).None? && t1.executions[e].createdBy == 0 &&
            t1.delegations[t.nextId].source == e
  {
    Text.StripUnique("w", 0, 1);
  }

  lemma TipCreated(s: Settings, t: Tables, e: Id, n: nat, requested: int)
    requires Inv(s, t) && Tip(t, e, n) && CanCreate(t, s, ChainRequest(e, requested))
    ensures var t1 := Created(t, s, ChainRequest(e, requested));
            Inv(s, t1) && ClaimRefusal(t1, 0, t.nextId, "w", 0).None? && t1.executions[e].createdBy == 0 &&
            t1.delegations[t.nextId].source == e && Lineage(t1.delegations, e) == n && t1.nextId == t.nextId + 1
  {
    CreateKeeps(s, t, ChainRequest(e, requested));
    TipClaimable(s, t, e, n, requested);
    CreateKeepsLineage(s, t, ChainRequest(e, requested), e);
  }

  /** Delegating once more and claiming it gives a tip one deeper. */
  lemma TipGrows(s: Settings, t: Tables, e: Id, n: nat, requested: int)
    requires Inv(s, t) && Tip(t, e, n) && CanCreate(t, s, ChainRequest(e, requested))
    ensures var t1 := Created(t, s, ChainRequest(e, requested));
            ClaimRefusal(t1, 0, t.nextId, "w", 0).None? && Tip(Claimed(t1, 0, t.nextId, "w", 0), t.nextId + 1, n + 1)
  {
    TipCreated(s, t, e, n, requested);
    NewTip(s, Created(t, s, ChainRequest(e, requested)), t.nextId, n);
  }

  lemma TipGrowsByRun(s: Settings, t: Tables, e: Id, n: nat, requested: int)
    requires Inv(s, t) && Tip(t, e, n) && DepthCap(s.maxDepth) <= requested <= 20
    ensures Tip(Run(s, t, ChainSteps(e, t.nextId, requested)), t.nextId + 1, n + 1)
  {
    TipDelegates(s, t, e, n, requested);
    TipGrows(s, t, e, n, requested);
    RunTwo(s, t, Creates(ChainRequest(e, requested)), Claims(0, t.nextId, "w", 0));
  }

  lemma RunTwo(s: Settings, t: Tables, a: Step, b: Step)
    ensures Run(s, t, [a, b]) == Apply(s, Apply(s, t, a), b)
  {
    assert [a, b][1..] == [b];
    assert Run(s, t, [a, b]) == Run(s, Apply(s, t, a), [b]);
    RunOne(s, Apply(s, t, a), b);
  }

  lemma RunOne(s: Settings, t: Tables, a: Step)
    ensures Run(s, t, [a]) == Apply(s, t, a)
  {
  }

  lemma FirstTip(s: Settings)
    ensures Tip(Run(s, Start(), [Starts(0, 0)]), 0, 1)
  {
  }

  lemma TipAfterRun(s: Settings, before: seq<Step>, more: seq<Step>, e: Id, n: nat)
    requires Tip(Run(s, Run(s, Start(), before), more), e, n)
    ensures Tip(Run(s, Start(), before + more), e, n)
  {
    RunAppend(s, Start(), before, more);
  }

  lemma {:induction false} TipExists(s: Settings, n: nat, requested: int) returns (steps: seq<Step>, e: Id)
    requires n >= 1 && DepthCap(s.maxDepth) <= requested <= 20
    ensures Tip(Run(s, Start(), steps), e, n)
  {
    if n == 1 {
      FirstTip(s);
      steps, e := [Starts(0, 0)], 0;
    } else {
      var before, tip := TipExists(s, n - 1, requested);
      var t := Run(s, Start(), before);
      RunKeeps(s, Start(), before);
      TipGrowsByRun(s, t, tip, n - 1, requested);
      TipAfterRun(s, before, ChainSteps(tip, t.nextId, requested), t.nextId + 1, n);
      steps, e := before + ChainSteps(tip, t.nextId, requested), t.nextId + 1;
    }
  }

  /**
   The bound on the requested maximum is exact. From the cap on the guard stops working: for every
   such maximum some run stores a delegation that is deeper than requested, with a depth that is too small.
   */
  lemma DepthGuardFailsFromCap(s: Settings, requested: int) returns (steps: seq<Step>, d: Id)
    requires DepthCap(s.maxDepth) <= requested <= 20
    ensures var t := Run(s, Start(), steps).delegations;
            d in t && Forest(t) && t[d].maxDepth == requested && t[d].depth == DepthCap(s.maxDepth) &&
            Lineage(t, t[d].source) == requested + 1
  {
    var before, e := TipExists(s, requested + 1, requested);
    var t := Run(s, Start(), before);
    var step := Creates(ChainRequest(e, requested));
    RunKeeps(s, Start(), before);
    TipDelegates(s, t, e, requested + 1, requested);
    StepKeeps(s, t, step);
    RunAppend(s, Start(), before, [step]);
    RunOne(s, t, step);
    steps, d := before + [step], t.nextId;
    CreateKeepsLineage(s, t, ChainRequest(e, requested), e);
  }
}
