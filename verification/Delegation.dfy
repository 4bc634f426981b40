/**
 Agent delegation (backend/app/services/agent_delegation): lifecycle table, creation under depth and
 concurrency caps, exactly-once claim, and completion fenced by the worker execution.

 The first part says what each service call does to the tables; the class at the end performs the
 calls, with the lineage walk as the loop it is. Identifiers are handed out in order of insertion.
 */
module Delegation {
  import opened Wrappers
  import opened Text

  type Id = nat

  const SECOND := 1_000_000

  datatype Status = Pending | Running | Completed | Failed | TimedOut | Cancelled

  /** `TRANSITIONS` */
  predicate Allowed(from: Status, to: Status) {
    match from
    case Pending => to == Running || to == Cancelled
    case Running => to == Completed || to == Failed || to == TimedOut || to == Cancelled
    case _ => false
  }

  predicate Terminal(s: Status) {
    s != Pending && s != Running
  }

  /**
   A row leaves each status but once, never to become pending again; nothing follows the four terminal
   ones, and a pending row can only be started or cancelled.
   */
  lemma AllowedExactly(from: Status, to: Status)
    ensures Terminal(from) <==> from in {Completed, Failed, Cancelled, TimedOut}
    ensures Allowed(from, to) <==>
            !Terminal(from) && to != Pending && to != from && (from == Pending ==> to in {Running, Cancelled})
  {
  }

  datatype ExecutionStatus =
    | ExecutionPending | ExecutionRunning | ExecutionCompleted | ExecutionFailed | ExecutionCancelled

  predicate Ended(s: ExecutionStatus) {
    s == ExecutionCompleted || s == ExecutionFailed || s == ExecutionCancelled
  }

  datatype Execution = Execution(tenantId: nat, createdBy: nat, status: ExecutionStatus, workerOwner: Option<string>,
                                 leaseExpiresAt: Option<int>)

  datatype DelegationRow = DelegationRow(
    tenantId: nat,
    source: Id,
    target: nat,
    key: string,
    status: Status,
    maxDepth: int,
    maxActive: int,
    timeoutSeconds: int,
    depth: nat,
    timeoutAt: int,
    worker: Option<Id>,
    startedAt: Option<int>,
    endedAt: Option<int>,
    error: Option<(string, string)>)

  /** The durable work item of a claimed delegation. */
  datatype Frontier = Frontier(execution: Id, delegation: Id)

  /** The tables, and the delegations that open cancel requests have read: those requests hold no lock. */
  datatype Tables = Tables(
    nextId: Id,
    executions: map<Id, Execution>,
    delegations: map<Id, DelegationRow>,
    frontiers: seq<Frontier>,
    cancels: map<nat, Id>)

  datatype Settings = Settings(maxDepth: int, maxActive: int, timeoutSeconds: int)

  datatype Error =
    | ExecutionNotFound | SourceEnded | Forbidden | BudgetInvalid | PayloadInvalid | KeyInvalid | KeyBoundElsewhere
    | AgentUnavailable | LineageCycle | DepthExceeded | ActiveExceeded
    | OwnerInvalid | DelegationNotFound | NotPending | TimeoutDue
    | FenceFailed | ExecutionStatusMismatch | ErrorTextMissing | TransitionInvalid

  // ---------------------------------------------------------------- lineage

  predicate ClaimedBy(t: map<Id, DelegationRow>, d: Id, execution: Id) {
    d in t && t[d].worker == Some(execution)
  }

  /** At most one delegation per worker execution. */
  ghost predicate UniqueWorkers(t: map<Id, DelegationRow>) {
    forall d, e | d in t && e in t && t[d].worker.Some? && t[d].worker == t[e].worker :: d == e
  }

  lemma UniqueAfter(t: map<Id, DelegationRow>, d: Id, row: DelegationRow)
    requires UniqueWorkers(t)
    requires row.worker.None? || (d in t && t[d].worker == row.worker) || forall e | e in t :: t[e].worker != row.worker
    ensures UniqueWorkers(t[d := row])
  {
  }

  /** The source execution of the delegation that an execution works for. */
  ghost function ParentOf(t: map<Id, DelegationRow>, execution: Id): Option<Id> {
    if exists d :: ClaimedBy(t, d, execution)
    then
      var d :| ClaimedBy(t, d, execution);
      Some(t[d].source)
    else None
  }

  lemma ParentIs(t: map<Id, DelegationRow>, d: Id, execution: Id)
    requires UniqueWorkers(t) && ClaimedBy(t, d, execution)
    ensures ParentOf(t, execution) == Some(t[d].source)
  {
  }

  lemma OneParent(t: map<Id, DelegationRow>, execution: Id, parents: set<Id>)
    requires UniqueWorkers(t) && forall d :: d in parents <==> ClaimedBy(t, d, execution)
    ensures parents == {} ==> ParentOf(t, execution).None?
    ensures forall d | d in parents :: ParentOf(t, execution) == Some(t[d].source) && parents == {d}
  {
    forall d | d in parents ensures ParentOf(t, execution) == Some(t[d].source) && parents == {d} {
      ParentIs(t, d, execution);
    }
  }

  /** The largest depth that the walk reports. */
  function DepthCap(settingsMax: int): nat {
    if settingsMax >= 0 then settingsMax + 2 else 2
  }

  /** The walk from `execution` at `depth`, having visited some executions; nothing is reported for a cycle. */
  ghost function Walk(t: map<Id, DelegationRow>, execution: Id, depth: nat, visited: set<Id>,
                      settingsMax: int): Option<nat>
    requires depth < DepthCap(settingsMax)
    decreases DepthCap(settingsMax) - depth
  {
    if execution in visited then None
    else
      match ParentOf(t, execution)
      case None => Some(depth)
      case Some(source) =>
        if depth + 1 > settingsMax + 1 then Some(depth + 1)
        else Walk(t, source, depth + 1, visited + {execution}, settingsMax)
  }

  /** The execution `k` delegations up from another. */
  ghost function Ancestor(t: map<Id, DelegationRow>, execution: Id, k: nat): Option<Id> {
    if k == 0 then Some(execution)
    else if Ancestor(t, execution, k - 1).None? then None
    else ParentOf(t, Ancestor(t, execution, k - 1).value)
  }

  /** The execution and the first ones up from it, `k` in all. */
  ghost function FirstUp(t: map<Id, DelegationRow>, execution: Id, k: nat): set<Id> {
    if k == 0 then {}
    else
      var next := Ancestor(t, execution, k - 1);
      FirstUp(t, execution, k - 1) + if next.Some? then {next.value} else {}
  }

  /** After `k` steps up the walk is back at an execution where it was before. */
  ghost predicate Returns(t: map<Id, DelegationRow>, execution: Id, k: nat) {
    Ancestor(t, execution, k).Some? && Ancestor(t, execution, k).value in FirstUp(t, execution, k)
  }

  lemma {:induction false} NoAncestorsAbove(t: map<Id, DelegationRow>, execution: Id, k: nat, j: nat)
    requires Ancestor(t, execution, k).None? && k <= j
    ensures Ancestor(t, execution, j).None?
    decreases j
  {
    if k < j {
      NoAncestorsAbove(t, execution, k, j - 1);
    }
  }

  lemma {:induction false} WalkMeets(t: map<Id, DelegationRow>, start: Id, execution: Id, depth: nat, settingsMax: int)
    requires 1 <= depth < DepthCap(settingsMax) && Ancestor(t, start, depth - 1) == Some(execution)
    requires forall k: nat | k < depth - 1 :: !Returns(t, start, k)
    ensures Walk(t, execution, depth, FirstUp(t, start, depth - 1), settingsMax).None? <==>
            exists k: nat :: k < DepthCap(settingsMax) - 1 && Returns(t, start, k)
    decreases DepthCap(settingsMax) - depth
  {
    if execution in FirstUp(t, start, depth - 1) {
      assert Returns(t, start, depth - 1);
    } else if ParentOf(t, execution).None? {
      forall k: nat ensures !Returns(t, start, k) {
        if k >= depth {
          NoAncestorsAbove(t, start, depth, k);
        }
      }
    } else if depth + 1 <= settingsMax + 1 {
      assert FirstUp(t, start, depth) == FirstUp(t, start, depth - 1) + {execution};
      WalkMeets(t, start, ParentOf(t, execution).value, depth + 1, settingsMax);
    }
  }

  /** A cycle is reported exactly if the walk comes back to an execution before it reaches its cap. */
  lemma WalkReportsCycle(t: map<Id, DelegationRow>, execution: Id, settingsMax: int)
    ensures Walk(t, execution, 1, {}, settingsMax).None? <==>
            exists k: nat :: k < DepthCap(settingsMax) - 1 && Returns(t, execution, k)
  {
    WalkMeets(t, execution, execution, 1, settingsMax);
  }

  function OfTenant(t: map<Id, DelegationRow>, tenantId: nat): map<Id, DelegationRow> {
    map d | d in t && t[d].tenantId == tenantId :: t[d]
  }

  /** The walk looks only at the delegations of the tenant. */
  ghost function DepthOf(t: map<Id, DelegationRow>, tenantId: nat, source: Id, settingsMax: int): Option<nat> {
    Walk(OfTenant(t, tenantId), source, 1, {}, settingsMax)
  }

  // ---------------------------------------------------------------- create

  datatype Request = Request(
    tenantId: nat,
    source: Id,
    actor: nat,
    admin: bool,
    target: nat,
    key: string,
    maxDepth: Option<int>,
    maxActive: Option<int>,
    timeoutSeconds: Option<int>,
    payloadValid: bool,
    agentsAvailable: bool,
    now: int)

  function Or(given: Option<int>, default: int): int {
    if given.Some? then given.value else default
  }

  predicate BudgetValid(s: Settings, r: Request) {
    1 <= Or(r.maxDepth, s.maxDepth) <= 20 && 1 <= Or(r.maxActive, s.maxActive) <= 100 &&
    1 <= Or(r.timeoutSeconds, s.timeoutSeconds) <= 86_400
  }

  predicate SourceOf(t: Tables, tenantId: nat, source: Id) {
    source in t.executions && t.executions[source].tenantId == tenantId
  }

  predicate HasKey(t: Tables, d: Id, tenantId: nat, source: Id, key: string) {
    d in t.delegations && t.delegations[d].tenantId == tenantId && t.delegations[d].source == source &&
    t.delegations[d].key == key
  }

  /** `get_by_key` */
  function ByKey(t: Tables, tenantId: nat, source: Id, key: string): set<Id> {
    set d | d in t.delegations && HasKey(t, d, tenantId, source, key)
  }

  /** `count_active` counts these: the delegations of the source that are pending or running. */
  function Active(t: Tables, tenantId: nat, source: Id): (active: set<Id>)
    ensures forall d :: d in active <==>
              d in t.delegations && t.delegations[d].tenantId == tenantId && t.delegations[d].source == source &&
              t.delegations[d].status in {Pending, Running}
  {
    set d | d in t.delegations && t.delegations[d].tenantId == tenantId && t.delegations[d].source == source &&
      !Terminal(t.delegations[d].status)
  }

  /** The reasons to refuse before any delegation is looked up. */
  function Refusal(t: Tables, s: Settings, r: Request): Option<Error> {
    if !SourceOf(t, r.tenantId, r.source) then Some(ExecutionNotFound)
    else if Ended(t.executions[r.source].status) then Some(SourceEnded)
    else if !r.admin && r.actor != t.executions[r.source].createdBy then Some(Forbidden)
    else if !BudgetValid(s, r) then Some(BudgetInvalid)
    else if !r.payloadValid then Some(PayloadInvalid)
    else if Strip(r.key) == "" || |Strip(r.key)| > 128 then Some(KeyInvalid)
    else None
  }

  function NewRow(s: Settings, r: Request, depth: nat): DelegationRow {
    var timeout := Or(r.timeoutSeconds, s.timeoutSeconds);
    DelegationRow(r.tenantId, r.source, r.target, Strip(r.key), Pending, Or(r.maxDepth, s.maxDepth),
                  Or(r.maxActive, s.maxActive), timeout, depth,
                  r.now + timeout * SECOND, None, None, None, None)
  }

  /** The reasons to refuse a delegation under a new key. */
  ghost function NewRefusal(t: Tables, s: Settings, r: Request): Option<Error> {
    var depth := DepthOf(t.delegations, r.tenantId, r.source, s.maxDepth);
    if !r.agentsAvailable then Some(AgentUnavailable)
    else if depth.None? then Some(LineageCycle)
    else if depth.value > Or(r.maxDepth, s.maxDepth) then Some(DepthExceeded)
    else if |Active(t, r.tenantId, r.source)| >= Or(r.maxActive, s.maxActive) then Some(ActiveExceeded)
    else None
  }

  ghost predicate CanCreate(t: Tables, s: Settings, r: Request) {
    Refusal(t, s, r).None? && ByKey(t, r.tenantId, r.source, Strip(r.key)) == {} && NewRefusal(t, s, r).None?
  }

  ghost function Created(t: Tables, s: Settings, r: Request): Tables
    requires CanCreate(t, s, r)
  {
    var depth := DepthOf(t.delegations, r.tenantId, r.source, s.maxDepth).value;
    t.(nextId := t.nextId + 1, delegations := t.delegations[t.nextId := NewRow(s, r, depth)])
  }

  // ---------------------------------------------------------------- claim, completion, cancellation

  predicate DelegationOf(t: Tables, tenantId: nat, d: Id) {
    d in t.delegations && t.delegations[d].tenantId == tenantId
  }

  function ClaimRefusal(t: Tables, tenantId: nat, d: Id, owner: string, now: int): Option<Error> {
    if Strip(owner) == "" || |Strip(owner)| > 128 then Some(OwnerInvalid)
    else if !DelegationOf(t, tenantId, d) then Some(DelegationNotFound)
    else if t.delegations[d].status != Pending then Some(NotPending)
    else if now >= t.delegations[d].timeoutAt then Some(TimeoutDue)
    else if !SourceOf(t, tenantId, t.delegations[d].source) then Some(ExecutionNotFound)
    else if Ended(t.executions[t.delegations[d].source].status) then Some(SourceEnded)
    else None
  }

  /** The claim inserts a fresh worker execution and its frontier, and binds the delegation to it. */
  function Claimed(t: Tables, tenantId: nat, d: Id, owner: string, now: int): Tables
    requires ClaimRefusal(t, tenantId, d, owner, now).None?
  {
    var row, worker := t.delegations[d], t.nextId;
    Tables(t.nextId + 1,
           t.executions[worker :=
                        Execution(tenantId, t.executions[row.source].createdBy, ExecutionRunning, Some(Strip(owner)),
                                            Some(now + row.timeoutSeconds * SECOND))],
           t.delegations[d := row.(status := Running, worker := Some(worker), startedAt := Some(now))],
           t.frontiers + [Frontier(worker, d)],
           t.cancels)
  }

  /** `_lock_delegation`: the delegation is running and bound to exactly this worker execution. */
  function FenceRefusal(t: Tables, tenantId: nat, d: Id, worker: Id): Option<Error> {
    if !DelegationOf(t, tenantId, d) then Some(DelegationNotFound)
    else if t.delegations[d].status != Running || t.delegations[d].worker != Some(worker) then Some(FenceFailed)
    else if !SourceOf(t, tenantId, worker) then Some(ExecutionNotFound)
    else None
  }

  datatype Outcome = Complete | Fail(code: string, message: string) | TimeOut

  function Final(o: Outcome): Status {
    match o case Complete => Completed case Fail(_, _) => Failed case TimeOut => TimedOut
  }

  predicate Matches(o: Outcome, s: ExecutionStatus) {
    match o
    case Complete => s == ExecutionCompleted
    case Fail(_, _) => s == ExecutionFailed
    case TimeOut => s == ExecutionPending || s == ExecutionRunning || s == ExecutionCancelled
  }

  /** The first `n` characters, or all if there are no more. */
  function Truncate(s: string, n: nat): (r: string)
    ensures r <= s && (|r| == n || (|r| < n && r == s))
  {
    if |s| <= n then s else s[..n]
  }

  function Least(a: nat, b: nat): nat {
    if a < b then a else b
  }

  function ErrorOf(o: Outcome): Option<(string, string)> {
    match o
    case Complete => None
    case Fail(code, message) => Some((Truncate(Strip(code), 100), Truncate(Strip(message), 2000)))
    case TimeOut => Some(("DELEGATION_TIMEOUT", "timeout_seconds exceeded"))
  }

  function FinishRefusal(t: Tables, tenantId: nat, d: Id, worker: Id, o: Outcome): Option<Error> {
    if FenceRefusal(t, tenantId, d, worker).Some? then FenceRefusal(t, tenantId, d, worker)
    else if !Matches(o, t.executions[worker].status) then Some(ExecutionStatusMismatch)
    else if o.Fail? && (Strip(o.code) == "" || Strip(o.message) == "") then Some(ErrorTextMissing)
    else None
  }

  function Finished(t: Tables, d: Id, o: Outcome, now: int): Tables
    requires d in t.delegations
  {
    t.(delegations := t.delegations[d :=
                                    t.delegations[d].(status := Final(o), endedAt := Some(now), error := ErrorOf(o))])
  }

  /** `cancel` reads the row without a lock, and checks what it read. */
  function CancelRefusal(t: Tables, tenantId: nat, source: Id, d: Id, actor: nat, admin: bool): Option<Error> {
    if !SourceOf(t, tenantId, source) then Some(ExecutionNotFound)
    else if !admin && t.executions[source].createdBy != actor then Some(Forbidden)
    else if !DelegationOf(t, tenantId, d) || t.delegations[d].source != source then Some(DelegationNotFound)
    else if !Allowed(t.delegations[d].status, Cancelled) then Some(TransitionInvalid)
    else None
  }

  function CancelledRow(row: DelegationRow, now: int): DelegationRow {
    row.(status := Cancelled, endedAt := Some(now))
  }

  /** At its commit, `cancel` writes the row it read by its primary key, whatever became of it. */
  function CancelWritten(t: Tables, ticket: nat, now: int): Tables
    requires ticket in t.cancels && t.cancels[ticket] in t.delegations
  {
    var d := t.cancels[ticket];
    t.(delegations := t.delegations[d := CancelledRow(t.delegations[d], now)], cancels := t.cancels - {ticket})
  }

  // ---------------------------------------------------------------- what is refused

  /** A request gets past the checks exactly if its source is alive, the actor may use it, and all limits hold. */
  lemma RequestPasses(t: Tables, s: Settings, r: Request)
    ensures Refusal(t, s, r).None? <==>
            r.source in t.executions && t.executions[r.source].tenantId == r.tenantId &&
            t.executions[r.source].status in {ExecutionPending, ExecutionRunning} &&
            (r.admin || r.actor == t.executions[r.source].createdBy) &&
            0 < (if r.maxDepth.Some? then r.maxDepth.value else s.maxDepth) < 21 &&
            0 < (if r.maxActive.Some? then r.maxActive.value else s.maxActive) < 101 &&
            0 < (if r.timeoutSeconds.Some? then r.timeoutSeconds.value else s.timeoutSeconds) < 86_401 &&
            r.payloadValid && 0 < |Strip(r.key)| < 129
  {
  }

  /** The checks are made in this order; a refusal names the first one that fails. */
  lemma RefusedFor(t: Tables, s: Settings, r: Request)
    ensures var known := r.source in t.executions && t.executions[r.source].tenantId == r.tenantId;
            var refusal := Refusal(t, s, r);
            (refusal == Some(ExecutionNotFound) <==> !known) &&
            (refusal == Some(SourceEnded) <==>
               known && t.executions[r.source].status !in {ExecutionPending, ExecutionRunning}) &&
            (refusal in {Some(Forbidden), Some(BudgetInvalid), Some(PayloadInvalid), Some(KeyInvalid), None} ==>
               (refusal == Some(Forbidden) <==> !r.admin && r.actor != t.executions[r.source].createdBy)) &&
            (refusal == Some(PayloadInvalid) ==> !r.payloadValid) &&
            (refusal == Some(KeyInvalid) ==> r.payloadValid && (Strip(r.key) == "" || 128 < |Strip(r.key)|)) &&
            (refusal == Some(BudgetInvalid) ==>
               Or(r.maxDepth, s.maxDepth) < 1 || 20 < Or(r.maxDepth, s.maxDepth) ||
               Or(r.maxActive, s.maxActive) < 1 || 100 < Or(r.maxActive, s.maxActive) ||
               Or(r.timeoutSeconds, s.timeoutSeconds) < 1 || 86_400 < Or(r.timeoutSeconds, s.timeoutSeconds)) &&
            (refusal.None? ||
             refusal.value in {ExecutionNotFound, SourceEnded, Forbidden, BudgetInvalid, PayloadInvalid, KeyInvalid})
  {
  }

  /** A delegation under a new key is refused for its agents, its depth and the number of active ones, in this order. */
  lemma NewPasses(t: Tables, s: Settings, r: Request)
    ensures var depth := DepthOf(t.delegations, r.tenantId, r.source, s.maxDepth); var refusal := NewRefusal(t, s, r);
            var fits := depth.Some? && depth.value <= Or(r.maxDepth, s.maxDepth);
            (refusal == Some(AgentUnavailable) <==> !r.agentsAvailable) &&
            (refusal == Some(LineageCycle) <==> r.agentsAvailable && depth.None?) &&
            (refusal == Some(DepthExceeded) <==> r.agentsAvailable && depth.Some? && !fits) &&
            (refusal == Some(ActiveExceeded) <==>
               r.agentsAvailable && fits && |Active(t, r.tenantId, r.source)| >= Or(r.maxActive, s.maxActive)) &&
            (refusal == None <==>
               r.agentsAvailable && fits && |Active(t, r.tenantId, r.source)| < Or(r.maxActive, s.maxActive))
  {
  }

  /** Only the worker of a running delegation ends it, with the outcome that its execution had. */
  lemma FinishPasses(t: Tables, tenantId: nat, d: Id, worker: Id, o: Outcome)
    ensures FinishRefusal(t, tenantId, d, worker, o).None? <==>
            d in t.delegations && t.delegations[d].tenantId == tenantId && t.delegations[d].status == Running &&
            t.delegations[d].worker == Some(worker) && worker in t.executions &&
            t.executions[worker].tenantId == tenantId &&
            match o
            case Complete => t.executions[worker].status == ExecutionCompleted
            case Fail(code, message) =>
              t.executions[worker].status == ExecutionFailed && Strip(code) != "" && Strip(message) != ""
            case TimeOut => t.executions[worker].status !in {ExecutionCompleted, ExecutionFailed}
  {
  }

  /** A failure stores its code and message, cut to their columns; the other outcomes have fixed texts. */
  lemma FinishedAs(t: Tables, d: Id, o: Outcome, now: int)
    requires d in t.delegations
    ensures var row := Finished(t, d, o, now).delegations[d];
            row.endedAt == Some(now) && row == t.delegations[d].(status := row.status, endedAt := row.endedAt,
                                                                 error := row.error) &&
            match o
            case Complete => row.status == Completed && row.error == None
            case Fail(code, message) =>
              row.status == Failed && row.error.Some? &&
              row.error.value.0 <= Strip(code) && |row.error.value.0| == Least(|Strip(code)|, 100) &&
              row.error.value.1 <= Strip(message) && |row.error.value.1| == Least(|Strip(message)|, 2000)
            case TimeOut =>
              row.status == TimedOut && row.error == Some(("DELEGATION_TIMEOUT", "timeout_seconds exceeded"))
  {
  }

  /** A cancel passes its checks exactly if its actor may use the source and the delegation is not over. */
  lemma CancelPasses(t: Tables, tenantId: nat, source: Id, d: Id, actor: nat, admin: bool)
    ensures CancelRefusal(t, tenantId, source, d, actor, admin).None? <==>
            source in t.executions && t.executions[source].tenantId == tenantId &&
            (admin || t.executions[source].createdBy == actor) && d in t.delegations &&
            t.delegations[d].tenantId == tenantId && t.delegations[d].source == source &&
            t.delegations[d].status in {Pending, Running}
  {
  }

  /** The checks of a claim in their order. */
  lemma ClaimRefusedFor(t: Tables, tenantId: nat, d: Id, owner: string, now: int)
    ensures var refusal := ClaimRefusal(t, tenantId, d, owner, now);
            var found := 0 < |Strip(owner)| < 129 && d in t.delegations && t.delegations[d].tenantId == tenantId;
            (refusal == Some(OwnerInvalid) <==> !(0 < |Strip(owner)| < 129)) &&
            (refusal == Some(DelegationNotFound) <==> 0 < |Strip(owner)| < 129 && !found) &&
            (refusal == Some(NotPending) <==> found && t.delegations[d].status != Pending) &&
            (refusal == Some(TimeoutDue) <==>
               found && t.delegations[d].status == Pending && t.delegations[d].timeoutAt <= now) &&
            (refusal == Some(SourceEnded) ==>
               t.delegations[d].source in t.executions &&
               t.executions[t.delegations[d].source].status !in {ExecutionPending, ExecutionRunning}) &&
            (refusal == Some(ExecutionNotFound) ==> !SourceOf(t, tenantId, t.delegations[d].source)) &&
            (refusal.None? ||
             refusal.value in
             {OwnerInvalid, DelegationNotFound, NotPending, TimeoutDue, ExecutionNotFound, SourceEnded})
  {
  }

  /** The checks of a completion and of a cancel in their order. */
  lemma EndRefusedFor(t: Tables, tenantId: nat, d: Id, worker: Id, o: Outcome, source: Id, actor: nat, admin: bool)
    ensures var refusal := FinishRefusal(t, tenantId, d, worker, o);
            var found := d in t.delegations && t.delegations[d].tenantId == tenantId;
            var fenced := found && t.delegations[d].status == Running && t.delegations[d].worker == Some(worker);
            (refusal == Some(DelegationNotFound) <==> !found) && (refusal == Some(FenceFailed) <==> found && !fenced) &&
            (refusal == Some(ExecutionNotFound) <==> fenced && !SourceOf(t, tenantId, worker)) &&
            (refusal == Some(ErrorTextMissing) ==> o.Fail? && t.executions[worker].status == ExecutionFailed) &&
            (refusal.None? ||
             refusal.value in
             {DelegationNotFound, FenceFailed, ExecutionNotFound, ExecutionStatusMismatch, ErrorTextMissing})
    ensures var refusal := CancelRefusal(t, tenantId, source, d, actor, admin);
            var known := source in t.executions && t.executions[source].tenantId == tenantId;
            var permitted := known && (admin || t.executions[source].createdBy == actor);
            var found := DelegationOf(t, tenantId, d) && t.delegations[d].source == source;
            (refusal == Some(ExecutionNotFound) <==> !known) && (refusal == Some(Forbidden) <==> known && !permitted) &&
            (refusal == Some(DelegationNotFound) <==> permitted && !found) &&
            (refusal == Some(TransitionInvalid) <==>
               permitted && found && t.delegations[d].status !in {Pending, Running})
  {
  }

  /** What other tenants delegate has no influence on the walk. */
  lemma OtherTenantsDoNotCount(t: map<Id, DelegationRow>, d: Id, row: DelegationRow, tenantId: nat, source: Id,
                               settingsMax: int)
    requires row.tenantId != tenantId && (d in t ==> t[d].tenantId != tenantId)
    ensures DepthOf(t[d := row], tenantId, source, settingsMax) == DepthOf(t, tenantId, source, settingsMax)
  {
    assert OfTenant(t[d := row], tenantId) == OfTenant(t, tenantId);
  }

  /** A claim asks for a named worker, a pending delegation in time, and a source that is alive. */
  lemma ClaimPasses(t: Tables, tenantId: nat, d: Id, owner: string, now: int)
    ensures ClaimRefusal(t, tenantId, d, owner, now).None? <==>
            0 < |Strip(owner)| < 129 && d in t.delegations && t.delegations[d].tenantId == tenantId &&
            t.delegations[d].status == Pending && now < t.delegations[d].timeoutAt &&
            t.delegations[d].source in t.executions &&
            t.executions[t.delegations[d].source].tenantId == tenantId &&
            t.executions[t.delegations[d].source].status in {ExecutionPending, ExecutionRunning}
  {
  }

  // ---------------------------------------------------------------- the service

  /** A persisted delegation. */
  class DelegationRecord {
    const id: Id
    const tenantId: nat
    const source: Id
    const target: nat
    const key: string
    const maxDepth: int
    const maxActive: int
    const timeoutSeconds: int
    const depth: nat
    const timeoutAt: int
    var status: Status
    var worker: Option<Id>
    var startedAt: Option<int>
    var endedAt: Option<int>
    var error: Option<(string, string)>

    function View(): DelegationRow
      reads this
    {
      DelegationRow(tenantId, source, target, key, status, maxDepth, maxActive, timeoutSeconds, depth, timeoutAt,
                    worker, startedAt, endedAt, error)
    }

    constructor (id: Id, s: Settings, r: Request, depth: nat)
      ensures this.id == id && View() == NewRow(s, r, depth)
      ensures tenantId == r.tenantId && source == r.source && target == r.target && key == Strip(r.key) &&
              this.depth == depth && status == Pending && worker.None?
      ensures maxDepth == (if r.maxDepth.Some? then r.maxDepth.value else s.maxDepth) &&
              maxActive == (if r.maxActive.Some? then r.maxActive.value else s.maxActive) &&
              timeoutSeconds == (if r.timeoutSeconds.Some? then r.timeoutSeconds.value else s.timeoutSeconds) &&
              timeoutAt == r.now + timeoutSeconds * SECOND
    {
      this.id := id;
      tenantId, source, target, key := r.tenantId, r.source, r.target, Strip(r.key);
      maxDepth, maxActive, timeoutSeconds := Or(r.maxDepth, s.maxDepth), Or(r.maxActive, s.maxActive),
        Or(r.timeoutSeconds, s.timeoutSeconds);
      this.depth := depth;
      timeoutAt := r.now + Or(r.timeoutSeconds, s.timeoutSeconds) * SECOND;
      status, worker, startedAt, endedAt, error := Pending, None, None, None, None;
    }

    method Bind(worker: Id, now: int)
      modifies this
      ensures View() == old(View()).(status := Running, worker := Some(worker), startedAt := Some(now))
    {
      status := Running;
      this.worker := Some(worker);
      startedAt := Some(now);
    }

    method End(status: Status, error: Option<(string, string)>, now: int)
      modifies this
      ensures View() == old(View()).(status := status, endedAt := Some(now), error := error)
    {
      this.status := status;
      endedAt := Some(now);
      this.error := error;
    }

    method Cancel(now: int)
      modifies this
      ensures View() == CancelledRow(old(View()), now)
      ensures View() == old(View()).(status := Cancelled, endedAt := Some(now))
    {
      status := Cancelled;
      endedAt := Some(now);
    }
  }

  class Service {
    const settings: Settings
    var nextId: Id
    var executions: map<Id, Execution>
    var delegations: map<Id, DelegationRecord>
    var frontiers: seq<Frontier>
    var cancels: map<nat, Id>

    ghost function Rows(): map<Id, DelegationRow>
      reads this, delegations.Values
    {
      map d | d in delegations :: delegations[d].View()
    }

    ghost function State(): Tables
      reads this, delegations.Values
    {
      Tables(nextId, executions, Rows(), frontiers, cancels)
    }

    /** The next identifier is fresh, and cancel requests have read delegations that exist. */
    ghost predicate Valid()
      reads this, delegations.Values
    {
      (forall d | d in delegations :: delegations[d].id == d < nextId) &&
      (forall ticket | ticket in cancels :: cancels[ticket] in delegations)
    }

    constructor (settings: Settings)
      ensures this.settings == settings && Valid() && State() == Tables(0, map[], map[], [], map[])
    {
      this.settings := settings;
      nextId, executions, delegations, frontiers, cancels := 0, map[], map[], [], map[];
    }

    twostate lemma OneRowChanged(d: Id)
      requires d in delegations && delegations == old(delegations) && forall other | other in delegations ::
               delegations[other].id == other
      requires forall other | other in delegations && other != d :: unchanged(delegations[other])
      ensures Rows() == old(Rows())[d := delegations[d].View()]
    {
    }

    /**
     `_delegation_depth`, on tables where each worker execution was made for one delegation, as all
     reachable ones are.
     */
    method DelegationDepth(tenantId: nat, source: Id) returns (r: Result<nat, Error>)
      requires UniqueWorkers(Rows())
      ensures match DepthOf(Rows(), tenantId, source, settings.maxDepth)
              case Some(depth) => r == Success(depth)
              case None => r == Failure(LineageCycle)
    {
      ghost var t := OfTenant(Rows(), tenantId);
      var depth, current, visited := 1, source, {};
      while current !in visited
        invariant 1 <= depth < DepthCap(settings.maxDepth)
        invariant Walk(t, current, depth, visited, settings.maxDepth) == Walk(t, source, 1, {}, settings.maxDepth)
        decreases DepthCap(settings.maxDepth) - depth
      {
        var parents := set d | d in delegations && delegations[d].tenantId == tenantId &&
          delegations[d].worker == Some(current);
        OneParent(t, current, parents);
        if parents == {} {
          return Success(depth);
        }
        var parent :| parent in parents && forall other | other in parents :: other == parent;
        visited := visited + {current};
        depth := depth + 1;
        current := delegations[parent].source;
        if depth > settings.maxDepth + 1 {
          return Success(depth);
        }
      }
      return Failure(LineageCycle);
    }

    /** The checks of `create` before any delegation is looked up. */
    method CheckRequest(r: Request) returns (refused: Option<Error>)
      ensures refused == Refusal(State(), settings, r)
    {
      if r.source !in executions || executions[r.source].tenantId != r.tenantId {
        return Some(ExecutionNotFound);
      }
      var source := executions[r.source];
      if source.status == ExecutionCompleted || source.status == ExecutionFailed ||
         source.status == ExecutionCancelled {
        return Some(SourceEnded);
      }
      if !r.admin && r.actor != source.createdBy {
        return Some(Forbidden);
      }
      if !BudgetValid(settings, r) {
        return Some(BudgetInvalid);
      }
      if !r.payloadValid {
        return Some(PayloadInvalid);
      }
      var key := Strip(r.key);
      return if key == "" || |key| > 128 then Some(KeyInvalid) else None;
    }

    /** `get_by_key` and `count_active` */
    method Lookup(r: Request) returns (existing: set<Id>, active: nat)
      ensures existing == ByKey(State(), r.tenantId, r.source, Strip(r.key)) &&
              active == |Active(State(), r.tenantId, r.source)|
      ensures forall d :: d in existing <==>
                d in delegations && delegations[d].tenantId == r.tenantId && delegations[d].source == r.source &&
                delegations[d].key == Strip(r.key)
    {
      existing := set d | d in delegations && delegations[d].tenantId == r.tenantId &&
        delegations[d].source == r.source && delegations[d].key == Strip(r.key);
      var unfinished := set d | d in delegations && delegations[d].tenantId == r.tenantId &&
        delegations[d].source == r.source &&
                                (delegations[d].status == Pending || delegations[d].status == Running);
      assert unfinished == Active(State(), r.tenantId, r.source);
      active := |unfinished|;
    }

    method Insert(r: Request, depth: nat) returns (id: Id)
      requires Valid()
      modifies this`delegations, this`nextId
      ensures Valid() && id == old(nextId)
      ensures State() == old(State()).(nextId := old(nextId) + 1,
                                       delegations := old(Rows())[id := NewRow(settings, r, depth)])
    {
      id := nextId;
      var record := new DelegationRecord(id, settings, r, depth);
      delegations := delegations[id := record];
      nextId := nextId + 1;
      assert Rows() == old(Rows())[id := record.View()];
    }

    /** The checks of a delegation under a new key, and its depth. */
    method CheckNew(r: Request, active: nat) returns (depth: Result<nat, Error>)
      requires UniqueWorkers(Rows()) && active == |Active(State(), r.tenantId, r.source)|
      ensures match NewRefusal(State(), settings, r)
              case Some(error) => depth == Failure(error)
              case None =>
                depth.Success? && DepthOf(Rows(), r.tenantId, r.source, settings.maxDepth) == Some(depth.value)
    {
      if !r.agentsAvailable {
        return Failure(AgentUnavailable);
      }
      depth := DelegationDepth(r.tenantId, r.source);
      if depth.Success? {
        if depth.value > Or(r.maxDepth, settings.maxDepth) {
          return Failure(DepthExceeded);
        }
        if active >= Or(r.maxActive, settings.maxActive) {
          return Failure(ActiveExceeded);
        }
      }
    }

    method Create(r: Request) returns (result: Result<Id, Error>)
      requires Valid() && UniqueWorkers(Rows())
      modifies this`delegations, this`nextId
      ensures Valid()
      ensures var before := old(State()); var existing := ByKey(before, r.tenantId, r.source, Strip(r.key));
              if Refusal(before, settings, r).Some?
                 then result == Failure(Refusal(before, settings, r).value) && State() == before
              else if existing != {} then
                State() == before &&
                exists d :: d in existing && result == if before.delegations[d].target == r.target then Success(d)
                  else Failure(KeyBoundElsewhere)
              else if NewRefusal(before, settings, r).Some?
                then result == Failure(NewRefusal(before, settings, r).value) && State() == before
              else result == Success(before.nextId) && State() == Created(before, settings, r)
    {
      var refused := CheckRequest(r);
      if refused.Some? {
        return Failure(refused.value);
      }
      var existing, active := Lookup(r);
      if existing != {} {
        var d :| d in existing;
        return if delegations[d].target == r.target then Success(d) else Failure(KeyBoundElsewhere);
      }
      var depth := CheckNew(r, active);
      if depth.Failure? {
        return Failure(depth.error);
      }
      var id := Insert(r, depth.value);
      return Success(id);
    }

    /** `claim_delegation` */
    method Claim(tenantId: nat, d: Id, owner: string, now: int) returns (r: Result<Id, Error>)
      requires Valid()
      modifies this`nextId, this`executions, this`frontiers, delegations.Values
      ensures Valid()
      ensures match ClaimRefusal(old(State()), tenantId, d, owner, now)
              case Some(error) => r == Failure(error) && State() == old(State())
              case None => r == Success(old(nextId)) && State() == Claimed(old(State()), tenantId, d, owner, now)
    {
      var name := Strip(owner);
      if name == "" || |name| > 128 {
        return Failure(OwnerInvalid);
      }
      if d !in delegations || delegations[d].tenantId != tenantId {
        return Failure(DelegationNotFound);
      }
      var item := delegations[d];
      if item.status != Pending {
        return Failure(NotPending);
      }
      if now >= item.timeoutAt {
        return Failure(TimeoutDue);
      }
      if item.source !in executions || executions[item.source].tenantId != tenantId {
        return Failure(ExecutionNotFound);
      }
      var source := executions[item.source];
      if source.status == ExecutionCompleted || source.status == ExecutionFailed ||
         source.status == ExecutionCancelled {
        return Failure(SourceEnded);
      }
      var worker := nextId;
      nextId := nextId + 1;
      executions := executions[worker :=
                               Execution(tenantId, source.createdBy, ExecutionRunning, Some(name),
                                         Some(now + item.timeoutSeconds * SECOND))];
      item.Bind(worker, now);
      frontiers := frontiers + [Frontier(worker, d)];
      OneRowChanged(d);
      return Success(worker);
    }

    /** `_lock_delegation` */
    method LockDelegation(tenantId: nat, d: Id, worker: Id) returns (refused: Option<Error>)
      ensures refused == FenceRefusal(State(), tenantId, d, worker)
    {
      if d !in delegations || delegations[d].tenantId != tenantId {
        return Some(DelegationNotFound);
      }
      if delegations[d].status != Running || delegations[d].worker != Some(worker) {
        return Some(FenceFailed);
      }
      return if worker !in executions || executions[worker].tenantId != tenantId then Some(ExecutionNotFound) else None;
    }

    /** `complete_delegation`, `fail_delegation` and `timeout_delegation` */
    method Finish(tenantId: nat, d: Id, worker: Id, o: Outcome, now: int) returns (r: Result<(), Error>)
      requires Valid()
      modifies delegations.Values
      ensures Valid()
      ensures match FinishRefusal(old(State()), tenantId, d, worker, o)
              case Some(error) => r == Failure(error) && State() == old(State())
              case None => r == Success(()) && State() == Finished(old(State()), d, o, now)
    {
      var refused := LockDelegation(tenantId, d, worker);
      if refused.Some? {
        return Failure(refused.value);
      }
      var status, item := executions[worker].status, delegations[d];
      match o {
        case Complete =>
          if status != ExecutionCompleted {
            return Failure(ExecutionStatusMismatch);
          }
          item.End(Completed, None, now);
        case Fail(code, message) =>
          if status != ExecutionFailed {
            return Failure(ExecutionStatusMismatch);
          }
          if Strip(code) == "" || Strip(message) == "" {
            return Failure(ErrorTextMissing);
          }
          item.End(Failed, Some((Truncate(Strip(code), 100), Truncate(Strip(message), 2000))), now);
        case TimeOut =>
          if status == ExecutionCompleted || status == ExecutionFailed {
            return Failure(ExecutionStatusMismatch);
          }
          item.End(TimedOut, Some(("DELEGATION_TIMEOUT", "timeout_seconds exceeded")), now);
      }
      OneRowChanged(d);
      return Success(());
    }

    /** The first half of `cancel`: an unlocked read and its checks. */
    method ReadForCancel(ticket: nat, tenantId: nat, source: Id, d: Id, actor: nat, admin: bool)
      returns (r: Result<(), Error>)
      requires Valid() && ticket !in cancels
      modifies this`cancels
      ensures Valid()
      ensures match CancelRefusal(old(State()), tenantId, source, d, actor, admin)
              case Some(error) => r == Failure(error) && State() == old(State())
              case None => r == Success(()) && State() == old(State()).(cancels := old(cancels)[ticket := d])
    {
      if source !in executions || executions[source].tenantId != tenantId {
        return Failure(ExecutionNotFound);
      }
      if !admin && executions[source].createdBy != actor {
        return Failure(Forbidden);
      }
      if d !in delegations || delegations[d].tenantId != tenantId || delegations[d].source != source {
        return Failure(DelegationNotFound);
      }
      if delegations[d].status != Pending && delegations[d].status != Running {
        return Failure(TransitionInvalid);
      }
      cancels := cancels[ticket := d];
      return Success(());
    }

    /** The second half: the row that was read is written and committed. */
    method WriteCancel(ticket: nat, now: int)
      requires Valid() && ticket in cancels
      modifies this`cancels, delegations.Values
      ensures Valid() && State() == CancelWritten(old(State()), ticket, now)
    {
      var item := delegations[cancels[ticket]];
      item.Cancel(now);
      OneRowChanged(item.id);
      cancels := cancels - {ticket};
    }
  }
}
