/**
 The delivery lease protocol: any number of workers claim, send and mark deliveries, crash, finish
 late and take over expired leases, while operators replay finished deliveries.

 Every repository call is one atomic step, as its row lock makes it. A worker reads the clock before
 it claims, so the time it claims with may lie in the past.
 */
module WebhookLease {
  import opened Wrappers
  import opened Text
  import opened WebhookDelivery

  datatype Worker = Worker(owner: string, leaseSeconds: int, maxAttempts: int, tenantId: Option<nat>,
                           consumerGroup: string)

  /** One `deliver_once` between its claim and its mark. `claim` is the position of its claim in the audit log. */
  datatype Task = Task(worker: Worker, delivery: Id, attempt: nat, claimedAt: int, claim: nat)

  datatype World = World(clock: int, store: Store, tasks: set<Task>)

  datatype Step =
    | Tick(to: int)
    | Enqueue(id: Id, tenantId: nat, consumerGroup: string, createdAt: int)
    | Claims(worker: Worker, readAt: int, locked: set<Id>, id: Id)
    | Delivers(task: Task, statusCode: int)
    | Fails(task: Task, errorCode: string, errorMessage: string, response: Option<int>)
    | Crashes(task: Task)
    | Replays(tenantId: nat, id: Id, actor: string)

  predicate ValidWorker(w: Worker) {
    Strip(w.owner) != "" && w.leaseSeconds > 0 && w.maxAttempts > 0 && ValidGroup(w.consumerGroup)
  }

  function QueryOf(w: Worker, readAt: int): Query {
    Query(readAt, w.maxAttempts, w.tenantId, Strip(w.consumerGroup))
  }

  ghost predicate CanClaim(w: World, worker: Worker, readAt: int, locked: set<Id>, id: Id) {
    ValidWorker(worker) && readAt <= w.clock && FirstClaimable(w.store.rows, locked, QueryOf(worker, readAt), id)
  }

  function Expiry(t: Task): int {
    t.claimedAt + t.worker.leaseSeconds * SECOND
  }

  /** `deliver_once` asks for a retry time unless the attempt it claimed was its last. */
  function FailingOf(t: Task, errorCode: string, errorMessage: string, response: Option<int>): Failing {
    Failing(errorCode, errorMessage, response, if t.attempt < t.worker.maxAttempts
            then RetryAt(t.claimedAt, t.attempt, 2, 300) else None)
  }

  /** What a step does; a step that is not enabled does nothing. */
  ghost function Apply(w: World, step: Step): World {
    match step
    case Tick(to) => if to >= w.clock then w.(clock := to) else w
    case Enqueue(id, tenantId, group, createdAt) => w.(store := EnqueueStore(w.store, id, tenantId, group, createdAt))
    case Claims(worker, readAt, locked, id) =>
      if CanClaim(w, worker, readAt, locked, id)
      then
        var store := ClaimStore(w.store, id, readAt, worker.owner, worker.leaseSeconds);
        World(w.clock, store, w.tasks + {Task(worker, id, store.rows[id].attemptCount, readAt, |w.store.audits|)})
      else w
    case Delivers(t, code) =>
      if t in w.tasks then World(w.clock, DeliverStore(w.store, t.delivery, t.worker.owner, w.clock, code),
                                 w.tasks - {t}) else w
    case Fails(t, code, message, response) =>
      if t in w.tasks
      then World(w.clock, FailStore(w.store, t.delivery, t.worker.owner, FailingOf(t, code, message, response),
                                    t.worker.maxAttempts),
                 w.tasks - {t})
      else w
    case Crashes(t) => w.(tasks := w.tasks - {t})
    case Replays(tenantId, id, actor) => w.(store := ReplayStore(w.store, tenantId, id, actor))
  }

  ghost function Run(w: World, steps: seq<Step>): World
    decreases |steps|
  {
    if steps == [] then w else Run(Apply(w, steps[0]), steps[1..])
  }

  function Start(clock: int): World {
    World(clock, Store(map[], []), {})
  }

  // ---------------------------------------------------------------- reading the audit log

  /** What the log tells about one delivery. */
  datatype Summary = Summary(status: Status, attempts: nat, holder: Option<string>)

  function Extend(before: Summary, entry: Audit): Summary {
    Summary(entry.status,
            match entry.action case Claim => before.attempts + 1 case Replay => 0 case _ => before.attempts,
            if entry.status == Running then Some(entry.actor) else None)
  }

  /** The status of the last entry, the claims since the last replay and the current lease owner. */
  function Fold(log: seq<Audit>, id: Id): Summary {
    if log == [] then Summary(Pending, 0, None)
    else
      var before, entry := Fold(log[..|log| - 1], id), log[|log| - 1];
      if entry.delivery == id then Extend(before, entry) else before
  }

  function SummaryOf(row: Row): Summary {
    Summary(row.status, row.attemptCount, row.leaseOwner)
  }

  /**
   Which entry may follow: claims on pending or running, completions by the lease owner, replays of
   finished deliveries.
   */
  predicate Legal(before: Summary, entry: Audit) {
    match entry.action
    case Claim => !Finished(before.status) && entry.status == Running
    case Deliver => before.status == Running && before.holder == Some(entry.actor) && entry.status == Delivered
    case Retry => before.status == Running && before.holder == Some(entry.actor) && entry.status == Pending
    case Bury => before.status == Running && before.holder == Some(entry.actor) && entry.status == DeadLetter
    case Replay => Finished(before.status) && entry.status == Pending
  }

  ghost predicate LegalLog(log: seq<Audit>) {
    forall i | 0 <= i < |log| ::
      Legal(Fold(log[..i], log[i].delivery), log[i]) &&
      log[i].attemptCount == Fold(log[..i + 1], log[i].delivery).attempts
  }

  // ---------------------------------------------------------------- invariants

  predicate RowShape(row: Row) {
    (row.status == Running <==> row.leaseOwner.Some?) && (row.status == Running <==> row.leaseExpiresAt.Some?)
  }

  /** The audit log and the rows tell the same story. */
  ghost predicate StoreInv(s: Store) {
    (forall id | id in s.rows :: RowShape(s.rows[id]) && SummaryOf(s.rows[id]) == Fold(s.audits, id)) &&
    (forall i | 0 <= i < |s.audits| :: s.audits[i].delivery in s.rows) &&
    LegalLog(s.audits)
  }

  lemma {:induction false} FoldUntouched(log: seq<Audit>, id: Id)
    requires forall i | 0 <= i < |log| :: log[i].delivery != id
    ensures Fold(log, id) == Summary(Pending, 0, None)
  {
    if log != [] {
      FoldUntouched(log[..|log| - 1], id);
    }
  }

  lemma FoldSnoc(log: seq<Audit>, entry: Audit, id: Id)
    ensures Fold(log + [entry], id) == if entry.delivery == id then Extend(Fold(log, id), entry) else Fold(log, id)
  {
  }

  lemma LegalLogSnoc(log: seq<Audit>, entry: Audit)
    requires LegalLog(log) && Legal(Fold(log, entry.delivery), entry)
    requires entry.attemptCount == Extend(Fold(log, entry.delivery), entry).attempts
    ensures LegalLog(log + [entry])
  {
    var log' := log + [entry];
    forall i | 0 <= i < |log'|
      ensures Legal(Fold(log'[..i], log'[i].delivery), log'[i]) &&
              log'[i].attemptCount == Fold(log'[..i + 1], log'[i].delivery).attempts
    {
      if i < |log| {
        assert log'[..i] == log[..i] && log'[..i + 1] == log[..i + 1];
      } else {
        assert log'[..i] == log && log'[..i + 1] == log';
        FoldSnoc(log, entry, entry.delivery);
      }
    }
  }

  /** Every operation records a legal entry that moves the summary of its row. */
  lemma RecordKeeps(s: Store, id: Id, row: Row, action: Action, actor: string, error: Option<(string, string)>)
    requires StoreInv(s) && id in s.rows && RowShape(row)
    requires var entry := Record(s, id, row, action, actor, error).audits[|s.audits|];
             Legal(SummaryOf(s.rows[id]), entry) && SummaryOf(row) == Extend(SummaryOf(s.rows[id]), entry)
    ensures StoreInv(Record(s, id, row, action, actor, error))
  {
    var s' := Record(s, id, row, action, actor, error);
    var entry := s'.audits[|s.audits|];
    LegalLogSnoc(s.audits, entry);
    forall other | other in s'.rows ensures SummaryOf(s'.rows[other]) == Fold(s'.audits, other) {
      FoldSnoc(s.audits, entry, other);
    }
  }

  lemma ClaimKeeps(s: Store, id: Id, q: Query, owner: string, leaseSeconds: int)
    requires StoreInv(s) && id in s.rows && Claimable(s.rows[id], q)
    ensures StoreInv(ClaimStore(s, id, q.now, owner, leaseSeconds))
  {
    RecordKeeps(s, id, ClaimedRow(s.rows[id], q.now, owner, leaseSeconds), Claim, owner, None);
  }

  lemma DeliverKeeps(s: Store, id: Id, owner: string, now: int, code: int)
    requires StoreInv(s)
    ensures StoreInv(DeliverStore(s, id, owner, now, code))
  {
    if HoldsLease(s, id, owner) {
      RecordKeeps(s, id, DeliveredRow(s.rows[id], now, code), Deliver, owner, None);
    }
  }

  lemma FailKeeps(s: Store, id: Id, owner: string, f: Failing, maxAttempts: int)
    requires StoreInv(s)
    ensures StoreInv(FailStore(s, id, owner, f, maxAttempts))
  {
    if HoldsLease(s, id, owner) {
      var row := FailedRow(s.rows[id], f, maxAttempts);
      RecordKeeps(s, id, row, if row.status == DeadLetter then Bury
                  else Retry, owner, Some((f.errorCode, f.errorMessage)));
    }
  }

  lemma ReplayKeeps(s: Store, tenantId: nat, id: Id, actor: string)
    requires StoreInv(s)
    ensures StoreInv(ReplayStore(s, tenantId, id, actor))
  {
    if Owns(s, tenantId, id) && Finished(s.rows[id].status) {
      RecordKeeps(s, id, ReplayedRow(s.rows[id]), Replay, actor, None);
    }
  }

  lemma EnqueueKeeps(s: Store, id: Id, tenantId: nat, group: string, createdAt: int)
    requires StoreInv(s)
    ensures StoreInv(EnqueueStore(s, id, tenantId, group, createdAt))
  {
    if id !in s.rows {
      FoldUntouched(s.audits, id);
    }
  }

  lemma StepKeepsStore(w: World, step: Step)
    requires StoreInv(w.store)
    ensures StoreInv(Apply(w, step).store)
  {
    match step
    case Tick(_) =>
    case Enqueue(id, tenantId, group, createdAt) => EnqueueKeeps(w.store, id, tenantId, group, createdAt);
    case Claims(worker, readAt, locked, id) =>
      if CanClaim(w, worker, readAt, locked, id) {
        ClaimKeeps(w.store, id, QueryOf(worker, readAt), worker.owner, worker.leaseSeconds);
      }
    case Delivers(t, code) => DeliverKeeps(w.store, t.delivery, t.worker.owner, w.clock, code);
    case Fails(t, code, message, response) =>
      FailKeeps(w.store, t.delivery, t.worker.owner, FailingOf(t, code, message, response), t.worker.maxAttempts);
    case Crashes(_) =>
    case Replays(tenantId, id, actor) => ReplayKeeps(w.store, tenantId, id, actor);
  }

  lemma {:induction false} RunKeepsStore(w: World, steps: seq<Step>)
    requires StoreInv(w.store)
    ensures StoreInv(Run(w, steps).store)
    decreases |steps|
  {
    if steps != [] {
      StepKeepsStore(w, steps[0]);
      RunKeepsStore(Apply(w, steps[0]), steps[1..]);
    }
  }

  /**
   In every reachable state, whatever the interleaving, folding the audit log gives back each row:
   the status of its last entry, the number of claims since the last replay and the lease owner.
   */
  lemma AuditLogTellsRows(clock: int, steps: seq<Step>, id: Id)
    requires id in Run(Start(clock), steps).store.rows
    ensures var s := Run(Start(clock), steps).store;
            SummaryOf(s.rows[id]) == Fold(s.audits, id) && RowShape(s.rows[id]) && LegalLog(s.audits)
  {
    RunKeepsStore(Start(clock), steps);
  }

  // ---------------------------------------------------------------- claims and completions in the log

  /** The position of the last entry about a delivery. */
  function LastEntry(log: seq<Audit>, id: Id): (r: Option<nat>)
    ensures r.Some? ==> r.value < |log| && log[r.value].delivery == id
    ensures forall i | 0 <= i < |log| && log[i].delivery == id :: r.Some? && i <= r.value
  {
    if log == [] then None
    else if log[|log| - 1].delivery == id then Some(|log| - 1)
    else LastEntry(log[..|log| - 1], id)
  }

  lemma {:induction false} FoldAtLast(log: seq<Audit>, id: Id)
    ensures match LastEntry(log, id)
            case None => Fold(log, id) == Summary(Pending, 0, None)
            case Some(i) => Fold(log, id) == Extend(Fold(log[..i], id), log[i])
  {
    if log != [] {
      var init := log[..|log| - 1];
      if log[|log| - 1].delivery != id {
        FoldAtLast(init, id);
        match LastEntry(init, id)
        case None =>
        case Some(i) => assert init[..i] == log[..i];
      }
    }
  }

  predicate IsCompletion(action: Action) {
    action == Deliver || action == Retry || action == Bury
  }

  /** A delivery is running under `owner` exactly when its last entry is a claim by `owner`. */
  lemma RunningIffClaimed(log: seq<Audit>, id: Id, owner: string)
    requires LegalLog(log)
    ensures var last := LastEntry(log, id);
            Fold(log, id).status == Running && Fold(log, id).holder == Some(owner) <==>
            last.Some? && log[last.value].action == Claim && log[last.value].actor == owner
  {
    FoldAtLast(log, id);
    var last := LastEntry(log, id);
    if last.Some? {
      assert Legal(Fold(log[..last.value], id), log[last.value]);
    }
  }

  lemma LegalPrefix(log: seq<Audit>, j: nat)
    requires LegalLog(log) && j <= |log|
    ensures LegalLog(log[..j])
  {
    var log' := log[..j];
    forall i | 0 <= i < j
      ensures Legal(Fold(log'[..i], log'[i].delivery), log'[i]) &&
              log'[i].attemptCount == Fold(log'[..i + 1], log'[i].delivery).attempts
    {
      assert log'[..i] == log[..i] && log'[..i + 1] == log[..i + 1];
    }
  }

  /** Every completion follows, among the entries of its delivery, directly on a claim by the same owner. */
  lemma CompletionFollowsClaim(log: seq<Audit>, j: nat)
    requires LegalLog(log) && j < |log| && IsCompletion(log[j].action)
    ensures var claim := LastEntry(log[..j], log[j].delivery);
            claim.Some? && log[claim.value].action == Claim && log[claim.value].actor == log[j].actor
  {
    LegalPrefix(log, j);
    assert Legal(Fold(log[..j], log[j].delivery), log[j]);
    RunningIffClaimed(log[..j], log[j].delivery, log[j].actor);
  }

  /** The claim that a completion belongs to: the entry before it about the same delivery. */
  function ClaimOf(log: seq<Audit>, j: nat): Option<nat>
    requires j < |log|
  {
    LastEntry(log[..j], log[j].delivery)
  }

  /** Completions belong to claims of their owners, and no two completions, of whichever deliveries, to the same one. */
  lemma OneCompletionPerClaim(log: seq<Audit>, j: nat, k: nat)
    requires LegalLog(log) && j < k < |log| && IsCompletion(log[j].action) && IsCompletion(log[k].action)
    ensures ClaimOf(log, j).Some? && ClaimOf(log, k).Some? && ClaimOf(log, j) != ClaimOf(log, k)
    ensures var a, b := ClaimOf(log, j).value, ClaimOf(log, k).value;
            a < j && log[a].action == Claim && log[a].actor == log[j].actor && log[a].delivery == log[j].delivery &&
            b < k && log[b].action == Claim && log[b].actor == log[k].actor && log[b].delivery == log[k].delivery
  {
    CompletionFollowsClaim(log, j);
    CompletionFollowsClaim(log, k);
    if log[j].delivery == log[k].delivery {
      assert log[..k][j] == log[j];
    }
  }

  // ---------------------------------------------------------------- tasks and leases

  /** No entry about the delivery was written after the task's claim. */
  predicate Current(s: Store, t: Task) {
    LastEntry(s.audits, t.delivery) == Some(t.claim)
  }

  /** A task knows its claim, and as long as nothing was written after it the row still carries its lease. */
  predicate TaskInv(clock: int, s: Store, t: Task) {
    ValidWorker(t.worker) && t.claimedAt <= clock && t.attempt > 0 && t.delivery in s.rows && t.claim < |s.audits| &&
    (var entry := s.audits[t.claim];
     entry.delivery == t.delivery && entry.action == Claim && entry.actor == t.worker.owner) &&
    (Current(s, t) ==>
       s.rows[t.delivery].leaseExpiresAt == Some(Expiry(t)) && s.rows[t.delivery].attemptCount == t.attempt)
  }

  ghost predicate Inv(w: World) {
    StoreInv(w.store) && (forall t | t in w.tasks :: TaskInv(w.clock, w.store, t)) && DistinctClaims(w.tasks)
  }

  ghost predicate DistinctClaims(tasks: set<Task>) {
    forall t, u | t in tasks && u in tasks && t.claim == u.claim :: t == u
  }

  lemma DistinctAdd(tasks: set<Task>, t: Task)
    requires DistinctClaims(tasks) && forall u | u in tasks :: u.claim < t.claim
    ensures DistinctClaims(tasks + {t})
  {
  }

  /** An operation on a row makes every older claim of that row outdated and leaves the tasks of other rows alone. */
  lemma RecordKeepsTask(w: World, id: Id, row: Row, action: Action, actor: string, error: Option<(string, string)>,
                        t: Task)
    requires TaskInv(w.clock, w.store, t) && id in w.store.rows
    ensures var s := Record(w.store, id, row, action, actor, error);
            TaskInv(w.clock, s, t) && (Current(s, t) <==> Current(w.store, t) && t.delivery != id)
  {
  }

  lemma NewTaskInv(w: World, worker: Worker, readAt: int, locked: set<Id>, id: Id)
    requires CanClaim(w, worker, readAt, locked, id)
    ensures var s := ClaimStore(w.store, id, readAt, worker.owner, worker.leaseSeconds);
            TaskInv(w.clock, s, Task(worker, id, s.rows[id].attemptCount, readAt, |w.store.audits|))
  {
  }

  lemma {:induction false} ClaimKeepsTasks(w: World, worker: Worker, readAt: int, locked: set<Id>, id: Id)
    requires CanClaim(w, worker, readAt, locked, id) && forall t | t in w.tasks :: TaskInv(w.clock, w.store, t)
    ensures var w' := Apply(w, Claims(worker, readAt, locked, id));
            forall t | t in w'.tasks :: TaskInv(w'.clock, w'.store, t)
  {
    NewTaskInv(w, worker, readAt, locked, id);
    var row := ClaimedRow(w.store.rows[id], readAt, worker.owner, worker.leaseSeconds);
    forall t | t in w.tasks ensures TaskInv(w.clock, ClaimStore(w.store, id, readAt, worker.owner, worker.leaseSeconds),
                                            t) {
      RecordKeepsTask(w, id, row, Claim, worker.owner, None, t);
    }
  }

  lemma ClaimStepKeeps(w: World, worker: Worker, readAt: int, locked: set<Id>, id: Id)
    requires Inv(w) && CanClaim(w, worker, readAt, locked, id)
    ensures Inv(Apply(w, Claims(worker, readAt, locked, id)))
  {
    StepKeepsStore(w, Claims(worker, readAt, locked, id));
    ClaimKeepsTasks(w, worker, readAt, locked, id);
    var s := ClaimStore(w.store, id, readAt, worker.owner, worker.leaseSeconds);
    DistinctAdd(w.tasks, Task(worker, id, s.rows[id].attemptCount, readAt, |w.store.audits|));
  }

  /** Which rows a step records an operation on, if any. */
  ghost predicate Touches(w: World, step: Step, id: Id) {
    match step
    case Claims(worker, readAt, locked, claimed) => claimed == id && CanClaim(w, worker, readAt, locked, id)
    case Delivers(t, _) => t in w.tasks && t.delivery == id && HoldsLease(w.store, id, t.worker.owner)
    case Fails(t, _, _, _) => t in w.tasks && t.delivery == id && HoldsLease(w.store, id, t.worker.owner)
    case Replays(tenantId, replayed, _) =>
      replayed == id && Owns(w.store, tenantId, id) && Finished(w.store.rows[id].status)
    case _ => false
  }

  /** A step other than a claim keeps every remaining task; exactly the tasks of the row it touches become outdated. */
  lemma OtherStepKeepsTask(w: World, step: Step, t: Task)
    requires !step.Claims? && TaskInv(w.clock, w.store, t)
    ensures TaskInv(Apply(w, step).clock, Apply(w, step).store, t)
    ensures Current(Apply(w, step).store, t) <==> Current(w.store, t) && !Touches(w, step, t.delivery)
  {
  }

  lemma StepKeeps(w: World, step: Step)
    requires Inv(w)
    ensures Inv(Apply(w, step))
  {
    match step
    case Claims(worker, readAt, locked, id) =>
      if CanClaim(w, worker, readAt, locked, id) {
        ClaimStepKeeps(w, worker, readAt, locked, id);
      }
    case _ =>
      StepKeepsStore(w, step);
      forall t | t in Apply(w, step).tasks ensures TaskInv(Apply(w, step).clock, Apply(w, step).store, t) {
        OtherStepKeepsTask(w, step, t);
      }
  }

  lemma {:induction false} RunKeeps(w: World, steps: seq<Step>)
    requires Inv(w)
    ensures Inv(Run(w, steps))
    decreases |steps|
  {
    if steps != [] {
      StepKeeps(w, steps[0]);
      RunKeeps(Apply(w, steps[0]), steps[1..]);
    }
  }

  /**
   When a completion takes effect: exactly when the last entry about the delivery is a claim under
   the same owner string. So a task whose claim is still the last one always succeeds, and an
   outdated task is fenced off unless the current claim belongs to the same owner.
   */
  lemma FenceIsOwnerOfLastClaim(clock: int, steps: seq<Step>, t: Task)
    requires t in Run(Start(clock), steps).tasks
    ensures var s := Run(Start(clock), steps).store; var last := LastEntry(s.audits, t.delivery);
            last.Some? &&
            (HoldsLease(s, t.delivery, t.worker.owner) <==>
             s.audits[last.value].action == Claim && s.audits[last.value].actor == t.worker.owner) &&
            (Current(s, t) ==> HoldsLease(s, t.delivery, t.worker.owner))
  {
    RunKeeps(Start(clock), steps);
    var s := Run(Start(clock), steps).store;
    assert TaskInv(Run(Start(clock), steps).clock, Run(Start(clock), steps).store, t);
    RunningIffClaimed(s.audits, t.delivery, t.worker.owner);
  }

  // ---------------------------------------------------------------- what a worker gets

  ghost predicate Due(w: World, worker: Worker, readAt: int, locked: set<Id>, id: Id) {
    id in w.store.rows && id !in locked &&
    Addressed(w.store.rows[id], worker.tenantId, Strip(worker.consumerGroup)) &&
    !PassedOver(w.store.rows[id], readAt, worker.maxAttempts)
  }

  /** A poll claims a delivery whenever one is due for the worker, and the oldest of those. */
  lemma PollTakesOldestDue(w: World, worker: Worker, readAt: int, locked: set<Id>)
    requires ValidWorker(worker) && readAt <= w.clock
    ensures (exists id :: CanClaim(w, worker, readAt, locked, id)) <==>
            exists id :: Due(w, worker, readAt, locked, id)
    ensures forall id | CanClaim(w, worker, readAt, locked, id) ::
              OldestDue(w.store.rows, locked, QueryOf(worker, readAt), id)
  {
    var rows := w.store.rows;
    forall id ensures CanClaim(w, worker, readAt, locked, id) <==>
                      OldestDue(rows, locked, QueryOf(worker, readAt), id) {
      FirstIsOldest(rows, locked, QueryOf(worker, readAt), id);
    }
    if id :| Due(w, worker, readAt, locked, id) {
      var due := set other | other in rows && Due(w, worker, readAt, locked, other);
      assert id in due;
      var first := FirstExists(rows, due);
      assert Due(w, worker, readAt, locked, first);
      forall other | Due(w, worker, readAt, locked, other) ensures NotAfter(rows, first, other) {
        assert other in due;
      }
      assert CanClaim(w, worker, readAt, locked, first);
    } else {
      assert forall id | CanClaim(w, worker, readAt, locked, id) :: Due(w, worker, readAt, locked, id);
    }
  }

  ghost predicate TasksAddressed(w: World) {
    forall t | t in w.tasks ::
      t.delivery in w.store.rows &&
      Addressed(w.store.rows[t.delivery], t.worker.tenantId, Strip(t.worker.consumerGroup))
  }

  lemma AddressStays(w: World, step: Step, id: Id)
    requires id in w.store.rows
    ensures id in Apply(w, step).store.rows
    ensures var row, row' := w.store.rows[id], Apply(w, step).store.rows[id];
            row'.tenantId == row.tenantId && row'.consumerGroup == row.consumerGroup && row'.createdAt == row.createdAt
  {
  }

  lemma {:induction false} RunKeepsAddresses(w: World, steps: seq<Step>)
    requires TasksAddressed(w)
    ensures TasksAddressed(Run(w, steps))
    decreases |steps|
  {
    if steps != [] {
      forall t | t in Apply(w, steps[0]).tasks
        ensures t.delivery in Apply(w, steps[0]).store.rows
        ensures Addressed(Apply(w, steps[0]).store.rows[t.delivery], t.worker.tenantId, Strip(t.worker.consumerGroup))
      {
        if t in w.tasks || (steps[0].Claims? && steps[0].id == t.delivery) {
          AddressStays(w, steps[0], t.delivery);
        }
      }
      RunKeepsAddresses(Apply(w, steps[0]), steps[1..]);
    }
  }

  /** Whatever happens, a worker only ever sends deliveries of its own group, and of its own tenant if it has one. */
  lemma WorkersServeTheirGroup(clock: int, steps: seq<Step>, t: Task)
    requires t in Run(Start(clock), steps).tasks
    ensures var rows := Run(Start(clock), steps).store.rows;
            t.delivery in rows && rows[t.delivery].consumerGroup == Strip(t.worker.consumerGroup) &&
            (t.worker.tenantId.Some? ==> rows[t.delivery].tenantId == t.worker.tenantId.value)
  {
    RunKeepsAddresses(Start(clock), steps);
  }

  // ---------------------------------------------------------------- unexpired leases

  predicate Unexpired(w: World, t: Task) {
    w.clock < Expiry(t)
  }

  /** Every task whose lease has not expired still holds it. */
  ghost predicate Live(w: World) {
    forall t | t in w.tasks && Unexpired(w, t) :: Current(w.store, t)
  }

  ghost predicate ExclusiveAt(clock: int, tasks: set<Task>) {
    forall t, u | t in tasks && u in tasks && t.delivery == u.delivery && clock < Expiry(t) && clock < Expiry(u) ::
      t == u
  }

  /** No two tasks of one delivery both have an unexpired lease. */
  ghost predicate Exclusive(w: World) {
    ExclusiveAt(w.clock, w.tasks)
  }

  ghost predicate MarksFor(w: World, step: Step, u: Task) {
    (step.Delivers? || step.Fails?) && step.task in w.tasks && step.task != u && step.task.delivery == u.delivery &&
    HoldsLease(w.store, u.delivery, step.task.worker.owner)
  }

  /** An outdated task passes the fence by its owner string alone and ends the unexpired lease of another task. */
  ghost predicate StealsLease(w: World, step: Step) {
    exists u :: u in w.tasks && Unexpired(w, u) && Current(w.store, u) && MarksFor(w, step, u)
  }

  /** A row is claimed, for a lease that is not over at once, while a task of it has an unexpired lease that it lost. */
  ghost predicate ClaimsOverLease(w: World, step: Step) {
    step.Claims? && CanClaim(w, step.worker, step.readAt, step.locked, step.id) &&
    w.clock < step.readAt + step.worker.leaseSeconds * SECOND &&
    exists t :: t in w.tasks && t.delivery == step.id && Robbed(w, t)
  }

  /** The task lost its lease before it expired. */
  predicate Robbed(w: World, t: Task) {
    Unexpired(w, t) && !Current(w.store, t)
  }

  ghost predicate HasUnexpired(clock: int, tasks: set<Task>, id: Id) {
    exists t :: t in tasks && t.delivery == id && clock < Expiry(t)
  }

  lemma ClaimKeepsLive(w: World, worker: Worker, readAt: int, locked: set<Id>, id: Id)
    requires Inv(w) && Live(w) && CanClaim(w, worker, readAt, locked, id)
    ensures Live(Apply(w, Claims(worker, readAt, locked, id)))
  {
    var row := ClaimedRow(w.store.rows[id], readAt, worker.owner, worker.leaseSeconds);
    forall t | t in w.tasks && Unexpired(w, t) ensures t.delivery != id {
      CurrentIsRunning(w.store, t, w.clock);
    }
    forall t | t in w.tasks &&
      Unexpired(w, t) ensures Current(ClaimStore(w.store, id, readAt, worker.owner, worker.leaseSeconds), t) {
      RecordKeepsTask(w, id, row, Claim, worker.owner, None, t);
    }
  }

  /** The row of a current task runs under its lease. */
  lemma CurrentIsRunning(s: Store, t: Task, clock: int)
    requires StoreInv(s) && TaskInv(clock, s, t) && Current(s, t)
    ensures HoldsLease(s, t.delivery, t.worker.owner) && s.rows[t.delivery].leaseExpiresAt == Some(Expiry(t))
  {
    RunningIffClaimed(s.audits, t.delivery, t.worker.owner);
  }

  /** A remaining unexpired task of a live world loses its lease exactly by being stolen from. */
  lemma LeaseLost(w: World, step: Step, u: Task)
    requires Inv(w) && u in w.tasks && Current(w.store, u) && !step.Claims? && u in Apply(w, step).tasks
    ensures Current(Apply(w, step).store, u) <==> !MarksFor(w, step, u)
  {
    OtherStepKeepsTask(w, step, u);
    CurrentIsRunning(w.store, u, w.clock);
  }

  lemma StolenStays(w: World, step: Step, u: Task)
    requires u in w.tasks && (step.Delivers? || step.Fails?) && step.task in w.tasks && step.task != u
    ensures u in Apply(w, step).tasks && Apply(w, step).clock == w.clock
  {
  }

  /** A step keeps every unexpired lease held if and only if it steals none. */
  lemma StepKeepsLive(w: World, step: Step)
    requires Inv(w) && Live(w)
    ensures Live(Apply(w, step)) <==> !StealsLease(w, step)
  {
    if step.Claims? {
      if CanClaim(w, step.worker, step.readAt, step.locked, step.id) {
        ClaimKeepsLive(w, step.worker, step.readAt, step.locked, step.id);
      }
    } else {
      forall u | u in Apply(w, step).tasks && Unexpired(Apply(w, step), u)
        ensures Unexpired(w, u) && Current(w.store, u)
        ensures Current(Apply(w, step).store, u) <==> !MarksFor(w, step, u)
      {
        LeaseLost(w, step, u);
      }
      forall u | u in w.tasks && MarksFor(w, step, u) ensures u in Apply(w, step).tasks &&
        Apply(w, step).clock == w.clock {
        StolenStays(w, step, u);
      }
    }
  }

  lemma ExclusiveAdd(clock: int, tasks: set<Task>, t': Task)
    requires t' !in tasks && ExclusiveAt(clock, tasks)
    ensures ExclusiveAt(clock, tasks + {t'}) <==> !(clock < Expiry(t') && HasUnexpired(clock, tasks, t'.delivery))
  {
    if clock < Expiry(t') && HasUnexpired(clock, tasks, t'.delivery) {
      var t :| t in tasks && t.delivery == t'.delivery && clock < Expiry(t);
      assert t in tasks + {t'} && t' in tasks + {t'};
    }
  }

  lemma ExclusiveShrinks(clock: int, tasks: set<Task>, clock': int, tasks': set<Task>)
    requires ExclusiveAt(clock, tasks) && tasks' <= tasks && clock <= clock'
    ensures ExclusiveAt(clock', tasks')
  {
  }

  lemma NoNewTask(w: World, step: Step)
    requires step.Claims? ==> !CanClaim(w, step.worker, step.readAt, step.locked, step.id)
    ensures Apply(w, step).tasks <= w.tasks && w.clock <= Apply(w, step).clock
  {
  }

  lemma NewTask(w: World, step: Step) returns (t: Task)
    requires step.Claims? && CanClaim(w, step.worker, step.readAt, step.locked, step.id)
    requires forall u | u in w.tasks :: u.claim < |w.store.audits|
    ensures t !in w.tasks && t.delivery == step.id && Expiry(t) == step.readAt + step.worker.leaseSeconds * SECOND
    ensures Apply(w, step).tasks == w.tasks + {t} && Apply(w, step).clock == w.clock
  {
    var store := ClaimStore(w.store, step.id, step.readAt, step.worker.owner, step.worker.leaseSeconds);
    t := Task(step.worker, step.id, store.rows[step.id].attemptCount, step.readAt, |w.store.audits|);
  }

  /** A lease that is held keeps claims out: a row with an unexpired task is only claimed if that task was robbed. */
  lemma OnlyRobbedAreClaimedOver(w: World, step: Step)
    requires Inv(w) && step.Claims? && CanClaim(w, step.worker, step.readAt, step.locked, step.id)
    ensures HasUnexpired(w.clock, w.tasks, step.id) <==>
            exists t :: t in w.tasks && t.delivery == step.id && Robbed(w, t)
  {
    forall t | t in w.tasks && t.delivery == step.id && Unexpired(w, t) ensures Robbed(w, t) {
      if Current(w.store, t) {
        CurrentIsRunning(w.store, t, w.clock);
      }
    }
  }

  /** A step keeps the leases exclusive if and only if it does not claim the row of a robbed task. */
  lemma StepKeepsExclusive(w: World, step: Step)
    requires Inv(w) && Exclusive(w)
    ensures Exclusive(Apply(w, step)) <==> !ClaimsOverLease(w, step)
  {
    if step.Claims? && CanClaim(w, step.worker, step.readAt, step.locked, step.id) {
      var t := NewTask(w, step);
      ExclusiveAdd(w.clock, w.tasks, t);
      OnlyRobbedAreClaimedOver(w, step);
    } else {
      NoNewTask(w, step);
      ExclusiveShrinks(w.clock, w.tasks, Apply(w, step).clock, Apply(w, step).tasks);
    }
  }

  /** While every unexpired lease is held, no two overlap and no task is robbed. */
  lemma LiveIsExclusive(w: World)
    requires Inv(w) && Live(w)
    ensures Exclusive(w) && forall step :: !ClaimsOverLease(w, step)
  {
  }

  /** In every state of the run, unexpired leases are held. */
  ghost predicate AlwaysLive(w: World, steps: seq<Step>)
    decreases |steps|
  {
    Live(w) && (steps == [] || AlwaysLive(Apply(w, steps[0]), steps[1..]))
  }

  ghost predicate AlwaysExclusive(w: World, steps: seq<Step>)
    decreases |steps|
  {
    Exclusive(w) && (steps == [] || AlwaysExclusive(Apply(w, steps[0]), steps[1..]))
  }

  ghost predicate NothingStolen(w: World, steps: seq<Step>)
    decreases |steps|
  {
    steps == [] || (!StealsLease(w, steps[0]) && NothingStolen(Apply(w, steps[0]), steps[1..]))
  }

  ghost predicate NoClaimOverLease(w: World, steps: seq<Step>)
    decreases |steps|
  {
    steps == [] || (!ClaimsOverLease(w, steps[0]) && NoClaimOverLease(Apply(w, steps[0]), steps[1..]))
  }

  lemma {:induction false} LiveAlongRun(w: World, steps: seq<Step>)
    requires Inv(w) && Live(w)
    ensures AlwaysLive(w, steps) <==> NothingStolen(w, steps)
    ensures NothingStolen(w, steps) ==> Live(Run(w, steps)) && NoClaimOverLease(w, steps)
    decreases |steps|
  {
    if steps != [] {
      StepKeeps(w, steps[0]);
      StepKeepsLive(w, steps[0]);
      LiveIsExclusive(w);
      if Live(Apply(w, steps[0])) {
        LiveAlongRun(Apply(w, steps[0]), steps[1..]);
      }
    }
  }

  lemma {:induction false} ExclusiveAlongRun(w: World, steps: seq<Step>)
    requires Inv(w) && Exclusive(w)
    ensures AlwaysExclusive(w, steps) <==> NoClaimOverLease(w, steps)
    ensures NoClaimOverLease(w, steps) ==> Exclusive(Run(w, steps))
    decreases |steps|
  {
    if steps != [] {
      StepKeeps(w, steps[0]);
      StepKeepsExclusive(w, steps[0]);
      if Exclusive(Apply(w, steps[0])) {
        ExclusiveAlongRun(Apply(w, steps[0]), steps[1..]);
      }
    }
  }

  /**
   Unexpired leases on one delivery never overlap throughout a run if and only if no row is claimed
   while a robbed task of it is in flight; and that never happens unless a lease is stolen.
   */
  lemma LeaseExclusion(clock: int, steps: seq<Step>)
    ensures AlwaysExclusive(Start(clock), steps) <==> NoClaimOverLease(Start(clock), steps)
    ensures NothingStolen(Start(clock), steps) ==> AlwaysExclusive(Start(clock), steps)
  {
    ExclusiveAlongRun(Start(clock), steps);
    LiveAlongRun(Start(clock), steps);
  }

  /** A task whose claim is the last entry of its delivery holds the lease, for the very attempt it claimed. */
  lemma CurrentTaskHolds(clock: int, steps: seq<Step>, t: Task)
    requires t in Run(Start(clock), steps).tasks && Current(Run(Start(clock), steps).store, t)
    ensures var s := Run(Start(clock), steps).store;
            HoldsLease(s, t.delivery, t.worker.owner) && s.rows[t.delivery].attemptCount == t.attempt
  {
    RunKeeps(Start(clock), steps);
    CurrentIsRunning(Run(Start(clock), steps).store, t, Run(Start(clock), steps).clock);
  }

  /**
   Every task with an unexpired lease still holds it, for the attempt it claimed, throughout a run if
   and only if no step of the run steals a lease. Then its mark takes effect.
   */
  lemma LiveLeaseIsHeld(clock: int, steps: seq<Step>)
    ensures AlwaysLive(Start(clock), steps) <==> NothingStolen(Start(clock), steps)
    ensures var w := Run(Start(clock), steps);
            NothingStolen(Start(clock), steps) ==>
              forall t | t in w.tasks && Unexpired(w, t) ::
                HoldsLease(w.store, t.delivery, t.worker.owner) && w.store.rows[t.delivery].attemptCount == t.attempt
  {
    LiveAlongRun(Start(clock), steps);
    var w := Run(Start(clock), steps);
    if NothingStolen(Start(clock), steps) {
      forall t | t in w.tasks && Unexpired(w, t)
        ensures HoldsLease(w.store, t.delivery, t.worker.owner) && w.store.rows[t.delivery].attemptCount == t.attempt
      {
        CurrentTaskHolds(clock, steps, t);
      }
    }
  }

  lemma HolderFailure(w: World, t: Task, code: string, message: string, response: Option<int>)
    requires t in w.tasks && HoldsLease(w.store, t.delivery, t.worker.owner) &&
             w.store.rows[t.delivery].attemptCount == t.attempt > 0
    ensures var s := Apply(w, Fails(t, code, message, response)).store;
            t.attempt > 0 && t.delivery in s.rows &&
            var row := s.rows[t.delivery];
            if t.attempt < t.worker.maxAttempts
            then row.status == Pending &&
            row.nextAttemptAt == Some(t.claimedAt + BackoffSeconds(t.attempt, 2, 300) * SECOND)
            else row.status == DeadLetter && row.nextAttemptAt == None
  {
  }

  /**
   The retry time is computed from the attempt captured at claim time, the burial from the stored
   count. For a task whose claim is the last, so for every unexpired one if nothing was stolen, the
   two decisions agree: a retry after the back-off, or a dead letter.
   */
  lemma LiveFailureOutcome(clock: int, steps: seq<Step>, t: Task, code: string, message: string, response: Option<int>)
    requires var w := Run(Start(clock), steps);
             t in w.tasks && (Current(w.store, t) || (Unexpired(w, t) && NothingStolen(Start(clock), steps)))
    ensures var w := Apply(Run(Start(clock), steps), Fails(t, code, message, response));
            t.attempt > 0 && t.delivery in w.store.rows &&
            var row := w.store.rows[t.delivery];
            if t.attempt < t.worker.maxAttempts
            then row.status == Pending &&
            row.nextAttemptAt == Some(t.claimedAt + BackoffSeconds(t.attempt, 2, 300) * SECOND)
            else row.status == DeadLetter && row.nextAttemptAt == None
  {
    RunKeeps(Start(clock), steps);
    LiveAlongRun(Start(clock), steps);
    CurrentTaskHolds(clock, steps, t);
    HolderFailure(Run(Start(clock), steps), t, code, message, response);
  }

  lemma FailureDecisions(w: World, t: Task, code: string, message: string, response: Option<int>)
    requires t.attempt > 0 && t in w.tasks && HoldsLease(w.store, t.delivery, t.worker.owner)
    ensures var s := Apply(w, Fails(t, code, message, response)).store;
            t.delivery in s.rows &&
            (s.rows[t.delivery].status == Pending && s.rows[t.delivery].nextAttemptAt.None? <==>
               w.store.rows[t.delivery].attemptCount < t.worker.maxAttempts <= t.attempt)
  {
  }

  /**
   When a failure takes effect, the row is retried without any back-off exactly if the stored count
   allows another attempt while the captured one did not: the row was replayed or claimed anew meanwhile.
   */
  lemma RetryWithoutBackoff(clock: int, steps: seq<Step>, t: Task, code: string, message: string, response: Option<int>)
    requires var w := Run(Start(clock), steps); t in w.tasks && HoldsLease(w.store, t.delivery, t.worker.owner)
    ensures var w := Run(Start(clock), steps); var w' := Apply(w, Fails(t, code, message, response));
            t.delivery in w'.store.rows &&
            (w'.store.rows[t.delivery].status == Pending && w'.store.rows[t.delivery].nextAttemptAt.None? <==>
               w.store.rows[t.delivery].attemptCount < t.worker.maxAttempts <= t.attempt)
  {
    RunKeeps(Start(clock), steps);
    FailureDecisions(Run(Start(clock), steps), t, code, message, response);
  }

  ghost predicate Quiet(w: World, steps: seq<Step>, id: Id)
    decreases |steps|
  {
    steps == [] || (!Touches(w, steps[0], id) && Quiet(Apply(w, steps[0]), steps[1..], id))
  }

  lemma {:induction false} QuietRow(w: World, steps: seq<Step>, id: Id)
    requires id in w.store.rows && Quiet(w, steps, id)
    ensures id in Run(w, steps).store.rows && Run(w, steps).store.rows[id] == w.store.rows[id]
    decreases |steps|
  {
    if steps != [] {
      UntouchedRow(w, steps[0], id);
      QuietRow(Apply(w, steps[0]), steps[1..], id);
    }
  }

  /**
   After a retry, the next operation on the delivery is a claim by a worker that read the clock at or
   after the retry time.
   */
  lemma NoClaimBeforeRetryTime(clock: int, past: seq<Step>, t: Task, failure: Step, future: seq<Step>, next: Step)
    requires t in Run(Start(clock), past).tasks && Current(Run(Start(clock), past).store, t) &&
             t.attempt < t.worker.maxAttempts
    requires failure.Fails? && failure.task == t && Quiet(Apply(Run(Start(clock), past), failure), future, t.delivery)
    requires Touches(Run(Apply(Run(Start(clock), past), failure), future), next, t.delivery)
    ensures t.attempt > 0 && next.Claims? && next.readAt >= t.claimedAt + BackoffSeconds(t.attempt, 2, 300) * SECOND
  {
    LiveFailureOutcome(clock, past, t, failure.errorCode, failure.errorMessage, failure.response);
    QuietRow(Apply(Run(Start(clock), past), failure), future, t.delivery);
  }

  const SELF := Worker("a", 1, 5, None, "g")
  const RIVAL := Worker("b", 1, 5, None, "g")

  lemma {:induction false} RunSnoc(w: World, steps: seq<Step>, step: Step)
    ensures Run(w, steps + [step]) == Apply(Run(w, steps), step)
    decreases |steps|
  {
    if steps == [] {
      assert [step][1..] == [];
    } else {
      assert (steps + [step])[1..] == steps[1..] + [step];
      RunSnoc(Apply(w, steps[0]), steps[1..], step);
    }
  }

  const FIRST := Task(SELF, 0, 1, 0, 0)
  const SECOND_TASK := Task(SELF, 0, 2, 2 * SECOND, 1)
  const THIRD := Task(RIVAL, 0, 3, 2 * SECOND, 3)

  function Queued(): Store {
    EnqueueStore(Store(map[], []), 0, 0, "g", 0)
  }

  function ClaimedOnce(): Store {
    ClaimStore(Queued(), 0, 0, "a", 1)
  }

  function ClaimedTwice(): Store {
    ClaimStore(ClaimedOnce(), 0, 2 * SECOND, "a", 1)
  }

  function FailedLate(): Store {
    FailStore(ClaimedTwice(), 0, "a", FailingOf(FIRST, "E", "", None), 5)
  }

  function ClaimedByRival(): Store {
    ClaimStore(FailedLate(), 0, 2 * SECOND, "b", 1)
  }

  lemma LateFailureAndRival()
    ensures var w := World(2 * SECOND, ClaimedTwice(), {FIRST, SECOND_TASK});
            Apply(w, Fails(FIRST, "E", "", None)) == World(2 * SECOND, FailedLate(), {SECOND_TASK}) &&
            Apply(World(2 * SECOND, FailedLate(), {SECOND_TASK}), Claims(RIVAL, 2 * SECOND, {}, 0)) ==
            World(2 * SECOND, ClaimedByRival(), {SECOND_TASK, THIRD})
  {
  }

  /**
   Fencing is by owner string only. When a worker takes over its own expired lease, the late failure
   of the first task releases the second one's lease, and a rival can claim: two unexpired leases.
   */
  lemma SelfTakeoverOverlaps()
    ensures var w := Run(Start(0), ToThird());
            SECOND_TASK in w.tasks && THIRD in w.tasks && SECOND_TASK != THIRD &&
            SECOND_TASK.delivery == THIRD.delivery &&
            w.clock < Expiry(SECOND_TASK) && w.clock < Expiry(THIRD)
  {
    RunToSecond();
    LateFailureAndRival();
    RunSnoc(Start(0), ToSecond(), Fails(FIRST, "E", "", None));
    RunSnoc(Start(0), ToSecond() + [Fails(FIRST, "E", "", None)], Claims(RIVAL, 2 * SECOND, {}, 0));
  }

  function ToThird(): seq<Step> {
    ToSecond() + [Fails(FIRST, "E", "", None)] + [Claims(RIVAL, 2 * SECOND, {}, 0)]
  }

  function ToFirst(): seq<Step> {
    [Enqueue(0, 0, "g", 0)] + [Claims(SELF, 0, {}, 0)]
  }

  function ToSecond(): seq<Step> {
    ToFirst() + [Tick(2 * SECOND)] + [Claims(SELF, 2 * SECOND, {}, 0)]
  }

  lemma RunToSecond()
    ensures Run(Start(0), ToSecond()) == World(2 * SECOND, ClaimedTwice(), {FIRST, SECOND_TASK})
  {
  }

  // ---------------------------------------------------------------- what may change a row

  /** A row changes only through a step that touches it. */
  lemma UntouchedRow(w: World, step: Step, id: Id)
    requires id in w.store.rows
    ensures id in Apply(w, step).store.rows
    ensures !Touches(w, step, id) ==> Apply(w, step).store.rows[id] == w.store.rows[id]
  {
  }

  /**
   A running row is claimed again only at or after its lease expiry; otherwise only a task of its
   lease owner changes it. A finished row changes only through a replay.
   */
  lemma WhoMayChangeRow(clock: int, steps: seq<Step>, step: Step, id: Id)
    requires id in Run(Start(clock), steps).store.rows
    requires Apply(Run(Start(clock), steps), step).store.rows[id] != Run(Start(clock), steps).store.rows[id]
    ensures var w := Run(Start(clock), steps); var row := w.store.rows[id];
            (row.status == Running ==>
               (step.Claims? && step.id == id && row.leaseExpiresAt.Some? &&
                row.leaseExpiresAt.value <= step.readAt <= w.clock) ||
               ((step.Delivers? || step.Fails?) && step.task in w.tasks && step.task.delivery == id &&
                row.leaseOwner == Some(step.task.worker.owner))) &&
            (Finished(row.status) ==> step.Replays? && step.id == id && step.tenantId == row.tenantId) &&
            (row.status == Pending ==> step.Claims? && step.id == id)
  {
  }

  // ---------------------------------------------------------------- attempt budget

  ghost predicate CommonBudget(steps: seq<Step>, budget: nat) {
    forall i | 0 <= i < |steps| :: steps[i].Claims? ==> steps[i].worker.maxAttempts == budget
  }

  predicate WithinBudget(row: Row, budget: nat) {
    row.attemptCount <= budget && (row.status == Pending ==> row.attemptCount < budget) &&
    (row.status == DeadLetter ==> row.attemptCount == budget)
  }

  ghost predicate BudgetInv(w: World, budget: nat) {
    (forall id | id in w.store.rows :: WithinBudget(w.store.rows[id], budget)) &&
    (forall t | t in w.tasks :: t.worker.maxAttempts == budget)
  }

  lemma StepKeepsBudget(w: World, step: Step, budget: nat)
    requires budget > 0 && BudgetInv(w, budget) && (step.Claims? ==> step.worker.maxAttempts == budget)
    ensures BudgetInv(Apply(w, step), budget)
  {
  }

  lemma {:induction false} RunKeepsBudget(w: World, steps: seq<Step>, budget: nat)
    requires budget > 0 && BudgetInv(w, budget) && CommonBudget(steps, budget)
    ensures BudgetInv(Run(w, steps), budget)
    decreases |steps|
  {
    if steps != [] {
      StepKeepsBudget(w, steps[0], budget);
      RunKeepsBudget(Apply(w, steps[0]), steps[1..], budget);
    }
  }

  /**
   With one common limit no delivery is attempted more often; pending ones have an attempt left, buried
   ones have none; and a row runs exactly if it has a lease owner, and exactly if it has a lease expiry.
   */
  lemma AttemptBudget(clock: int, steps: seq<Step>, budget: nat, id: Id)
    requires budget > 0 && CommonBudget(steps, budget) && id in Run(Start(clock), steps).store.rows
    ensures var row := Run(Start(clock), steps).store.rows[id]; WithinBudget(row, budget) && RowShape(row)
  {
    RunKeepsStore(Start(clock), steps);
    RunKeepsBudget(Start(clock), steps, budget);
  }

  // ---------------------------------------------------------------- a crash on the last attempt

  /** Running, out of attempts, and no task in flight that could still mark it. */
  ghost predicate Abandoned(w: World, id: Id, budget: nat) {
    id in w.store.rows && w.store.rows[id].status == Running && w.store.rows[id].attemptCount >= budget &&
    forall t | t in w.tasks && t.delivery == id :: w.store.rows[id].leaseOwner != Some(t.worker.owner)
  }

  lemma {:induction false} AbandonedForever(w: World, steps: seq<Step>, id: Id, budget: nat)
    requires Abandoned(w, id, budget) && CommonBudget(steps, budget)
    ensures id in Run(w, steps).store.rows && Run(w, steps).store.rows[id] == w.store.rows[id]
    decreases |steps|
  {
    if steps != [] {
      UntouchedRow(w, steps[0], id);
      AbandonedForever(Apply(w, steps[0]), steps[1..], id, budget);
    }
  }

  /** Another task of the delivery under the same owner is in flight. */
  ghost predicate HasTwin(w: World, t: Task) {
    exists u :: u in w.tasks && u != t && u.delivery == t.delivery && u.worker.owner == t.worker.owner
  }

  lemma TwinRescues(w: World, t: Task, u: Task)
    requires u in w.tasks && u != t && u.delivery == t.delivery && HoldsLease(w.store, t.delivery, u.worker.owner)
    ensures var rows := Run(Apply(w, Crashes(t)), [Delivers(u, 200)]).store.rows;
            t.delivery in rows && rows[t.delivery].status == Delivered
  {
    var w' := Apply(w, Crashes(t));
    assert [Delivers(u, 200)][1..] == [];
    assert Run(w', [Delivers(u, 200)]) == Run(Apply(w', Delivers(u, 200)), []);
  }

  /** Nothing that happens later changes the row. */
  ghost predicate Stranded(w: World, id: Id, budget: nat)
    requires id in w.store.rows
  {
    forall future | CommonBudget(future, budget) ::
      id in Run(w, future).store.rows && Run(w, future).store.rows[id] == w.store.rows[id]
  }

  /**
   A task that crashes on its last attempt leaves its row running, never to be claimed, marked or
   replayed again, if and only if its worker has no other task of the same delivery in flight.
   */
  lemma CrashOnLastAttempt(clock: int, past: seq<Step>, t: Task, budget: nat)
    requires t in Run(Start(clock), past).tasks && Current(Run(Start(clock), past).store, t) && t.attempt >= budget
    ensures var w := Run(Start(clock), past); var w' := Apply(w, Crashes(t));
            t.delivery in w'.store.rows && w'.store.rows[t.delivery].status == Running &&
            (Stranded(w', t.delivery, budget) <==> !HasTwin(w, t))
  {
    var w := Run(Start(clock), past);
    var w' := Apply(w, Crashes(t));
    CurrentTaskHolds(clock, past, t);
    if u :| u in w.tasks && u != t && u.delivery == t.delivery && u.worker.owner == t.worker.owner {
      TwinRescues(w, t, u);
      assert CommonBudget([Delivers(u, 200)], budget);
    } else {
      assert Abandoned(w', t.delivery, budget);
      forall future | CommonBudget(future, budget)
        ensures t.delivery in Run(w', future).store.rows &&
                Run(w', future).store.rows[t.delivery] == w'.store.rows[t.delivery]
      {
        AbandonedForever(w', future, t.delivery, budget);
      }
    }
  }
}
