/**
 The webhook delivery repository (backend/app/services/integration/webhook_delivery_repository.py)
 and the back-off of its worker (backend/app/services/integration/webhook_delivery.py).

 The first half says what each operation does to the table of delivery rows and to the audit log;
 the class at the end performs the operations on mutable records. Times are microseconds.
 */
module WebhookDelivery {
  import opened Wrappers
  import opened Text

  type Id = nat

  const SECOND := 1_000_000

  datatype Status = Pending | Running | Delivered | DeadLetter

  datatype Action = Claim | Deliver | Retry | Bury | Replay

  datatype Row = Row(
    tenantId: nat,
    consumerGroup: string,
    createdAt: int,
    status: Status,
    attemptCount: nat,
    nextAttemptAt: Option<int>,
    lastAttemptAt: Option<int>,
    deliveredAt: Option<int>,
    leaseOwner: Option<string>,
    leaseExpiresAt: Option<int>,
    responseStatusCode: Option<int>,
    lastErrorCode: Option<string>,
    lastErrorMessage: Option<string>)

  /** One immutable audit fact. The log is kept in the order of insertion. */
  datatype Audit = Audit(
    delivery: Id,
    action: Action,
    attemptCount: nat,
    status: Status,
    responseStatusCode: Option<int>,
    errorCode: Option<string>,
    errorMessage: Option<string>,
    actor: string)

  datatype Store = Store(rows: map<Id, Row>, audits: seq<Audit>)

  datatype RepositoryError = OwnerBlank | LimitsNotPositive | GroupInvalid | ReplayNotAllowed

  /** The first `n` characters, or all if there are no more. */
  function Truncate(s: string, n: nat): (r: string)
    ensures r <= s && (|r| == n || (|r| < n && r == s))
  {
    if |s| <= n then s else s[..n]
  }

  // ---------------------------------------------------------------- claim

  datatype Query = Query(now: int, maxAttempts: int, tenantId: Option<nat>, consumerGroup: string)

  predicate Claimable(row: Row, q: Query) {
    (row.status == Pending ||
     (row.status == Running && row.leaseExpiresAt.Some? && row.leaseExpiresAt.value <= q.now)) &&
    row.attemptCount < q.maxAttempts && row.consumerGroup == q.consumerGroup &&
    (row.nextAttemptAt.None? || row.nextAttemptAt.value <= q.now) &&
    (q.tenantId.None? || row.tenantId == q.tenantId.value)
  }

  /** The row is for workers of this group, and of this tenant if one is given. */
  predicate Addressed(row: Row, tenantId: Option<nat>, consumerGroup: string) {
    row.consumerGroup == consumerGroup && (tenantId.Some? ==> row.tenantId == tenantId.value)
  }

  /** Why no worker takes such a row now: it is finished, used up, waiting for its retry, or leased. */
  predicate PassedOver(row: Row, now: int, maxAttempts: int) {
    row.status == Delivered || row.status == DeadLetter || row.attemptCount >= maxAttempts ||
    (row.nextAttemptAt.Some? && now < row.nextAttemptAt.value) ||
    (row.status == Running && (row.leaseExpiresAt.None? || now < row.leaseExpiresAt.value))
  }

  lemma ClaimableExactly(row: Row, q: Query)
    ensures Claimable(row, q) <==>
            Addressed(row, q.tenantId, q.consumerGroup) && !PassedOver(row, q.now, q.maxAttempts)
  {
  }

  /** The oldest row that is addressed and not passed over, among those that no other transaction holds. */
  ghost predicate OldestDue(rows: map<Id, Row>, locked: set<Id>, q: Query, id: Id) {
    id in rows && id !in locked && Addressed(rows[id], q.tenantId, q.consumerGroup) &&
    !PassedOver(rows[id], q.now, q.maxAttempts) &&
    forall other | other in rows && other !in locked && Addressed(rows[other], q.tenantId, q.consumerGroup) &&
      !PassedOver(rows[other], q.now, q.maxAttempts) ::
      rows[id].createdAt < rows[other].createdAt || (rows[id].createdAt == rows[other].createdAt && id <= other)
  }

  lemma FirstIsOldest(rows: map<Id, Row>, locked: set<Id>, q: Query, id: Id)
    ensures FirstClaimable(rows, locked, q, id) <==> OldestDue(rows, locked, q, id)
  {
    forall other | other in rows ensures Claimable(rows[other], q) <==>
      Addressed(rows[other], q.tenantId, q.consumerGroup) && !PassedOver(rows[other], q.now, q.maxAttempts)
    {
      ClaimableExactly(rows[other], q);
    }
  }

  /** `ORDER BY created_at, id` */
  predicate NotAfter(rows: map<Id, Row>, a: Id, b: Id)
    requires a in rows && b in rows
  {
    rows[a].createdAt < rows[b].createdAt || (rows[a].createdAt == rows[b].createdAt && a <= b)
  }

  /** The row the query returns when the rows in `locked` are held by other transactions. */
  ghost predicate FirstClaimable(rows: map<Id, Row>, locked: set<Id>, q: Query, id: Id) {
    id in rows && id !in locked && Claimable(rows[id], q) &&
    forall other | other in rows && other !in locked && Claimable(rows[other], q) :: NotAfter(rows, id, other)
  }

  lemma NotAfterTransitive(rows: map<Id, Row>, a: Id, b: Id, c: Id)
    requires a in rows && b in rows && c in rows && NotAfter(rows, a, b) && NotAfter(rows, b, c)
    ensures NotAfter(rows, a, c)
  {
  }

  lemma {:induction false} FirstExists(rows: map<Id, Row>, candidates: set<Id>) returns (first: Id)
    requires candidates != {} && candidates <= rows.Keys
    ensures first in candidates && forall other | other in candidates :: NotAfter(rows, first, other)
    decreases |candidates|
  {
    first :| first in candidates;
    var rest := candidates - {first};
    if rest != {} {
      var next := FirstExists(rows, rest);
      if !NotAfter(rows, first, next) {
        first := next;
      } else {
        forall other | other in rest ensures NotAfter(rows, first, other) {
          NotAfterTransitive(rows, first, next, other);
        }
      }
    }
  }

  function ClaimedRow(row: Row, now: int, owner: string, leaseSeconds: int): Row {
    row.(status := Running,
         attemptCount := row.attemptCount + 1,
         lastAttemptAt := Some(now),
         leaseOwner := Some(owner),
         leaseExpiresAt := Some(now + leaseSeconds * SECOND),
         lastErrorCode := None,
         lastErrorMessage := None)
  }

  /** Replace one row and append the audit fact about it, as every operation does. */
  function Record(s: Store, id: Id, row: Row, action: Action, actor: string, error: Option<(string, string)>): Store {
    Store(s.rows[id := row],
          s.audits + [Audit(id, action, row.attemptCount, row.status, row.responseStatusCode,
                            if error.Some? then Some(error.value.0) else None,
                            if error.Some? && error.value.1 != "" then Some(Truncate(error.value.1, 2000)) else None,
                            actor)])
  }

  function ClaimStore(s: Store, id: Id, now: int, owner: string, leaseSeconds: int): Store
    requires id in s.rows
  {
    Record(s, id, ClaimedRow(s.rows[id], now, owner, leaseSeconds), Claim, owner, None)
  }

  // ---------------------------------------------------------------- completion and replay

  /** The fence of both completions: the row is still running under the lease of this owner string. */
  predicate HoldsLease(s: Store, id: Id, owner: string) {
    id in s.rows && s.rows[id].status == Running && s.rows[id].leaseOwner == Some(owner)
  }

  function DeliveredRow(row: Row, now: int, statusCode: int): Row {
    row.(status := Delivered,
         deliveredAt := Some(now),
         responseStatusCode := Some(statusCode),
         leaseOwner := None,
         leaseExpiresAt := None,
         nextAttemptAt := None)
  }

  function DeliverStore(s: Store, id: Id, owner: string, now: int, statusCode: int): Store {
    if HoldsLease(s, id, owner)
    then Record(s, id, DeliveredRow(s.rows[id], now, statusCode), Deliver, owner, None)
    else s
  }

  datatype Failing = Failing(errorCode: string, errorMessage: string, response: Option<int>, retryAt: Option<int>)

  function FailedRow(row: Row, f: Failing, maxAttempts: int): Row {
    var exhausted := row.attemptCount >= maxAttempts;
    row.(lastErrorCode := Some(Truncate(f.errorCode, 100)),
         lastErrorMessage := Some(Truncate(f.errorMessage, 4000)),
         responseStatusCode := f.response,
         leaseOwner := None,
         leaseExpiresAt := None,
         status := if exhausted then DeadLetter else Pending,
         nextAttemptAt := if exhausted then None else f.retryAt)
  }

  function FailStore(s: Store, id: Id, owner: string, f: Failing, maxAttempts: int): Store {
    if HoldsLease(s, id, owner)
    then
      var row := FailedRow(s.rows[id], f, maxAttempts);
      Record(s, id, row, if row.status == DeadLetter then Bury else Retry, owner, Some((f.errorCode, f.errorMessage)))
    else s
  }

  predicate Finished(status: Status) {
    status == Delivered || status == DeadLetter
  }

  function ReplayedRow(row: Row): Row {
    row.(status := Pending,
         attemptCount := 0,
         nextAttemptAt := None,
         leaseOwner := None,
         leaseExpiresAt := None,
         deliveredAt := None,
         responseStatusCode := None,
         lastErrorCode := None,
         lastErrorMessage := None)
  }

  predicate Owns(s: Store, tenantId: nat, id: Id) {
    id in s.rows && s.rows[id].tenantId == tenantId
  }

  function ReplayStore(s: Store, tenantId: nat, id: Id, actor: string): Store {
    if Owns(s, tenantId, id) && Finished(s.rows[id].status)
    then Record(s, id, ReplayedRow(s.rows[id]), Replay, actor, None)
    else s
  }

  // ---------------------------------------------------------------- back-off

  function Pow2(n: nat): (p: nat)
    ensures p > 0
  {
    if n == 0 then 1 else 2 * Pow2(n - 1)
  }

  /** Seconds between a failed attempt and the next one. */
  function BackoffSeconds(attempt: nat, base: nat, max: nat): nat
    requires attempt > 0
  {
    var raw := base * Pow2(attempt - 1);
    if raw < max then raw else max
  }

  function RetryAt(now: int, attempt: int, base: int, max: int): Option<int> {
    if attempt <= 0 || base <= 0 || max <= 0 then None else Some(now + BackoffSeconds(attempt, base, max) * SECOND)
  }

  /** The back-off never shrinks from one attempt to a later one and stays between `min(base, max)` and `max`. */
  lemma {:induction false} BackoffMonotone(attempt: nat, later: nat, base: nat, max: nat)
    requires 0 < attempt <= later
    ensures BackoffSeconds(attempt, base, max) <= BackoffSeconds(later, base, max) <= max
    ensures (if base < max then base else max) <= BackoffSeconds(attempt, base, max)
    decreases later
  {
    if attempt < later {
      BackoffMonotone(attempt, later - 1, base, max);
      DoubleGrows(base, Pow2(later - 2));
    } else if attempt > 1 {
      BackoffMonotone(attempt - 1, attempt - 1, base, max);
      DoubleGrows(base, Pow2(attempt - 2));
    }
  }

  /** Each further attempt doubles the back-off of the one before, up to the maximum. */
  lemma BackoffDoubles(attempt: nat, base: nat, max: nat)
    requires 0 < attempt
    ensures BackoffSeconds(1, base, max) == Least(base, max)
    ensures BackoffSeconds(attempt + 1, base, max) == Least(2 * BackoffSeconds(attempt, base, max), max)
  {
    var p := Pow2(attempt - 1);
    assert base * (2 * p) == 2 * (base * p);
  }

  function Least(a: nat, b: nat): nat {
    if a < b then a else b
  }

  lemma DoubleGrows(base: nat, p: nat)
    ensures base * p <= base * (2 * p)
  {
  }

  // ---------------------------------------------------------------- the repository

  class DeliveryRecord {
    const id: Id
    const tenantId: nat
    const consumerGroup: string
    const createdAt: int
    var status: Status
    var attemptCount: nat
    var nextAttemptAt: Option<int>
    var lastAttemptAt: Option<int>
    var deliveredAt: Option<int>
    var leaseOwner: Option<string>
    var leaseExpiresAt: Option<int>
    var responseStatusCode: Option<int>
    var lastErrorCode: Option<string>
    var lastErrorMessage: Option<string>

    function View(): Row
      reads this
    {
      Row(tenantId, consumerGroup, createdAt, status, attemptCount, nextAttemptAt, lastAttemptAt, deliveredAt,
          leaseOwner, leaseExpiresAt, responseStatusCode, lastErrorCode, lastErrorMessage)
    }

    constructor (id: Id, tenantId: nat, consumerGroup: string, createdAt: int)
      ensures this.id == id && View() == NewRow(tenantId, consumerGroup, createdAt)
      ensures status == Pending && attemptCount == 0 && nextAttemptAt.None? && leaseOwner.None?
    {
      this.id, this.tenantId, this.consumerGroup, this.createdAt := id, tenantId, consumerGroup, createdAt;
      status, attemptCount := Pending, 0;
      nextAttemptAt, lastAttemptAt, deliveredAt, leaseOwner, leaseExpiresAt := None, None, None, None, None;
      responseStatusCode, lastErrorCode, lastErrorMessage := None, None, None;
    }

    method SetClaimed(now: int, owner: string, leaseSeconds: int)
      modifies this
      ensures View() == ClaimedRow(old(View()), now, owner, leaseSeconds)
      ensures View() == old(View()).(status := Running, attemptCount := old(attemptCount) + 1,
                                     lastAttemptAt := Some(now), leaseOwner := Some(owner),
                                     leaseExpiresAt := Some(now + leaseSeconds * SECOND),
                                     lastErrorCode := None, lastErrorMessage := None)
    {
      status := Running;
      attemptCount := attemptCount + 1;
      lastAttemptAt := Some(now);
      leaseOwner := Some(owner);
      leaseExpiresAt := Some(now + leaseSeconds * SECOND);
      lastErrorCode := None;
      lastErrorMessage := None;
    }

    method SetDelivered(now: int, code: int)
      modifies this
      ensures View() == DeliveredRow(old(View()), now, code)
      ensures View() == old(View()).(status := Delivered, deliveredAt := Some(now), responseStatusCode := Some(code),
                                     leaseOwner := None, leaseExpiresAt := None, nextAttemptAt := None)
    {
      status := Delivered;
      deliveredAt := Some(now);
      responseStatusCode := Some(code);
      leaseOwner := None;
      leaseExpiresAt := None;
      nextAttemptAt := None;
    }

    method SetFailed(f: Failing, maxAttempts: int) returns (exhausted: bool)
      modifies this
      ensures View() == FailedRow(old(View()), f, maxAttempts)
      ensures exhausted == (old(attemptCount) >= maxAttempts)
      ensures View() == old(View()).(lastErrorCode := Some(Truncate(f.errorCode, 100)),
                                     lastErrorMessage := Some(Truncate(f.errorMessage, 4000)),
                                     responseStatusCode := f.response, leaseOwner := None, leaseExpiresAt := None,
                                     status := if exhausted then DeadLetter else Pending,
                                     nextAttemptAt := if exhausted then None else f.retryAt)
    {
      lastErrorCode := Some(Truncate(f.errorCode, 100));
      lastErrorMessage := Some(Truncate(f.errorMessage, 4000));
      responseStatusCode := f.response;
      leaseOwner := None;
      leaseExpiresAt := None;
      exhausted := attemptCount >= maxAttempts;
      status := if exhausted then DeadLetter else Pending;
      nextAttemptAt := if exhausted then None else f.retryAt;
    }

    method SetReplayed()
      modifies this
      ensures View() == ReplayedRow(old(View()))
      ensures View() == Row(tenantId, consumerGroup, createdAt, Pending, 0, None, old(lastAttemptAt), None, None, None,
                            None, None, None)
    {
      status := Pending;
      attemptCount := 0;
      nextAttemptAt := None;
      leaseOwner := None;
      leaseExpiresAt := None;
      deliveredAt := None;
      responseStatusCode := None;
      lastErrorCode := None;
      lastErrorMessage := None;
    }
  }

  function NewRow(tenantId: nat, consumerGroup: string, createdAt: int): Row {
    Row(tenantId, consumerGroup, createdAt, Pending, 0, None, None, None, None, None, None, None, None)
  }

  function EnqueueStore(s: Store, id: Id, tenantId: nat, consumerGroup: string, createdAt: int): Store {
    if id in s.rows then s else s.(rows := s.rows[id := NewRow(tenantId, consumerGroup, createdAt)])
  }

  predicate ValidGroup(group: string) {
    Strip(group) != "" && |Strip(group)| <= 128
  }

  class Repository {
    var table: map<Id, DeliveryRecord>
    var audits: seq<Audit>

    ghost predicate Valid()
      reads this, table.Values
    {
      forall id | id in table :: table[id].id == id
    }

    ghost function Rows(): map<Id, Row>
      reads this, table.Values
    {
      map id | id in table :: table[id].View()
    }

    ghost function Contents(): Store
      reads this, table.Values
    {
      Store(Rows(), audits)
    }

    constructor ()
      ensures Valid() && Contents() == Store(map[], [])
    {
      table, audits := map[], [];
    }

    /** A dispatched event inserts a pending delivery under a fresh identifier. */
    method Enqueue(id: Id, tenantId: nat, consumerGroup: string, createdAt: int)
      requires Valid() && id !in table
      modifies this`table
      ensures Valid() && Contents() == EnqueueStore(old(Contents()), id, tenantId, consumerGroup, createdAt)
    {
      var record := new DeliveryRecord(id, tenantId, consumerGroup, createdAt);
      table := table[id := record];
      assert Rows() == old(Rows())[id := record.View()];
    }

    method AddAudit(record: DeliveryRecord, action: Action, actor: string, status: Status,
                    error: Option<(string, string)>)
      modifies this`audits
      ensures audits == old(audits) + [Audit(record.id, action, record.attemptCount, status, record.responseStatusCode,
                                             if error.Some? then Some(error.value.0) else None,
                                             if error.Some? && error.value.1 != ""
                                                then Some(Truncate(error.value.1, 2000)) else None,
                                             actor)]
    {
      var errorCode := if error.Some? then Some(error.value.0) else None;
      var errorMessage := if error.Some? && error.value.1 != "" then Some(Truncate(error.value.1, 2000)) else None;
      audits := audits + [Audit(record.id, action, record.attemptCount, status, record.responseStatusCode, errorCode,
                                errorMessage, actor)];
    }

    twostate lemma OneRowChanged(id: Id)
      requires old(Valid()) && table == old(table) && id in table
      requires forall other | other in table && other != id :: unchanged(table[other])
      ensures Valid() && Rows() == old(Rows())[id := table[id].View()]
    {
    }

    /** `claim_next`; `locked` are the rows that `SKIP LOCKED` passes over. */
    method ClaimNext(now: int, owner: string, leaseSeconds: int, maxAttempts: int, tenantId: Option<nat>,
                     consumerGroup: string,
                     locked: set<Id>)
      returns (r: Result<Option<Id>, RepositoryError>)
      requires Valid()
      modifies this`audits, table.Values
      ensures Valid()
      ensures r == Failure(OwnerBlank) <==> Strip(owner) == ""
      ensures r == Failure(LimitsNotPositive) <==> Strip(owner) != "" && (leaseSeconds <= 0 || maxAttempts <= 0)
      ensures r.Failure? <==>
              Strip(owner) == "" || leaseSeconds <= 0 || maxAttempts <= 0 || Strip(consumerGroup) == "" ||
              |Strip(consumerGroup)| > 128
      ensures r.Failure? || r == Success(None) ==> Contents() == old(Contents())
      ensures r == Success(None) ==>
                forall id | id in Rows() && id !in locked && Addressed(Rows()[id], tenantId, Strip(consumerGroup)) ::
                  PassedOver(Rows()[id], now, maxAttempts)
      ensures r.Success? && r.value.Some? ==>
                var id := r.value.value;
                OldestDue(old(Rows()), locked, Query(now, maxAttempts, tenantId, Strip(consumerGroup)), id) &&
                Contents() == ClaimStore(old(Contents()), id, now, owner, leaseSeconds)
    {
      if Strip(owner) == "" {
        return Failure(OwnerBlank);
      }
      if leaseSeconds <= 0 || maxAttempts <= 0 {
        return Failure(LimitsNotPositive);
      }
      if !ValidGroup(consumerGroup) {
        return Failure(GroupInvalid);
      }
      var id := Select(Query(now, maxAttempts, tenantId, Strip(consumerGroup)), locked);
      if id.None? {
        return Success(None);
      }
      Take(id.value, now, owner, leaseSeconds);
      return Success(id);
    }

    /** The row that was selected is leased to the owner. */
    method Take(id: Id, now: int, owner: string, leaseSeconds: int)
      requires Valid() && id in table
      modifies this`audits, table.Values
      ensures Valid() && Contents() == ClaimStore(old(Contents()), id, now, owner, leaseSeconds)
      ensures audits == old(audits) + [Audit(id, Claim, old(Rows())[id].attemptCount + 1, Running,
                                             old(Rows())[id].responseStatusCode, None, None, owner)]
    {
      var record := table[id];
      record.SetClaimed(now, owner, leaseSeconds);
      AddAudit(record, Claim, owner, Running, None);
      OneRowChanged(id);
    }

    /** The locking query of `claim_next`. */
    method Select(q: Query, locked: set<Id>) returns (r: Option<Id>)
      requires Valid()
      ensures r.None? ==>
                forall id | id in Rows() && id !in locked && Addressed(Rows()[id], q.tenantId, q.consumerGroup) ::
                  PassedOver(Rows()[id], q.now, q.maxAttempts)
      ensures r.Some? ==> OldestDue(Rows(), locked, q, r.value)
    {
      var rows := map id | id in table :: table[id].View();
      var candidates := set id | id in rows && id !in locked && Claimable(rows[id], q);
      assert rows == Rows();
      if candidates == {} {
        forall id | id in rows && id !in locked ensures !Claimable(rows[id], q) {
          assert id !in candidates;
        }
        return None;
      }
      ghost var first := FirstExists(rows, candidates);
      var id :| id in candidates && forall other | other in candidates :: NotAfter(rows, id, other);
      FirstIsOldest(rows, locked, q, id);
      return Some(id);
    }

    method MarkDelivered(id: Id, owner: string, now: int, statusCode: int) returns (marked: bool)
      requires Valid()
      modifies this`audits, table.Values
      ensures Valid() && marked == HoldsLease(old(Contents()), id, owner)
      ensures Contents() == DeliverStore(old(Contents()), id, owner, now, statusCode)
      ensures audits == old(audits) +
                        if marked then [Audit(id, Deliver, old(Rows())[id].attemptCount, Delivered, Some(statusCode),
                                              None, None, owner)] else []
    {
      if id !in table || table[id].status != Running || table[id].leaseOwner != Some(owner) {
        return false;
      }
      var record := table[id];
      record.SetDelivered(now, statusCode);
      AddAudit(record, Deliver, owner, Delivered, None);
      OneRowChanged(id);
      return true;
    }

    method MarkFailed(id: Id, owner: string, f: Failing, maxAttempts: int) returns (r: Result<bool, RepositoryError>)
      requires Valid()
      modifies this`audits, table.Values
      ensures Valid() && (r.Failure? <==> maxAttempts <= 0)
      ensures r.Failure? ==> Contents() == old(Contents())
      ensures r.Success? ==> r.value == HoldsLease(old(Contents()), id, owner)
      ensures r.Success? ==> Contents() == FailStore(old(Contents()), id, owner, f, maxAttempts)
      ensures r == Success(true) ==>
                var attempts := old(Rows())[id].attemptCount;
                |audits| == |old(audits)| + 1 && var fact := audits[|old(audits)|];
                fact.action == (if attempts < maxAttempts then Retry else Bury) && fact.attemptCount == attempts &&
                fact.actor == owner && fact.errorCode == Some(f.errorCode) && fact.responseStatusCode == f.response &&
                (f.errorMessage != "" && |f.errorMessage| <= 2000 ==> fact.errorMessage == Some(f.errorMessage))
    {
      if maxAttempts <= 0 {
        return Failure(LimitsNotPositive);
      }
      if id !in table || table[id].status != Running || table[id].leaseOwner != Some(owner) {
        return Success(false);
      }
      var record := table[id];
      var exhausted := record.SetFailed(f, maxAttempts);
      AddAudit(record, if exhausted then Bury else Retry, owner, if exhausted then DeadLetter
               else Pending, Some((f.errorCode, f.errorMessage)));
      OneRowChanged(id);
      return Success(true);
    }

    /** `replay`; the result is whether the row was found. */
    method ReplayDelivery(tenantId: nat, id: Id, actor: string) returns (r: Result<bool, RepositoryError>)
      requires Valid()
      modifies this`audits, table.Values
      ensures Valid()
      ensures r == Success(false) <==> !Owns(old(Contents()), tenantId, id)
      ensures r.Failure? <==>
              Owns(old(Contents()), tenantId, id) && old(Contents()).rows[id].status in {Pending, Running}
      ensures Contents() == ReplayStore(old(Contents()), tenantId, id, actor)
      ensures r == Success(true) ==> audits == old(audits) + [Audit(id, Replay, 0, Pending, None, None, None, actor)]
    {
      if id !in table || table[id].tenantId != tenantId {
        return Success(false);
      }
      var record := table[id];
      if record.status != Delivered && record.status != DeadLetter {
        return Failure(ReplayNotAllowed);
      }
      record.SetReplayed();
      AddAudit(record, Replay, actor, Pending, None);
      OneRowChanged(id);
      return Success(true);
    }
  }
}
