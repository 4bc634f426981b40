/**
 The persistent circuit breaker (backend/app/runtime/workflow/circuit_breaker.py): what each call
 does to a circuit row and to the probe token of the calling context, and the service that performs
 it on mutable rows. Times are microseconds.
 */
module CircuitBreaker {
  import opened Wrappers

  const MILLISECOND := 1000

  datatype State = Closed | Open | HalfOpen

  datatype Policy = Policy(enabled: bool, failureThreshold: int, recoveryTimeoutMs: int, halfOpenMaxCalls: int)

  /** The ranges that `validate_config` accepts. */
  predicate ValidPolicy(p: Policy) {
    1 <= p.failureThreshold <= 100 && 100 <= p.recoveryTimeoutMs <= 300_000 && 1 <= p.halfOpenMaxCalls <= 10
  }

  datatype Circuit = Circuit(
    state: State,
    failureThreshold: int,
    recoveryTimeoutMs: int,
    halfOpenMaxCalls: int,
    failureCount: int,
    successCount: int,
    openedAt: Option<int>,
    lastFailureAt: Option<int>,
    halfOpenedAt: Option<int>)

  datatype Key = Key(tenantId: nat, circuitKey: string)

  /** The reservation of a probe: for which circuit, and in which half-open window. */
  datatype Token = Token(key: Key, window: Option<int>)

  datatype CircuitError = InvalidConfig | PolicyMismatch | CircuitIsOpen

  predicate PolicyMatches(c: Circuit, p: Policy) {
    c.failureThreshold == p.failureThreshold && c.recoveryTimeoutMs == p.recoveryTimeoutMs &&
    c.halfOpenMaxCalls == p.halfOpenMaxCalls
  }

  function NewCircuit(p: Policy): Circuit {
    Circuit(Closed, p.failureThreshold, p.recoveryTimeoutMs, p.halfOpenMaxCalls, 0, 0, None, None, None)
  }

  /** Whether the recovery timeout of an open circuit has passed; a missing opening time counts as now. */
  predicate Recovered(c: Circuit, now: int) {
    now - (if c.openedAt.Some? then c.openedAt.value else now) >= c.recoveryTimeoutMs * MILLISECOND
  }

  // ---------------------------------------------------------------- admission

  /** Whether `before_call` lets a call through. */
  predicate Admits(c: Circuit, now: int) {
    match c.state
    case Closed => true
    case Open => Recovered(c, now)
    case HalfOpen => c.successCount < c.halfOpenMaxCalls
  }

  function Admitted(c: Circuit, now: int): Circuit
    requires Admits(c, now)
  {
    match c.state
    case Closed => c
    case Open => c.(state := HalfOpen, halfOpenedAt := Some(now), successCount := 1)
    case HalfOpen => c.(successCount := c.successCount + 1)
  }

  /** A call admitted into a half-open window reserves a probe in it; a call admitted while closed reserves nothing. */
  function Reservation(c: Circuit, key: Key, now: int): Option<Token>
    requires Admits(c, now)
  {
    var c' := Admitted(c, now);
    if c'.state == HalfOpen then Some(Token(key, c'.halfOpenedAt)) else None
  }

  // ---------------------------------------------------------------- completion

  /** `_probe_matches`: no token, or the token of the current window of this circuit. */
  predicate ProbeMatches(c: Circuit, key: Key, probe: Option<Token>) {
    probe.None? || (probe.value.key == key && c.state == HalfOpen && c.halfOpenedAt == probe.value.window)
  }

  function Succeeded(c: Circuit, key: Key, probe: Option<Token>): Circuit {
    match c.state
    case HalfOpen =>
      if !ProbeMatches(c, key, probe) then c
      else
        var left := if c.successCount - 1 > 0 then c.successCount - 1 else 0;
        if left == 0
        then c.(successCount := 0, state := Closed, failureCount := 0, openedAt := None, halfOpenedAt := None)
        else c.(successCount := left)
    case Closed => if probe.None? then c.(failureCount := 0) else c
    case Open => c
  }

  function Failed(c: Circuit, key: Key, probe: Option<Token>, now: int): Circuit {
    if c.state == HalfOpen && !ProbeMatches(c, key, probe) then c
    else if c.state == HalfOpen || c.failureCount + 1 >= c.failureThreshold
    then c.(lastFailureAt := Some(now), successCount := 0, state := Open, failureCount := c.failureThreshold,
            openedAt := Some(now), halfOpenedAt := None)
    else c.(lastFailureAt := Some(now), successCount := 0, state := Closed, failureCount := c.failureCount + 1)
  }

  // ---------------------------------------------------------------- the service

  /** A persisted circuit row. */
  class CircuitRow {
    const key: Key
    const failureThreshold: int
    const recoveryTimeoutMs: int
    const halfOpenMaxCalls: int
    var state: State
    var failureCount: int
    var successCount: int
    var openedAt: Option<int>
    var lastFailureAt: Option<int>
    var halfOpenedAt: Option<int>

    function View(): Circuit
      reads this
    {
      Circuit(state, failureThreshold, recoveryTimeoutMs, halfOpenMaxCalls, failureCount, successCount, openedAt,
              lastFailureAt, halfOpenedAt)
    }

    constructor (key: Key, p: Policy)
      ensures this.key == key && View() == NewCircuit(p)
      ensures state == Closed && failureCount == 0 && successCount == 0 && openedAt.None?
    {
      this.key := key;
      failureThreshold, recoveryTimeoutMs, halfOpenMaxCalls := p.failureThreshold, p.recoveryTimeoutMs,
        p.halfOpenMaxCalls;
      state, failureCount, successCount, openedAt, lastFailureAt, halfOpenedAt := Closed, 0, 0, None, None, None;
    }

    method Admit(now: int) returns (admitted: bool)
      modifies this
      ensures admitted == Admits(old(View()), now)
      ensures View() == if admitted then Admitted(old(View()), now) else old(View())
      ensures old(state) == Closed ==> admitted && View() == old(View())
      ensures old(state) == Open && old(openedAt).Some? ==>
                (admitted <==> old(openedAt).value + recoveryTimeoutMs * MILLISECOND <= now) &&
                (admitted ==> View() == old(View()).(state := HalfOpen, halfOpenedAt := Some(now), successCount := 1))
      ensures old(state) == HalfOpen ==>
                (admitted <==> old(successCount) < halfOpenMaxCalls) &&
                (admitted ==> View() == old(View()).(successCount := old(successCount) + 1))
    {
      if state == Open {
        var since := if openedAt.Some? then openedAt.value else now;
        if now - since >= recoveryTimeoutMs * MILLISECOND {
          state := HalfOpen;
          halfOpenedAt := Some(now);
          successCount := 1;
          return true;
        }
        return false;
      }
      if state == HalfOpen {
        if successCount >= halfOpenMaxCalls {
          return false;
        }
        successCount := successCount + 1;
      }
      return true;
    }

    method Succeed(probe: Option<Token>)
      modifies this
      ensures View() == Succeeded(old(View()), key, probe)
      ensures old(state) == Closed && probe.None? ==> View() == old(View()).(failureCount := 0)
      ensures old(state) == Open || (old(state) == Closed && probe.Some?) ==> View() == old(View())
      ensures old(state) == HalfOpen && probe.Some? && probe.value != Token(key, old(halfOpenedAt)) ==>
                View() == old(View())
      ensures old(state) == HalfOpen && (probe.None? || probe.value == Token(key, old(halfOpenedAt))) ==>
                View() == if old(successCount) > 1 then old(View()).(successCount := old(successCount) - 1)
                          else old(View()).(state := Closed, failureCount := 0, successCount := 0, openedAt := None,
                                            halfOpenedAt := None)
    {
      if state == HalfOpen {
        if !ProbeMatches(View(), key, probe) {
          return;
        }
        successCount := if successCount - 1 > 0 then successCount - 1 else 0;
        if successCount == 0 {
          state := Closed;
          failureCount := 0;
          openedAt := None;
          halfOpenedAt := None;
        }
      } else if state == Closed && probe.None? {
        failureCount := 0;
      }
    }

    method Fail(probe: Option<Token>, now: int)
      modifies this
      ensures View() == Failed(old(View()), key, probe, now)
      ensures old(state) == HalfOpen && probe.Some? && probe.value != Token(key, old(halfOpenedAt)) ==>
                View() == old(View())
      ensures old(state) != HalfOpen && old(failureCount) + 1 < failureThreshold ==>
                View() == old(View()).(state := Closed, failureCount := old(failureCount) + 1, successCount := 0,
                                       lastFailureAt := Some(now))
      ensures (old(state) != HalfOpen && old(failureCount) + 1 >= failureThreshold) ||
              (old(state) == HalfOpen && (probe.None? || probe.value == Token(key, old(halfOpenedAt)))) ==>
                View() == old(View()).(state := Open, failureCount := failureThreshold, successCount := 0,
                                       lastFailureAt := Some(now), openedAt := Some(now), halfOpenedAt := None)
    {
      if state == HalfOpen && !ProbeMatches(View(), key, probe) {
        return;
      }
      lastFailureAt := Some(now);
      successCount := 0;
      if state == HalfOpen || failureCount + 1 >= failureThreshold {
        state := Open;
        failureCount := failureThreshold;
        openedAt := Some(now);
        halfOpenedAt := None;
      } else {
        state := Closed;
        failureCount := failureCount + 1;
      }
    }
  }

  /** The service: one row per tenant and key. `probe` is the token of the current execution context. */
  class Service {
    var rows: map<Key, CircuitRow>
    var probe: Option<Token>

    ghost predicate Valid()
      reads this, rows.Values
    {
      forall key | key in rows :: rows[key].key == key
    }

    ghost function Circuits(): map<Key, Circuit>
      reads this, rows.Values
    {
      map key | key in rows :: rows[key].View()
    }

    constructor ()
      ensures Valid() && Circuits() == map[] && probe == None
    {
      rows, probe := map[], None;
    }

    twostate lemma OneRowChanged(key: Key)
      requires old(Valid()) && rows == old(rows) && key in rows
      requires forall other | other in rows && other != key :: unchanged(rows[other])
      ensures Valid() && Circuits() == old(Circuits())[key := rows[key].View()]
    {
    }

    method Insert(key: Key, p: Policy) returns (row: CircuitRow)
      requires Valid() && key !in rows
      modifies this`rows
      ensures Valid() && key in rows && rows[key] == row && fresh(row) && rows == old(rows)[key := row]
      ensures Circuits() == old(Circuits())[key := NewCircuit(p)]
    {
      row := new CircuitRow(key, p);
      rows := rows[key := row];
      assert Circuits() == old(Circuits())[key := row.View()];
    }

    method FindOrInsert(key: Key, p: Policy) returns (row: CircuitRow)
      requires Valid()
      modifies this`rows
      ensures Valid() && key in rows && rows[key] == row && fresh(rows.Values - old(rows.Values))
      ensures Circuits() == if key in old(Circuits()) then old(Circuits()) else old(Circuits())[key := NewCircuit(p)]
    {
      if key in rows {
        return rows[key];
      }
      row := Insert(key, p);
    }

    method BeforeCall(key: Key, p: Policy, now: int) returns (r: Result<State, CircuitError>)
      requires Valid()
      modifies this, rows.Values
      ensures Valid()
      ensures r == Failure(InvalidConfig) <==>
              p.failureThreshold < 1 || 100 < p.failureThreshold ||
              p.recoveryTimeoutMs < 100 || 300_000 < p.recoveryTimeoutMs ||
              p.halfOpenMaxCalls < 1 || 10 < p.halfOpenMaxCalls
      ensures r == Failure(InvalidConfig) ==> probe == old(probe) && Circuits() == old(Circuits())
      ensures r.Success? ==>
                (r.value == HalfOpen ==> key in Circuits()) &&
                probe == if r.value == HalfOpen then Some(Token(key, Circuits()[key].halfOpenedAt)) else None
      ensures ValidPolicy(p) && !p.enabled ==> r == Success(Closed) && probe == None && Circuits() == old(Circuits())
      ensures ValidPolicy(p) && p.enabled && key !in old(Circuits()) ==>
                r == Success(Closed) && probe == None && Circuits() == old(Circuits())[key := NewCircuit(p)]
      ensures ValidPolicy(p) && p.enabled && key in old(Circuits()) ==>
                var c := old(Circuits())[key];
                if !PolicyMatches(c, p)
                   then r == Failure(PolicyMismatch) && probe == None && Circuits() == old(Circuits())
                else if !Admits(c, now)
                  then r == Failure(CircuitIsOpen) && probe == None && Circuits() == old(Circuits())
                else r == Success(Admitted(c, now).state) && probe == Reservation(c, key, now) &&
                     Circuits() == old(Circuits())[key := Admitted(c, now)]
    {
      if !ValidPolicy(p) {
        return Failure(InvalidConfig);
      }
      probe := None;
      if !p.enabled {
        return Success(Closed);
      }
      if key !in rows {
        var _ := Insert(key, p);
        return Success(Closed);
      }
      var row := rows[key];
      if !PolicyMatches(row.View(), p) {
        return Failure(PolicyMismatch);
      }
      var admitted := row.Admit(now);
      OneRowChanged(key);
      if !admitted {
        return Failure(CircuitIsOpen);
      }
      if row.state == HalfOpen {
        probe := Some(Token(key, row.halfOpenedAt));
      }
      return Success(row.state);
    }

    method RecordSuccess(key: Key, p: Policy) returns (r: Result<(), CircuitError>)
      requires Valid()
      modifies this`probe, rows.Values
      ensures Valid()
      ensures r == Failure(InvalidConfig) <==> !ValidPolicy(p)
      ensures r.Failure? ==> probe == old(probe) && Circuits() == old(Circuits())
      ensures r.Success? ==> probe == None
      ensures r.Success? ==>
                Circuits() == if p.enabled && key in old(Circuits())
                              then old(Circuits())[key := Succeeded(old(Circuits())[key], key, old(probe))]
                                else old(Circuits())
      ensures r == Failure(PolicyMismatch) <==>
              ValidPolicy(p) && p.enabled && key in old(Circuits()) &&
              Policy(true, old(Circuits())[key].failureThreshold, old(Circuits())[key].recoveryTimeoutMs,
                     old(Circuits())[key].halfOpenMaxCalls) != p
    {
      if !ValidPolicy(p) {
        return Failure(InvalidConfig);
      }
      if !p.enabled || key !in rows {
        probe := None;
        return Success(());
      }
      var row := rows[key];
      if !PolicyMatches(row.View(), p) {
        return Failure(PolicyMismatch);
      }
      row.Succeed(probe);
      OneRowChanged(key);
      probe := None;
      return Success(());
    }

    method RecordFailure(key: Key, p: Policy, now: int) returns (r: Result<State, CircuitError>)
      requires Valid()
      modifies this, rows.Values
      ensures Valid()
      ensures r == Failure(InvalidConfig) <==> !ValidPolicy(p)
      ensures r.Failure? ==> probe == old(probe) && Circuits() == old(Circuits())
      ensures r.Success? ==> probe == None
      ensures r.Success? && !p.enabled ==> Circuits() == old(Circuits())
      ensures r.Success? && p.enabled ==>
                var before := if key in old(Circuits()) then old(Circuits())[key] else NewCircuit(p);
                Circuits() == old(Circuits())[key := Failed(before, key, old(probe), now)] &&
                  r.value == Circuits()[key].state
      ensures r == Failure(PolicyMismatch) <==>
              ValidPolicy(p) && p.enabled && key in old(Circuits()) &&
              Policy(true, old(Circuits())[key].failureThreshold, old(Circuits())[key].recoveryTimeoutMs,
                     old(Circuits())[key].halfOpenMaxCalls) != p
    {
      if !ValidPolicy(p) {
        return Failure(InvalidConfig);
      }
      if !p.enabled {
        probe := None;
        return Success(Closed);
      }
      if key in rows && !PolicyMatches(rows[key].View(), p) {
        return Failure(PolicyMismatch);
      }
      var _ := FindOrInsert(key, p);
      var state := FailStored(key, now);
      return Success(state);
    }

    method FailStored(key: Key, now: int) returns (state: State)
      requires Valid() && key in rows
      modifies this`probe, rows.Values
      ensures Valid() && probe == None && rows == old(rows)
      ensures Circuits() == old(Circuits())[key := Failed(old(Circuits())[key], key, old(probe), now)]
      ensures state == Circuits()[key].state
    {
      var row := rows[key];
      row.Fail(probe, now);
      OneRowChanged(key);
      probe := None;
      return row.state;
    }
  }
}
