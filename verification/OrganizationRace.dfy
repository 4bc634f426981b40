/**
 Concurrent calls on one organization (backend/app/services/organization/service.py). Updating and
 removing a member lock nothing: they read and check in one step, and write the changed fields by
 primary key in a later one. Transferring the role reads the actor first and then locks all memberships,
 but it keeps the actor as it was read. Adding members and suspending touch no existing membership.
 */
module OrganizationRace {
  import opened Wrappers
  import opened Organization

  /** What a call under way will write: the fields it changes against what it read, or the role. */
  datatype Ticket = Fields(m: nat, role: Option<Role>, status: Option<Status>) | Handover(owner: nat, target: nat)

  datatype World = World(o: Org, open: map<nat, Ticket>)

  datatype Move =
    | AtOnce(users: Users, step: Step)
    | Reads(call: nat, users: Users, step: Step)
    | Writes(call: nat)

  /** A field is written only if it differs from what was read. */
  function Change<T(==)>(given: Option<T>, read: T): Option<T> {
    if given == Some(read) then None else given
  }

  /** The first checks of a transfer, on the actor alone. */
  predicate OwnerActs(o: Org, users: Users, actor: User) {
    !o.suspended && ActiveMember(o.rows, users, actor) && o.rows[MembershipOf(o.rows, actor)].role == Owner
  }

  function TicketOf(o: Org, users: Users, step: Step): Option<Ticket> {
    match step
    case Update(actor, m, role, status) =>
      if RefusalOf(o, users, step).Some? then None
      else Some(Fields(m, Change(role, o.rows[m].role), Change(status, o.rows[m].status)))
    case Remove(actor, m) =>
      if RefusalOf(o, users, step).Some? then None else Some(Fields(m, None, Change(Some(Removed), o.rows[m].status)))
    case Transfer(actor, target) =>
      if OwnerActs(o, users, actor) then Some(Handover(MembershipOf(o.rows, actor), target)) else None
    case _ => None
  }

  /** The memberships as a transfer sees them: current, but for the actor. */
  function Seen(rows: seq<Row>, owner: nat): seq<Row>
    requires owner < |rows|
  {
    rows[owner := Row(rows[owner].user, Owner, Active)]
  }

  predicate HandsOver(rows: seq<Row>, owner: nat, target: nat) {
    owner < |rows| && target < |rows| && Seen(rows, owner)[target].status == Active &&
    ActiveOwners(Seen(rows, owner)) == {owner}
  }

  function Written(rows: seq<Row>, t: Ticket): seq<Row> {
    match t
    case Fields(m, role, status) => if m < |rows| then rows[m := Updated(rows[m], role, status)] else rows
    case Handover(owner, target) =>
      if HandsOver(rows, owner, target) && owner != target
      then rows[owner := rows[owner].(role := Admin)][target := rows[target].(role := Owner)]
      else rows
  }

  function Next(w: World, move: Move): World {
    match move
    case AtOnce(users, step) => if step.Add? || step.Suspend? then w.(o := Apply(w.o, users, step)) else w
    case Reads(call, users, step) =>
      if call !in w.open && TicketOf(w.o, users, step).Some?
         then w.(open := w.open[call := TicketOf(w.o, users, step).value]) else w
    case Writes(call) => if call in w.open then World(w.o.(rows := Written(w.o.rows, w.open[call])), w.open - {call})
      else w
  }

  function After(w: World, moves: seq<Move>): World
    decreases |moves|
  {
    if moves == [] then w else After(Next(w, moves[0]), moves[1..])
  }

  // ---------------------------------------------------------------- what a call reads and writes

  /** Which calls get past their first step. */
  lemma WhoReads(o: Org, users: Users, step: Step)
    requires DistinctUsers(o)
    ensures step.Transfer? ==>
              (TicketOf(o, users, step).Some? <==> !o.suspended && Holds(o, users, step.actor, {Owner}))
    ensures step.Update? || step.Remove? ==> (TicketOf(o, users, step).Some? <==> RefusalOf(o, users, step).None?)
  {
    if step.Transfer? {
      HoldsMembership(o, users, step.actor, {Owner});
    }
  }

  /** A changed field is written whatever the membership has become; a field given as it was read is left alone. */
  lemma WritesWhatChanged(o: Org, users: Users, actor: User, m: nat, role: Option<Role>, status: Option<Status>,
                          later: seq<Row>)
    requires m < |later|
    ensures var ticket := TicketOf(o, users, Update(actor, m, role, status));
            ticket.Some? ==>
              Written(later, ticket.value) ==
              later[m := Row(later[m].user,
                             if role.None? || role.value == o.rows[m].role then later[m].role else role.value,
                             if status.None? || status.value == o.rows[m].status then later[m].status
                             else status.value)]
    ensures var ticket := TicketOf(o, users, Remove(actor, m));
            ticket.Some? && o.rows[m].status != Removed ==>
              Written(later, ticket.value) == later[m := later[m].(status := Removed)]
  {
  }

  /** A transfer goes ahead if its target is active and nobody but the actor owns the organization by now. */
  lemma HandoverSees(rows: seq<Row>, owner: nat, target: nat)
    ensures HandsOver(rows, owner, target) <==>
            owner < |rows| && target < |rows| && (target == owner || rows[target].status == Active) &&
            forall i | 0 <= i < |rows| && i != owner :: rows[i].role != Owner || rows[i].status != Active
  {
    if owner < |rows| {
      var seen := Seen(rows, owner);
      assert owner in ActiveOwners(seen);
      assert forall i | 0 <= i < |rows| && i != owner ::
          i in ActiveOwners(seen) <==> rows[i].role == Owner && rows[i].status == Active;
    }
  }

  // ---------------------------------------------------------------- exactly one owner, or not

  /** No call under way writes the owner role as a field. */
  predicate TicketInv(w: World) {
    forall call | call in w.open && w.open[call].Fields? :: w.open[call].role != Some(Owner)
  }

  /** The write takes the role or the active status from the owner. */
  predicate HitsOwner(w: World, move: Move, owner: nat) {
    move.Writes? && move.call in w.open && w.open[move.call].Fields? && w.open[move.call].m == owner &&
    (w.open[move.call].role.Some? || (w.open[move.call].status.Some? && w.open[move.call].status != Some(Active)))
  }

  function NextOwnerOf(w: World, move: Move, owner: nat): nat {
    if move.Writes? && move.call in w.open && w.open[move.call].Handover? &&
       HandsOver(w.o.rows, w.open[move.call].owner, w.open[move.call].target)
    then w.open[move.call].target else owner
  }

  lemma NextKeepsTickets(w: World, move: Move)
    requires TicketInv(w)
    ensures TicketInv(Next(w, move))
  {
  }

  /** Only the owner itself hands the role over, whatever it read. */
  lemma HandsOverFromOwner(o: Org, w: nat, owner: nat, target: nat)
    requires OwnedBy(o, w) && HandsOver(o.rows, owner, target)
    ensures owner == w && o.rows[target].status == Active
  {
    assert w in ActiveOwners(Seen(o.rows, owner));
  }

  lemma HandoverKeeps(o: Org, w: nat, owner: nat, target: nat)
    requires OwnedBy(o, w)
    ensures OwnedBy(o.(rows := Written(o.rows, Handover(owner, target))), if HandsOver(o.rows, owner, target)
                    then target else w)
  {
    if HandsOver(o.rows, owner, target) {
      HandsOverFromOwner(o, w, owner, target);
    }
  }

  lemma AtOnceKeeps(o: Org, users: Users, step: Step, w: nat)
    requires OwnedBy(o, w) && (step.Add? || step.Suspend?)
    ensures OwnedBy(Apply(o, users, step), w)
  {
    OwnerAfterStep(o, users, step, w);
  }

  lemma FieldsKeep(o: Org, m: nat, role: Option<Role>, status: Option<Status>, w: nat)
    requires OwnedBy(o, w) && role != Some(Owner)
    ensures OwnedBy(o.(rows := Written(o.rows, Fields(m, role, status))), w) <==>
            !(m == w && (role.Some? || (status.Some? && status != Some(Active))))
  {
    var rows := Written(o.rows, Fields(m, role, status));
    if m < |o.rows| {
      assert rows[m] == Updated(o.rows[m], role, status);
    }
  }

  /**
   A move keeps exactly one active owner, the handed-over one if it hands over, if and only if it does
   not write another role or an inactive status to the owner of the moment.
   */
  lemma OwnerAfterMove(w: World, move: Move, owner: nat)
    requires TicketInv(w) && OwnedBy(w.o, owner)
    ensures OwnedBy(Next(w, move).o, NextOwnerOf(w, move, owner)) <==> !HitsOwner(w, move, owner)
  {
    match move
    case AtOnce(users, step) => if step.Add? || step.Suspend? { AtOnceKeeps(w.o, users, step, owner); }
    case Reads(_, _, _) =>
    case Writes(call) =>
      if call in w.open {
        match w.open[call]
        case Fields(m, role, status) => FieldsKeep(w.o, m, role, status, owner);
        case Handover(from, target) => HandoverKeeps(w.o, owner, from, target);
      }
  }

  /** In every state of the run the organization has exactly one owner, active, as the hand-overs say. */
  predicate AlwaysOwned(w: World, moves: seq<Move>, owner: nat)
    decreases |moves|
  {
    OwnedBy(w.o, owner) && (moves == [] || AlwaysOwned(Next(w, moves[0]), moves[1..], NextOwnerOf(w, moves[0], owner)))
  }

  predicate OwnerNeverHit(w: World, moves: seq<Move>, owner: nat)
    decreases |moves|
  {
    moves == [] || (!HitsOwner(w, moves[0], owner) &&
                    OwnerNeverHit(Next(w, moves[0]), moves[1..], NextOwnerOf(w, moves[0], owner)))
  }

  lemma {:induction false} OwnedAlongRun(w: World, moves: seq<Move>, owner: nat)
    requires TicketInv(w) && OwnedBy(w.o, owner)
    ensures AlwaysOwned(w, moves, owner) <==> OwnerNeverHit(w, moves, owner)
    decreases |moves|
  {
    if moves != [] {
      NextKeepsTickets(w, moves[0]);
      OwnerAfterMove(w, moves[0], owner);
      if !HitsOwner(w, moves[0], owner) {
        OwnedAlongRun(Next(w, moves[0]), moves[1..], NextOwnerOf(w, moves[0], owner));
      }
    }
  }

  /**
   However the calls on an organization interleave, it has exactly one active owner throughout if and
   only if no write takes the role or the active status from the owner of the moment: from a member that
   became the owner after it was read, or from an owner that sets its own status to invited.
   */
  lemma OneOwnerInterleaved(founder: User, moves: seq<Move>)
    ensures var w := World(Created(founder), map[]); AlwaysOwned(w, moves, 0) <==> OwnerNeverHit(w, moves, 0)
  {
    OwnedAlongRun(World(Created(founder), map[]), moves, 0);
  }

  /** A member whose removal is under way is made the owner. */
  function RemovedOwner(): seq<Move> {
    [AtOnce(BOTH, Add(0, 1, Member)), Reads(0, BOTH, Remove(0, 1)), Reads(1, BOTH, Transfer(0, 1)), Writes(1),
     Writes(0)]
  }

  lemma AfterFive(w: World, a: Move, b: Move, c: Move, d: Move, e: Move)
    ensures After(w, [a, b, c, d, e]) == Next(Next(Next(Next(Next(w, a), b), c), d), e)
  {
    assert [a, b, c, d, e][1..] == [b, c, d, e] && [b, c, d, e][1..] == [c, d, e] && [c, d, e][1..] == [d, e] &&
           [d, e][1..] == [e] && [e][1..] == [];
    assert After(Next(w, a), [b, c, d, e]) == After(Next(Next(w, a), b), [c, d, e]);
    assert After(Next(Next(w, a), b), [c, d, e]) == After(Next(Next(Next(w, a), b), c), [d, e]);
    assert After(Next(Next(Next(w, a), b), c), [d, e]) == After(Next(Next(Next(Next(w, a), b), c), d), [e]);
    assert After(Next(Next(Next(Next(w, a), b), c), d), [e]) ==
           After(Next(Next(Next(Next(Next(w, a), b), c), d), e), []);
  }

  const BOTH := Users({0, 1}, {0, 1})

  const TWO := Org(false, [Row(0, Owner, Active), Row(1, Member, Active)])

  lemma MemberJoins()
    ensures Next(World(Created(0), map[]), AtOnce(BOTH, Add(0, 1, Member))) == World(TWO, map[])
  {
    assert MembershipOf(Created(0).rows, 0) == 0 && MembershipOf(Created(0).rows, 1) == 1;
  }

  lemma BothRead()
    ensures var w := World(TWO, map[0 := Fields(1, None, Some(Removed))]);
            Next(World(TWO, map[]), Reads(0, BOTH, Remove(0, 1))) == w &&
            Next(w, Reads(1, BOTH, Transfer(0, 1))) ==
              World(TWO, map[0 := Fields(1, None, Some(Removed)), 1 := Handover(0, 1)])
  {
    assert MembershipOf(TWO.rows[..1], 0) == 0 && MembershipOf(TWO.rows, 0) == 0;
  }

  lemma BothWrite()
    ensures var w := World(TWO, map[0 := Fields(1, None, Some(Removed)), 1 := Handover(0, 1)]);
            Next(Next(w, Writes(1)), Writes(0)).o.rows == [Row(0, Admin, Active), Row(1, Owner, Removed)]
  {
    assert ActiveOwners(Seen(TWO.rows, 0)) == {0};
    assert HandsOver(TWO.rows, 0, 1);
  }

  /** The condition can fail: the removal then leaves the organization without an active owner. */
  lemma RemovalLosesOwner()
    ensures var o := After(World(Created(0), map[]), RemovedOwner()).o;
            o.rows == [Row(0, Admin, Active), Row(1, Owner, Removed)] && ActiveOwners(o.rows) == {}
  {
    var moves := RemovedOwner();
    AfterFive(World(Created(0), map[]), moves[0], moves[1], moves[2], moves[3], moves[4]);
    MemberJoins();
    BothRead();
    BothWrite();
  }
}
