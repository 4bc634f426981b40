/**
 Owner governance of an organization (backend/app/services/organization/service.py): who may add,
 change and remove members, and how the owner role moves.

 A membership is named by its place in the order of insertion. The users known to the system, and
 those of them that are active, are given with each call.
 */
module Organization {
  import opened Wrappers

  type User = nat

  datatype Role = Owner | Admin | Member

  datatype Status = Invited | Active | Suspended | Removed

  datatype Row = Row(user: User, role: Role, status: Status)

  datatype Org = Org(suspended: bool, rows: seq<Row>)

  datatype Users = Users(known: set<User>, active: set<User>)

  type Refusal = Option<int>

  // ---------------------------------------------------------------- checks

  /** The membership of a user, or the number of memberships when there is none. */
  function MembershipOf(rows: seq<Row>, user: User): (i: nat)
    ensures i <= |rows| && (i < |rows| ==> rows[i].user == user) && forall j | 0 <= j < i :: rows[j].user != user
  {
    if |rows| == 0 then 0
    else
      var i := MembershipOf(rows[..|rows| - 1], user);
      if i < |rows| - 1 then i else if rows[|rows| - 1].user == user then |rows| - 1 else |rows|
  }

  /** `membership is None or membership.status != "active"` after the check of the user itself. */
  predicate ActiveMember(rows: seq<Row>, users: Users, actor: User) {
    actor in users.active && MembershipOf(rows, actor) < |rows| && rows[MembershipOf(rows, actor)].status == Active
  }

  /** `require_management_access` */
  predicate Manages(rows: seq<Row>, users: Users, actor: User) {
    ActiveMember(rows, users, actor) && rows[MembershipOf(rows, actor)].role != Member
  }

  function ActiveOwners(rows: seq<Row>): set<nat> {
    set i | 0 <= i < |rows| && rows[i].role == Owner && rows[i].status == Active
  }

  /** `_ensure_owner_remains`; the query for the other owner allows at most one row. */
  function OwnerRemains(rows: seq<Row>, m: nat): Refusal {
    var others := ActiveOwners(rows) - {m};
    if others == {} then Some(409) else if |others| == 1 then None else Some(500)
  }

  /** The membership is another active owner. */
  predicate OtherOwner(rows: seq<Row>, m: nat, i: nat) {
    i < |rows| && i != m && rows[i].role == Owner && rows[i].status == Active
  }

  /**
   An owner may be changed or removed if exactly one other active owner remains; with none it is a conflict,
   and with two the query for the other one fails.
   */
  lemma OwnerRemainsExactly(rows: seq<Row>, m: nat)
    ensures OwnerRemains(rows, m) == Some(409) <==> forall i :: !OtherOwner(rows, m, i)
    ensures OwnerRemains(rows, m) == Some(500) <==>
            exists i, j :: i < j && OtherOwner(rows, m, i) && OtherOwner(rows, m, j)
    ensures OwnerRemains(rows, m) in {None, Some(409), Some(500)}
  {
    var others := ActiveOwners(rows) - {m};
    assert forall i :: i in others <==> OtherOwner(rows, m, i);
    if i :| i in others {
      if others != {i} {
        assert others - {i} != {};
        var j :| j in others - {i};
        Bigger({i, j}, others);
        var first, second := if i < j then i else j, if i < j then j else i;
        assert OtherOwner(rows, m, first) && OtherOwner(rows, m, second);
      }
    }
  }

  lemma {:induction false} Bigger(a: set<nat>, b: set<nat>)
    requires a <= b
    ensures |a| <= |b|
  {
    assert b == a + (b - a);
  }

  function AddRefusal(rows: seq<Row>, users: Users, actor: User, user: User, role: Role): Refusal {
    if !Manages(rows, users, actor) then Some(403)
    else if role == Owner then Some(422)
    else if user !in users.known then Some(404)
    else if user !in users.active then Some(409)
    else if MembershipOf(rows, user) < |rows| then Some(409)
    else None
  }

  /** The changes of an owner row that require another owner to remain. */
  predicate Demotes(role: Option<Role>, status: Option<Status>) {
    role == Some(Admin) || role == Some(Member) || status == Some(Suspended) || status == Some(Removed)
  }

  function UpdateRefusal(rows: seq<Row>, users: Users, actor: User, m: nat, role: Option<Role>,
                         status: Option<Status>): Refusal {
    if !Manages(rows, users, actor) then Some(403)
    else if m >= |rows| then Some(404)
    else if role == Some(Owner) then Some(422)
    else if rows[m].role == Owner && rows[MembershipOf(rows, actor)].role != Owner then Some(403)
    else if rows[m].role == Owner && Demotes(role, status) then OwnerRemains(rows, m)
    else None
  }

  function RemoveRefusal(rows: seq<Row>, users: Users, actor: User, m: nat): Refusal {
    if !Manages(rows, users, actor) then Some(403)
    else if m >= |rows| then Some(404)
    else if rows[m].role == Owner && rows[MembershipOf(rows, actor)].role != Owner then Some(403)
    else if rows[m].role == Owner then OwnerRemains(rows, m)
    else None
  }

  function TransferRefusal(o: Org, users: Users, actor: User, target: nat): Refusal {
    if o.suspended || !ActiveMember(o.rows, users, actor) || o.rows[MembershipOf(o.rows, actor)].role != Owner
       then Some(403)
    else if target >= |o.rows| then Some(404)
    else if o.rows[target].status != Active then Some(409)
    else if ActiveOwners(o.rows) != {MembershipOf(o.rows, actor)} then Some(409)
    else None
  }

  // ---------------------------------------------------------------- steps

  datatype Step =
    | Add(actor: User, user: User, granted: Role)
    | Update(actor: User, m: nat, role: Option<Role>, status: Option<Status>)
    | Remove(actor: User, m: nat)
    | Transfer(actor: User, target: nat)
    | Suspend(actor: User, suspended: bool)

  function RefusalOf(o: Org, users: Users, step: Step): Refusal {
    match step
    case Add(actor, user, role) => AddRefusal(o.rows, users, actor, user, role)
    case Update(actor, m, role, status) => UpdateRefusal(o.rows, users, actor, m, role, status)
    case Remove(actor, m) => RemoveRefusal(o.rows, users, actor, m)
    case Transfer(actor, target) => TransferRefusal(o, users, actor, target)
    case Suspend(actor, _) => if Manages(o.rows, users, actor) then None else Some(403)
  }

  function Updated(row: Row, role: Option<Role>, status: Option<Status>): Row {
    Row(row.user, if role.Some? then role.value else row.role, if status.Some? then status.value else row.status)
  }

  function Effect(o: Org, users: Users, step: Step): Org
    requires RefusalOf(o, users, step).None?
  {
    match step
    case Add(_, user, role) => o.(rows := o.rows + [Row(user, role, Active)])
    case Update(_, m, role, status) => o.(rows := o.rows[m := Updated(o.rows[m], role, status)])
    case Remove(_, m) => o.(rows := o.rows[m := o.rows[m].(status := Removed)])
    case Transfer(actor, target) =>
      var owner := MembershipOf(o.rows, actor);
      var demoted := o.rows[owner := o.rows[owner].(role := Admin)];
      o.(rows := demoted[target := demoted[target].(role := Owner)])
    case Suspend(_, suspended) => o.(suspended := suspended)
  }

  /** A refused call changes nothing. */
  function Apply(o: Org, users: Users, step: Step): Org {
    if RefusalOf(o, users, step).Some? then o else Effect(o, users, step)
  }

  datatype Event = Event(users: Users, step: Step)

  function Run(o: Org, events: seq<Event>): Org
    decreases |events|
  {
    if events == [] then o else Run(Apply(o, events[0].users, events[0].step), events[1..])
  }

  function Created(owner: User): Org {
    Org(false, [Row(owner, Owner, Active)])
  }

  // ---------------------------------------------------------------- the service

  class Membership {
    const user: User
    var role: Role
    var status: Status

    function View(): Row
      reads this
    {
      Row(user, role, status)
    }

    constructor (user: User, role: Role)
      ensures View() == Row(user, role, Active)
    {
      this.user, this.role, status := user, role, Active;
    }
  }

  class Governance {
    var suspended: bool
    var members: seq<Membership>

    ghost predicate Valid()
      reads this
    {
      forall i, j | 0 <= i < |members| && 0 <= j < |members| && members[i] == members[j] :: i == j
    }

    function Rows(): seq<Row>
      reads this, members
    {
      seq(|members|, i requires 0 <= i < |members| reads this, members => members[i].View())
    }

    ghost function State(): Org
      reads this, members
    {
      Org(suspended, Rows())
    }

    constructor (owner: User)
      ensures Valid() && State() == Created(owner) && fresh(members)
    {
      suspended := false;
      var membership := new Membership(owner, Owner);
      members := [membership];
    }

    method AddMember(users: Users, actor: User, user: User, role: Role) returns (r: Refusal)
      requires Valid()
      modifies this`members
      ensures Valid() && r == RefusalOf(old(State()), users, Add(actor, user, role)) &&
              State() == Apply(old(State()), users, Add(actor, user, role))
    {
      if !Manages(Rows(), users, actor) {
        return Some(403);
      }
      if role == Owner {
        return Some(422);
      }
      if user !in users.known {
        return Some(404);
      }
      if user !in users.active || MembershipOf(Rows(), user) < |members| {
        return Some(409);
      }
      var membership := new Membership(user, role);
      members := members + [membership];
      assert Rows() == old(Rows()) + [Row(user, role, Active)];
      return None;
    }

    /** The checks of `update_member`. */
    method CheckUpdate(users: Users, actor: User, m: nat, role: Option<Role>, status: Option<Status>)
      returns (r: Refusal)
      ensures r == UpdateRefusal(Rows(), users, actor, m, role, status)
    {
      if !Manages(Rows(), users, actor) {
        return Some(403);
      }
      if m >= |members| {
        return Some(404);
      }
      if role == Some(Owner) {
        return Some(422);
      }
      if members[m].role == Owner {
        if members[MembershipOf(Rows(), actor)].role != Owner {
          return Some(403);
        }
        if role == Some(Admin) || role == Some(Member) || status == Some(Suspended) || status == Some(Removed) {
          return OwnerRemains(Rows(), m);
        }
      }
      return None;
    }

    method UpdateMember(users: Users, actor: User, m: nat, role: Option<Role>, status: Option<Status>)
      returns (r: Refusal)
      requires Valid()
      modifies members
      ensures Valid() && r == RefusalOf(old(State()), users, Update(actor, m, role, status))
      ensures State() == Apply(old(State()), users, Update(actor, m, role, status))
    {
      r := CheckUpdate(users, actor, m, role, status);
      if r.Some? {
        return;
      }
      if role.Some? {
        members[m].role := role.value;
      }
      if status.Some? {
        members[m].status := status.value;
      }
      assert Rows() == old(Rows())[m := Updated(old(Rows())[m], role, status)];
    }

    method RemoveMember(users: Users, actor: User, m: nat) returns (r: Refusal)
      requires Valid()
      modifies members
      ensures Valid() && r == RefusalOf(old(State()), users, Remove(actor, m)) &&
              State() == Apply(old(State()), users, Remove(actor, m))
    {
      if !Manages(Rows(), users, actor) {
        return Some(403);
      }
      if m >= |members| {
        return Some(404);
      }
      if members[m].role == Owner {
        if members[MembershipOf(Rows(), actor)].role != Owner {
          return Some(403);
        }
        var refused := OwnerRemains(Rows(), m);
        if refused.Some? {
          return refused;
        }
      }
      members[m].status := Removed;
      assert Rows() == old(Rows())[m := old(Rows())[m].(status := Removed)];
      return None;
    }

    /** The current owner and the target may be the same membership: the second assignment then restores the role. */
    method TransferOwner(users: Users, actor: User, target: nat) returns (r: Refusal)
      requires Valid()
      modifies members
      ensures Valid() && r == RefusalOf(old(State()), users, Transfer(actor, target)) &&
              State() == Apply(old(State()), users, Transfer(actor, target))
    {
      var owner := MembershipOf(Rows(), actor);
      if suspended || !ActiveMember(Rows(), users, actor) || members[owner].role != Owner {
        return Some(403);
      }
      if target >= |members| {
        return Some(404);
      }
      if members[target].status != Active {
        return Some(409);
      }
      var owners := set i | 0 <= i < |members| && members[i].role == Owner && members[i].status == Active;
      assert owners == ActiveOwners(Rows());
      if owners != {owner} {
        return Some(409);
      }
      members[owner].role := Admin;
      members[target].role := Owner;
      assert Rows() == Effect(old(State()), users, Transfer(actor, target)).rows;
      return None;
    }

    method SetSuspended(users: Users, actor: User, suspended: bool) returns (r: Refusal)
      requires Valid()
      modifies this`suspended
      ensures Valid() && r == RefusalOf(old(State()), users, Suspend(actor, suspended)) &&
              State() == Apply(old(State()), users, Suspend(actor, suspended))
    {
      if !Manages(Rows(), users, actor) {
        return Some(403);
      }
      this.suspended := suspended;
      return None;
    }
  }

  // ---------------------------------------------------------------- exactly one owner

  /** Membership `w` is active and the only one with the owner role. */
  predicate OwnedBy(o: Org, w: nat) {
    w < |o.rows| && o.rows[w].status == Active && forall i | 0 <= i < |o.rows| :: o.rows[i].role == Owner <==> i == w
  }

  /** The one successful call that leaves the owner inactive: the owner sets its own status to invited. */
  predicate InvitesOwner(o: Org, users: Users, step: Step, w: nat) {
    step.Update? && step.m == w && step.role.None? && step.status == Some(Invited) &&
    step.actor in users.active && MembershipOf(o.rows, step.actor) == w
  }

  /** The owner after a step: the target of a successful transfer, and otherwise the owner before it. */
  function NextOwner(o: Org, users: Users, step: Step, w: nat): nat {
    if step.Transfer? && RefusalOf(o, users, step).None? then step.target else w
  }

  lemma TheOwner(o: Org, w: nat)
    requires OwnedBy(o, w)
    ensures ActiveOwners(o.rows) == {w}
  {
  }

  /**
   One owner stays one owner, and the same one unless it transfers the role, exactly if the step does
   not invite the owner.
   */
  lemma OwnerAfterStep(o: Org, users: Users, step: Step, w: nat)
    requires OwnedBy(o, w)
    ensures OwnedBy(Apply(o, users, step), NextOwner(o, users, step, w)) <==> !InvitesOwner(o, users, step, w)
    ensures step.Transfer? && RefusalOf(o, users, step).None? ==>
            MembershipOf(o.rows, step.actor) == w && o.rows[step.target].status == Active
  {
    TheOwner(o, w);
    assert ActiveOwners(o.rows) - {w} == {};
    if step.Update? && step.role.Some? {
      assert step.role.value.Owner? || step.role.value.Admin? || step.role.value.Member?;
    }
  }

  /** The statuses that the request schema lets through. */
  predicate SchemaAllows(step: Step) {
    step.Update? ==> step.status != Some(Invited)
  }

  predicate AllAllowed(events: seq<Event>) {
    forall i | 0 <= i < |events| :: SchemaAllows(events[i].step)
  }

  lemma {:induction false} OwnerAfterRun(o: Org, events: seq<Event>, w: nat) returns (w': nat)
    requires OwnedBy(o, w) && AllAllowed(events)
    ensures OwnedBy(Run(o, events), w')
    ensures (forall i | 0 <= i < |events| :: !events[i].step.Transfer?) ==> w' == w
    decreases |events|
  {
    w' := w;
    if events != [] {
      assert SchemaAllows(events[0].step);
      OwnerAfterStep(o, events[0].users, events[0].step, w);
      w' := OwnerAfterRun(Apply(o, events[0].users, events[0].step), events[1..],
                          NextOwner(o, events[0].users, events[0].step, w));
    }
  }

  /**
   After any calls that the schema lets through, an organization has exactly one owner, which is active;
   without a transfer it is still the founder.
   */
  lemma {:induction false} OneOwner(founder: User, events: seq<Event>) returns (w: nat)
    requires AllAllowed(events)
    ensures var o := Run(Created(founder), events);
            OwnedBy(o, w) && ((forall i | 0 <= i < |events| :: !events[i].step.Transfer?) ==> w == 0)
  {
    w := OwnerAfterRun(Created(founder), events, 0);
  }

  predicate AgainstOwner(step: Step, w: nat) {
    (step.Remove? && step.m == w) ||
    (step.Update? && step.m == w && step.role != Some(Owner) && Demotes(step.role, step.status))
  }

  /** Demoting, suspending or removing the only owner is refused to everybody, the owner included. */
  lemma OwnerIsFixed(o: Org, users: Users, step: Step, w: nat)
    requires OwnedBy(o, w) && AgainstOwner(step, w)
    ensures Apply(o, users, step) == o
    ensures RefusalOf(o, users, step) ==
            Some(if ActiveMember(o.rows, users, step.actor) && MembershipOf(o.rows, step.actor) == w then 409 else 403)
  {
  }

  /** No user has two memberships, so a user's membership is well defined. */
  predicate DistinctUsers(o: Org) {
    forall i, j | 0 <= i < j < |o.rows| :: o.rows[i].user != o.rows[j].user
  }

  lemma StepKeepsDistinct(o: Org, users: Users, step: Step)
    requires DistinctUsers(o)
    ensures DistinctUsers(Apply(o, users, step))
  {
  }

  lemma {:induction false} UsersStayDistinct(o: Org, events: seq<Event>)
    requires DistinctUsers(o)
    ensures DistinctUsers(Run(o, events))
    decreases |events|
  {
    if events != [] {
      StepKeepsDistinct(o, events[0].users, events[0].step);
      UsersStayDistinct(Apply(o, events[0].users, events[0].step), events[1..]);
    }
  }

  // ---------------------------------------------------------------- who may do what

  /** The user is active, and so is a membership of theirs with one of these roles. */
  predicate Holds(o: Org, users: Users, actor: User, roles: set<Role>) {
    actor in users.active &&
    exists i :: 0 <= i < |o.rows| && o.rows[i].user == actor && o.rows[i].status == Active && o.rows[i].role in roles
  }

  lemma HoldsMembership(o: Org, users: Users, actor: User, roles: set<Role>)
    requires DistinctUsers(o)
    ensures Holds(o, users, actor, roles) <==>
            ActiveMember(o.rows, users, actor) && o.rows[MembershipOf(o.rows, actor)].role in roles
  {
    var m := MembershipOf(o.rows, actor);
    if i :| 0 <= i < |o.rows| && o.rows[i].user == actor && o.rows[i].status == Active && o.rows[i].role in roles {
      assert m <= i;
    }
  }

  /** Every way to add a member, and what is refused in which order. */
  lemma AddingMembers(o: Org, users: Users, actor: User, user: User, role: Role)
    requires DistinctUsers(o)
    ensures var step := Add(actor, user, role); var refusal := RefusalOf(o, users, step);
            var known := exists i :: 0 <= i < |o.rows| && o.rows[i].user == user;
            (refusal == Some(403) <==> !Holds(o, users, actor, {Owner, Admin})) &&
            (refusal == Some(422) <==> Holds(o, users, actor, {Owner, Admin}) && role == Owner) &&
            (refusal == None <==>
               Holds(o, users, actor, {Owner, Admin}) && role != Owner && user in users.known && user in users.active &&
               !known) &&
            (refusal == Some(404) ==> user !in users.known) &&
            (refusal == Some(409) ==> user in users.known && (user !in users.active || known)) &&
            refusal in {None, Some(403), Some(404), Some(409), Some(422)} &&
            Apply(o, users, step) == if refusal.None? then o.(rows := o.rows + [Row(user, role, Active)]) else o
  {
    HoldsMembership(o, users, actor, {Owner, Admin});
    if i :| 0 <= i < |o.rows| && o.rows[i].user == user {
      assert MembershipOf(o.rows, user) <= i;
    }
  }

  /**
   Changing and removing members: managers may, but only the owner may touch the owner, and nobody can make
   an owner this way. With one owner, a member that is not it can be changed by every manager.
   */
  lemma ChangingMembers(o: Org, users: Users, actor: User, m: nat, role: Option<Role>, status: Option<Status>)
    requires DistinctUsers(o)
    ensures var update, remove := Update(actor, m, role, status), Remove(actor, m);
            var ownerRow := m < |o.rows| && o.rows[m].role == Owner;
            var allowed := Holds(o, users, actor, if ownerRow then {Owner} else {Owner, Admin});
            (RefusalOf(o, users, remove) == Some(403) <==> !allowed) &&
            (RefusalOf(o, users, update) == Some(403) <==>
               !Holds(o, users, actor, {Owner, Admin}) || (!allowed && role != Some(Owner))) &&
            (allowed && m >= |o.rows| ==>
               RefusalOf(o, users, remove) == Some(404) && RefusalOf(o, users, update) == Some(404)) &&
            (Holds(o, users, actor, {Owner, Admin}) && m < |o.rows| && role == Some(Owner) ==>
               RefusalOf(o, users, update) == Some(422)) &&
            (allowed && m < |o.rows| && !ownerRow ==>
               Apply(o, users, remove) == o.(rows := o.rows[m := o.rows[m].(status := Removed)])) &&
            (allowed && m < |o.rows| && !ownerRow && role != Some(Owner) ==>
               Apply(o, users, update) ==
                 o.(rows := o.rows[m := Row(o.rows[m].user, if role.Some? then role.value else o.rows[m].role,
                                            if status.Some? then status.value else o.rows[m].status)]))
  {
    HoldsMembership(o, users, actor, {Owner, Admin});
    HoldsMembership(o, users, actor, {Owner});
  }

  /** The role is handed over exactly by its only active holder, in a running organization, to an active member. */
  lemma HandingOver(o: Org, users: Users, actor: User, target: nat)
    requires DistinctUsers(o)
    ensures var step := Transfer(actor, target); var refusal := RefusalOf(o, users, step);
            (refusal == Some(403) <==> o.suspended || !Holds(o, users, actor, {Owner})) &&
            (refusal == Some(404) <==> !o.suspended && Holds(o, users, actor, {Owner}) && target >= |o.rows|) &&
            (refusal == None ==> target < |o.rows| && o.rows[target].status == Active) &&
            (forall w: nat | OwnedBy(o, w) && Holds(o, users, actor, {Owner}) && !o.suspended && target < |o.rows| &&
               o.rows[target].status == Active ::
               refusal == None &&
               Apply(o, users, step) ==
                 o.(rows := if target == w then o.rows
                            else o.rows[w := o.rows[w].(role := Admin)][target := o.rows[target].(role := Owner)]))
  {
    HoldsMembership(o, users, actor, {Owner});
    forall w: nat | OwnedBy(o, w) ensures ActiveOwners(o.rows) == {w} {
      TheOwner(o, w);
    }
  }

  /** Only an active owner or administrator suspends the organization or lifts the suspension. */
  lemma Suspending(o: Org, users: Users, actor: User, suspended: bool)
    requires DistinctUsers(o)
    ensures Apply(o, users, Suspend(actor, suspended)) ==
            if Holds(o, users, actor, {Owner, Admin}) then o.(suspended := suspended) else o
    ensures RefusalOf(o, users, Suspend(actor, suspended)) in {None, Some(403)}
  {
    HoldsMembership(o, users, actor, {Owner, Admin});
  }

  // ---------------------------------------------------------------- an organization without an owner stays so

  lemma OwnerlessStep(o: Org, users: Users, step: Step)
    requires ActiveOwners(o.rows) == {}
    ensures ActiveOwners(Apply(o, users, step).rows) == {}
  {
    forall i | 0 <= i < |o.rows| ensures !(o.rows[i].role == Owner && o.rows[i].status == Active) {
      assert i !in ActiveOwners(o.rows);
    }
  }

  /** Once no owner is active, no calls whatsoever bring one back. */
  lemma {:induction false} OwnerlessForever(o: Org, events: seq<Event>)
    requires ActiveOwners(o.rows) == {}
    ensures ActiveOwners(Run(o, events).rows) == {}
    decreases |events|
  {
    if events != [] {
      OwnerlessStep(o, events[0].users, events[0].step);
      OwnerlessForever(Apply(o, events[0].users, events[0].step), events[1..]);
    }
  }

  /**
   The service itself accepts the status that the schema excludes: the owner can then lose the
   organization for good.
   */
  lemma {:induction false} InvitedOwnerIsLost(founder: User, events: seq<Event>)
    ensures var invited :=
            Apply(Created(founder), Users({founder}, {founder}), Update(founder, 0, None, Some(Invited)));
            invited.rows == [Row(founder, Owner, Invited)] && ActiveOwners(Run(invited, events).rows) == {}
  {
    var o := Created(founder);
    assert MembershipOf(o.rows, founder) == 0;
    var invited := Apply(o, Users({founder}, {founder}), Update(founder, 0, None, Some(Invited)));
    assert invited.rows == [Row(founder, Owner, Invited)];
    OwnerlessForever(invited, events);
  }
}
