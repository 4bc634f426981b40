/**
 The life of one alert instance (backend/app/services/integration/alert_lifecycle.py): firing and
 recovery, escalation, the choice of a notification policy, and the cooldown between notifications.

 The row lock on the instance makes each evaluation one atomic step. Times are microseconds.
 */
module AlertLifecycle {
  import opened Wrappers

  const SECOND := 1_000_000

  datatype Operator = Greater | AtLeast | Less | AtMost | Equal | Unequal

  /** `matches` */
  predicate Matches(value: real, operator: Operator, threshold: real) {
    match operator
    case Greater => value > threshold
    case AtLeast => value >= threshold
    case Less => value < threshold
    case AtMost => value <= threshold
    case Equal => value == threshold
    case Unequal => value != threshold
  }

  /** Which operators hold for a value below, at and above the threshold. */
  lemma OperatorsByOrder(value: real, operator: Operator, threshold: real)
    ensures Matches(value, operator, threshold) <==>
            operator in if value < threshold then {Less, AtMost, Unequal}
                        else if value > threshold then {Greater, AtLeast, Unequal}
                        else {AtLeast, AtMost, Equal}
  {
  }

  // ---------------------------------------------------------------- escalation

  datatype Item = Item(after: int, level: Option<int>, severity: Option<string>)

  predicate Sorted(items: seq<Item>) {
    forall i, j | 0 <= i < j < |items| :: items[i].after <= items[j].after
  }

  /** Insertion behind the items that are not after it, as a stable sort does. */
  function Insert(items: seq<Item>, item: Item): (r: seq<Item>)
    ensures multiset(r) == multiset(items) + multiset{item}
  {
    if |items| == 0 || items[|items| - 1].after <= item.after then items + [item]
    else
      assert items == items[..|items| - 1] + [items[|items| - 1]];
      Insert(items[..|items| - 1], item) + [items[|items| - 1]]
  }

  function Sort(items: seq<Item>): (r: seq<Item>)
    ensures multiset(r) == multiset(items)
  {
    if |items| == 0 then []
    else
      assert items == items[..|items| - 1] + [items[|items| - 1]];
      Insert(Sort(items[..|items| - 1]), items[|items| - 1])
  }

  lemma {:induction false} InsertBounded(items: seq<Item>, item: Item, bound: int)
    requires item.after <= bound && forall i | 0 <= i < |items| :: items[i].after <= bound
    ensures forall i | 0 <= i < |Insert(items, item)| :: Insert(items, item)[i].after <= bound
    decreases |items|
  {
    if |items| > 0 && items[|items| - 1].after > item.after {
      InsertBounded(items[..|items| - 1], item, bound);
    }
  }

  lemma {:induction false} InsertSorted(items: seq<Item>, item: Item)
    requires Sorted(items)
    ensures Sorted(Insert(items, item))
    decreases |items|
  {
    if |items| > 0 && items[|items| - 1].after > item.after {
      InsertSorted(items[..|items| - 1], item);
      InsertBounded(items[..|items| - 1], item, items[|items| - 1].after);
    }
  }

  lemma {:induction false} SortSorts(items: seq<Item>)
    ensures Sorted(Sort(items))
    decreases |items|
  {
    if |items| > 0 {
      SortSorts(items[..|items| - 1]);
      InsertSorted(Sort(items[..|items| - 1]), items[|items| - 1]);
    }
  }

  const SEVERITIES: set<string> := {"info", "warning", "critical", "fatal"}

  function Base(severity: string): string {
    if severity in SEVERITIES then severity else "warning"
  }

  function Raise(s: (string, int), item: Item): (string, int) {
    (if item.severity.Some? then item.severity.value else s.0, if item.level.Some? then item.level.value else s.1 + 1)
  }

  /** All of the items applied in turn. */
  function ApplyAll(base: string, items: seq<Item>): (string, int) {
    if |items| == 0 then (base, 0) else Raise(ApplyAll(base, items[..|items| - 1]), items[|items| - 1])
  }

  /** The severity is that of the last item that gives one, and otherwise the base. */
  lemma {:induction false} SeverityOfAll(base: string, items: seq<Item>, n: nat)
    requires n <= |items| && (n > 0 ==> items[n - 1].severity.Some?)
    requires forall i | n <= i < |items| :: items[i].severity.None?
    ensures ApplyAll(base, items).0 == if n > 0 then items[n - 1].severity.value else base
    decreases |items|
  {
    if n < |items| {
      SeverityOfAll(base, items[..|items| - 1], n);
    }
  }

  /** The level is that of the last item that gives one, or zero, and one more for every item after it. */
  lemma {:induction false} LevelOfAll(base: string, items: seq<Item>, n: nat)
    requires n <= |items| && (n > 0 ==> items[n - 1].level.Some?)
    requires forall i | n <= i < |items| :: items[i].level.None?
    ensures ApplyAll(base, items).1 == (if n > 0 then items[n - 1].level.value else 0) + (|items| - n)
    decreases |items|
  {
    if n < |items| {
      LevelOfAll(base, items[..|items| - 1], n);
    }
  }

  /** An unknown base severity counts as a warning. */
  lemma NothingReached(severity: string, count: int, escalation: seq<Item>)
    requires forall i | 0 <= i < |escalation| :: count < escalation[i].after
    ensures Escalated(severity, count, escalation) ==
            (if severity in ["info", "warning", "critical", "fatal"] then severity else "warning", 0)
  {
    var items := Sort(escalation);
    SortSorts(escalation);
    assert forall item | item in multiset(items) :: item in multiset(escalation);
    if items != [] {
      assert items[0] in multiset(items);
      ReachedIsPrefix(items, count, 0);
    }
  }

  /** How many of the first items of a sorted list a count has reached. */
  function Reached(items: seq<Item>, count: int): (n: nat)
    ensures n <= |items|
  {
    if |items| == 0 then 0
    else Reached(items[..|items| - 1], count) + if items[|items| - 1].after <= count then 1 else 0
  }

  /** What one more item does to the reached ones. */
  lemma OneItemMore(items: seq<Item>, k: nat, count: int, base: string)
    requires Sorted(items) && k < |items|
    ensures ApplyAll(base, items[..Reached(items[..k + 1], count)]) ==
            var before := ApplyAll(base, items[..Reached(items[..k], count)]);
            if items[k].after <= count then Raise(before, items[k]) else before
  {
    assert items[..k + 1][..k] == items[..k];
    if items[k].after <= count {
      ReachedAll(items[..k + 1], count);
      ReachedAll(items[..k], count);
    }
  }

  /** `_escalate`: the loop over the sorted items. */
  method Escalate(severity: string, count: int, escalation: seq<Item>) returns (r: (string, int))
    ensures r == Escalated(severity, count, escalation)
  {
    var items := Sort(escalation);
    SortSorts(escalation);
    r := (Base(severity), 0);
    for k := 0 to |items|
      invariant r == ApplyAll(Base(severity), items[..Reached(items[..k], count)])
    {
      OneItemMore(items, k, count, Base(severity));
      if items[k].after <= count {
        r := Raise(r, items[k]);
      }
    }
    assert items[..|items|] == items;
  }

  /** In a sorted list everything up to a reached item is reached. */
  lemma {:induction false} ReachedAll(items: seq<Item>, count: int)
    requires forall i | 0 <= i < |items| :: items[i].after <= count
    ensures Reached(items, count) == |items|
    decreases |items|
  {
    if |items| > 0 {
      ReachedAll(items[..|items| - 1], count);
    }
  }

  /** The severity and the level after so many firings: the reached items, earliest first. */
  function Escalated(severity: string, count: int, escalation: seq<Item>): (string, int) {
    ApplyAll(Base(severity), Sort(escalation)[..Reached(Sort(escalation), count)])
  }

  /** The items that apply are exactly those whose count is reached, and they are the first ones. */
  lemma {:induction false} ReachedIsPrefix(items: seq<Item>, count: int, i: nat)
    requires Sorted(items) && i < |items|
    ensures i < Reached(items, count) <==> items[i].after <= count
    decreases |items|
  {
    var n := |items| - 1;
    if items[n].after <= count {
      ReachedAll(items, count);
    } else if n > 0 {
      ReachedIsPrefix(items[..n], count, if i < n then i else n - 1);
    }
  }

  // ---------------------------------------------------------------- policies

  datatype NotificationPolicy = NotificationPolicy(severity: Option<string>, routingKey: Option<string>,
                                                   cooldownSeconds: int)

  predicate ForSeverity(p: NotificationPolicy, severity: string) {
    p.severity.None? || p.severity == Some(severity)
  }

  function FirstFor(policies: seq<NotificationPolicy>, severity: string, exact: bool,
                    routingKey: string): Option<NotificationPolicy> {
    if |policies| == 0 then None
    else if ForSeverity(policies[0], severity) &&
            (if exact then routingKey != "" && policies[0].routingKey == Some(routingKey)
             else policies[0].routingKey.None? || routingKey == "")
    then Some(policies[0])
    else FirstFor(policies[1..], severity, exact, routingKey)
  }

  /** `_select_policy` among the enabled policies in their order. */
  function SelectPolicy(policies: seq<NotificationPolicy>, severity: string,
                        routingKey: string): Option<NotificationPolicy> {
    var exact := FirstFor(policies, severity, true, routingKey);
    if exact.Some? then exact else FirstFor(policies, severity, false, routingKey)
  }

  /** The first policy for the severity that has the instance's routing key. */
  predicate FirstExact(policies: seq<NotificationPolicy>, severity: string, routingKey: string, k: nat) {
    k < |policies| && policies[k].severity in {None, Some(severity)} && policies[k].routingKey == Some(routingKey) &&
    forall j | 0 <= j < k && policies[j].severity in {None, Some(severity)} ::
      policies[j].routingKey != Some(routingKey)
  }

  /** The first policy for the severity that has no routing key, or any if the instance has none. */
  predicate FirstGeneral(policies: seq<NotificationPolicy>, severity: string, routingKey: string, k: nat) {
    k < |policies| && policies[k].severity in {None, Some(severity)} &&
    (policies[k].routingKey == None || routingKey == "") &&
    forall j | 0 <= j < k && policies[j].severity in {None, Some(severity)} ::
      policies[j].routingKey != None && routingKey != ""
  }

  lemma {:induction false} FirstForIs(policies: seq<NotificationPolicy>, severity: string, routingKey: string, k: nat)
    ensures routingKey != "" && FirstExact(policies, severity, routingKey, k) ==>
              FirstFor(policies, severity, true, routingKey) == Some(policies[k])
    ensures FirstGeneral(policies, severity, routingKey, k) ==>
              FirstFor(policies, severity, false, routingKey) == Some(policies[k])
    decreases |policies|
  {
    if |policies| > 0 && k > 0 {
      FirstForIs(policies[1..], severity, routingKey, k - 1);
    }
  }

  lemma {:induction false} FirstForNone(policies: seq<NotificationPolicy>, severity: string, exact: bool,
                                        routingKey: string)
    requires forall k | 0 <= k < |policies| && policies[k].severity in {None, Some(severity)} ::
               if exact then routingKey == "" || policies[k].routingKey != Some(routingKey)
               else policies[k].routingKey != None && routingKey != ""
    ensures FirstFor(policies, severity, exact, routingKey).None?
    decreases |policies|
  {
    if |policies| > 0 {
      FirstForNone(policies[1..], severity, exact, routingKey);
    }
  }

  /**
   A policy with the instance's own routing key comes before the general ones, whatever their order; within
   each kind the first one counts. There is none exactly if no policy of either kind is for the severity.
   */
  lemma PolicyOrder(policies: seq<NotificationPolicy>, severity: string, routingKey: string, k: nat)
    ensures routingKey != "" && FirstExact(policies, severity, routingKey, k) ==>
              SelectPolicy(policies, severity, routingKey) == Some(policies[k])
    ensures FirstGeneral(policies, severity, routingKey, k) &&
            (routingKey == "" || forall j | 0 <= j < |policies| && policies[j].severity in {None, Some(severity)} ::
                policies[j].routingKey != Some(routingKey)) ==>
              SelectPolicy(policies, severity, routingKey) == Some(policies[k])
    ensures SelectPolicy(policies, severity, routingKey).None? <==>
            forall j | 0 <= j < |policies| && policies[j].severity in {None, Some(severity)} ::
              routingKey != "" && policies[j].routingKey !in {None, Some(routingKey)}
  {
    FirstForIs(policies, severity, routingKey, k);
    if routingKey == "" || forall j | 0 <= j < |policies| && policies[j].severity in {None, Some(severity)} ::
        policies[j].routingKey != Some(routingKey)
    {
      FirstForNone(policies, severity, true, routingKey);
    }
    if forall j | 0 <= j < |policies| && policies[j].severity in {None, Some(severity)} ::
        routingKey != "" && policies[j].routingKey !in {None, Some(routingKey)}
    {
      FirstForNone(policies, severity, false, routingKey);
    }
    FirstForSuits(policies, severity, true, routingKey);
    FirstForSuits(policies, severity, false, routingKey);
  }

  lemma {:induction false} FirstForSuits(policies: seq<NotificationPolicy>, severity: string, exact: bool,
                                         routingKey: string)
    ensures FirstFor(policies, severity, exact, routingKey).Some? ==>
              exists j :: 0 <= j < |policies| && policies[j].severity in {None, Some(severity)} &&
                          (routingKey == "" || policies[j].routingKey in {None, Some(routingKey)})
    ensures FirstFor(policies, severity, false, routingKey).None? ==>
              forall j | 0 <= j < |policies| && policies[j].severity in {None, Some(severity)} ::
                routingKey != "" && policies[j].routingKey != None
    ensures FirstFor(policies, severity, true, routingKey).None? && routingKey != "" ==>
              forall j | 0 <= j < |policies| && policies[j].severity in {None, Some(severity)} ::
                policies[j].routingKey != Some(routingKey)
    decreases |policies|
  {
    if |policies| > 0 {
      FirstForSuits(policies[1..], severity, exact, routingKey);
    }
  }

  // ---------------------------------------------------------------- one evaluation

  datatype AlertState = Firing | Resolved

  datatype Transition = Fires | Recovers

  datatype Instance = Instance(
    state: AlertState,
    severity: string,
    level: int,
    routingKey: string,
    fireCount: nat,
    firstFiredAt: int,
    lastFiredAt: int,
    recoveredAt: Option<int>,
    nextNotificationAt: Option<int>,
    lastValue: real,
    lastTransition: Transition)

  /** What was decided about the notification of a transition. */
  datatype Decision = NoPolicy | Cooldown | Routed(cooldown: nat)

  datatype Entry = Entry(transition: Transition, fireCount: nat, at: int, decision: Decision)

  /** The part of the idempotency key that differs between the transitions of one instance. */
  datatype EventKey = EventKey(transition: Transition, fireCount: nat)

  datatype World = World(instance: Option<Instance>, log: seq<Entry>, published: seq<EventKey>)

  datatype Rule = Rule(severity: string, operator: Operator, threshold: real, escalation: seq<Item>)

  /** `applies` when the rule is enabled and the sample is of its tenant and metric. */
  datatype Evaluation = Evaluation(rule: Rule, applies: bool, value: real, now: int, policies: seq<NotificationPolicy>)

  predicate Matched(e: Evaluation) {
    e.applies && Matches(e.value, e.rule.operator, e.rule.threshold)
  }

  /** The publisher keeps the first event under a key. */
  function Publish(published: seq<EventKey>, key: EventKey): seq<EventKey> {
    if key in published then published else published + [key]
  }

  /** Publishing again under a key changes nothing, and no key is there twice. */
  lemma PublishedOnce(published: seq<EventKey>, key: EventKey)
    requires multiset(published)[key] <= 1
    ensures multiset(Publish(published, key))[key] == 1 && published <= Publish(published, key)
    ensures Publish(Publish(published, key), key) == Publish(published, key)
  {
  }

  function Seconds(s: int): nat {
    if s < 0 then 0 else s * SECOND
  }

  function Decide(i: Instance, severity: string, e: Evaluation, t: Transition): Decision {
    match SelectPolicy(e.policies, severity, i.routingKey)
    case None => NoPolicy
    case Some(policy) =>
      if t == Fires && i.nextNotificationAt.Some? && e.now < i.nextNotificationAt.value then Cooldown
         else Routed(Seconds(policy.cooldownSeconds))
  }

  /** The first routing key that a policy gives stays. */
  function Bound(routingKey: string, policy: Option<NotificationPolicy>): string {
    if routingKey == "" && policy.Some? && policy.value.routingKey.Some? then policy.value.routingKey.value
       else routingKey
  }

  /** `_emit_transition`, for the severity and the level that the escalation gives. */
  function EmitWith(log: seq<Entry>, published: seq<EventKey>, i: Instance, e: Evaluation, t: Transition,
                    severity: string, level: int): World {
    var decision := Decide(i, severity, e, t);
    World(Some(i.(severity := severity,
                  level := level,
                  routingKey := Bound(i.routingKey, SelectPolicy(e.policies, severity, i.routingKey)),
                  nextNotificationAt := if decision.Routed? then Some(e.now + decision.cooldown)
                    else i.nextNotificationAt)),
          log + [Entry(t, i.fireCount, e.now, decision)],
          Publish(published, EventKey(t, i.fireCount)))
  }

  function Emit(log: seq<Entry>, published: seq<EventKey>, i: Instance, e: Evaluation, t: Transition): World {
    var (severity, level) := Escalated(i.severity, i.fireCount, e.rule.escalation);
    EmitWith(log, published, i, e, t, severity, level)
  }

  function FirstFiring(e: Evaluation): Instance {
    Instance(Firing, e.rule.severity, 0, "", 1, e.now, e.now, None, None, e.value, Fires)
  }

  function Fired(i: Instance, e: Evaluation): Instance {
    i.(state := Firing, severity := e.rule.severity, fireCount := i.fireCount + 1, lastFiredAt := e.now,
       lastValue := e.value, lastTransition := Fires)
  }

  function Recovered(i: Instance, e: Evaluation): Instance {
    i.(state := Resolved, recoveredAt := Some(e.now), lastValue := e.value, lastTransition := Recovers)
  }

  /**
   A transition is logged with its decision: without a policy nothing is routed, and a routed one starts a
   cooldown of the policy's seconds, none if they are negative. Otherwise the cooldown goes on.
   */
  lemma EmitDecides(log: seq<Entry>, published: seq<EventKey>, i: Instance, e: Evaluation, t: Transition)
    ensures var w := Emit(log, published, i, e, t);
            var (severity, level) := Escalated(i.severity, i.fireCount, e.rule.escalation);
            var policy := SelectPolicy(e.policies, severity, i.routingKey);
            w.instance.Some? && |w.log| == |log| + 1 &&
            var i', entry := w.instance.value, w.log[|log|];
            (i'.severity, i'.level) == (severity, level) &&
            entry.transition == t && entry.fireCount == i.fireCount && entry.at == e.now &&
            (entry.decision == NoPolicy <==> policy.None?) &&
            i'.nextNotificationAt == (if entry.decision.Routed? then Some(e.now + entry.decision.cooldown)
                                      else i.nextNotificationAt) &&
            (entry.decision.Routed? ==>
               entry.decision.cooldown ==
                 (if 0 <= policy.value.cooldownSeconds then policy.value.cooldownSeconds * SECOND else 0))
  {
  }

  /** `evaluate_rule` */
  function Evaluate(w: World, e: Evaluation): World {
    if !e.applies then w
    else if w.instance.None? then if Matched(e) then Emit(w.log, w.published, FirstFiring(e), e, Fires) else w
    else if Matched(e) then Emit(w.log, w.published, Fired(w.instance.value, e), e, Fires)
    else if w.instance.value.state == Firing then Emit(w.log, w.published, Recovered(w.instance.value, e), e, Recovers)
    else w
  }

  function Run(w: World, es: seq<Evaluation>): World
    decreases |es|
  {
    if es == [] then w else Run(Evaluate(w, es[0]), es[1..])
  }

  function Start(): World {
    World(None, [], [])
  }

  // ---------------------------------------------------------------- the service

  class AlertInstance {
    var state: AlertState
    var severity: string
    var level: int
    var routingKey: string
    var fireCount: nat
    var firstFiredAt: int
    var lastFiredAt: int
    var recoveredAt: Option<int>
    var nextNotificationAt: Option<int>
    var lastValue: real
    var lastTransition: Transition

    function View(): Instance
      reads this
    {
      Instance(state, severity, level, routingKey, fireCount, firstFiredAt, lastFiredAt, recoveredAt,
               nextNotificationAt, lastValue, lastTransition)
    }

    constructor (e: Evaluation)
      ensures View() == FirstFiring(e)
      ensures View() == Instance(Firing, e.rule.severity, 0, "", 1, e.now, e.now, None, None, e.value, Fires)
    {
      state, severity, level, routingKey, fireCount := Firing, e.rule.severity, 0, "", 1;
      firstFiredAt, lastFiredAt, recoveredAt, nextNotificationAt := e.now, e.now, None, None;
      lastValue, lastTransition := e.value, Fires;
    }

    method Fire(e: Evaluation)
      modifies this
      ensures View() == Fired(old(View()), e)
      ensures View() == old(View()).(state := Firing, severity := e.rule.severity, fireCount := old(fireCount) + 1,
                                     lastFiredAt := e.now, lastValue := e.value, lastTransition := Fires)
    {
      state := Firing;
      severity := e.rule.severity;
      fireCount := fireCount + 1;
      lastFiredAt := e.now;
      lastValue := e.value;
      lastTransition := Fires;
    }

    method Recover(e: Evaluation)
      modifies this
      ensures View() == Recovered(old(View()), e)
      ensures View() == old(View()).(state := Resolved, recoveredAt := Some(e.now), lastValue := e.value,
                                     lastTransition := Recovers)
    {
      state := Resolved;
      recoveredAt := Some(e.now);
      lastValue := e.value;
      lastTransition := Recovers;
    }
  }

  class Service {
    var instance: AlertInstance?
    var log: seq<Entry>
    var published: seq<EventKey>

    ghost function State(): World
      reads this, instance
    {
      World(if instance == null then None else Some(instance.View()), log, published)
    }

    constructor ()
      ensures State() == Start()
    {
      instance, log, published := null, [], [];
    }

    method EmitTransition(i: AlertInstance, e: Evaluation, t: Transition)
      requires instance == i
      modifies this`log, this`published, i
      ensures instance == i && State() == Emit(old(log), old(published), old(i.View()), e, t)
    {
      var raised := Escalate(i.severity, i.fireCount, e.rule.escalation);
      i.severity := raised.0;
      i.level := raised.1;
      published := Publish(published, EventKey(t, i.fireCount));
      var policy := SelectPolicy(e.policies, i.severity, i.routingKey);
      if policy.None? {
        log := log + [Entry(t, i.fireCount, e.now, NoPolicy)];
        return;
      }
      if i.routingKey == "" && policy.value.routingKey.Some? {
        i.routingKey := policy.value.routingKey.value;
      }
      if t == Fires && i.nextNotificationAt.Some? && e.now < i.nextNotificationAt.value {
        log := log + [Entry(t, i.fireCount, e.now, Cooldown)];
        return;
      }
      var cooldown := Seconds(policy.value.cooldownSeconds);
      i.nextNotificationAt := Some(e.now + cooldown);
      log := log + [Entry(t, i.fireCount, e.now, Routed(cooldown))];
    }

    method EvaluateRule(e: Evaluation)
      modifies this, instance
      ensures State() == Evaluate(old(State()), e)
    {
      if !e.applies {
        return;
      }
      var matched := Matches(e.value, e.rule.operator, e.rule.threshold);
      if instance == null {
        if matched {
          instance := new AlertInstance(e);
          EmitTransition(instance, e, Fires);
        }
      } else if matched {
        instance.Fire(e);
        EmitTransition(instance, e, Fires);
      } else if instance.state == Firing {
        instance.Recover(e);
        EmitTransition(instance, e, Recovers);
      }
    }
  }

  // ---------------------------------------------------------------- history

  /** How many evaluations match. */
  function MatchCount(es: seq<Evaluation>): nat {
    if es == [] then 0 else (if Matched(es[0]) then 1 else 0) + MatchCount(es[1..])
  }

  function FireCount(w: World): nat {
    if w.instance.None? then 0 else w.instance.value.fireCount
  }

  /** A transition follows another: a firing counts one more, a recovery ends the firing just before it. */
  predicate Linked(a: Entry, b: Entry) {
    match b.transition
    case Fires => b.fireCount == a.fireCount + 1
    case Recovers => a.transition == Fires && b.fireCount == a.fireCount
  }

  predicate Chained(log: seq<Entry>) {
    (log != [] ==> log[0].transition == Fires && log[0].fireCount == 1) && forall j | 0 <= j < |log| - 1 ::
      Linked(log[j], log[j + 1])
  }

  function KeyOf(e: Entry): EventKey {
    EventKey(e.transition, e.fireCount)
  }

  /** The earliest time at which the cooldown allows a firing to be routed. */
  function NextAllowed(log: seq<Entry>): Option<int> {
    if |log| == 0 then None
    else if log[|log| - 1].decision.Routed? then Some(log[|log| - 1].at + log[|log| - 1].decision.cooldown)
    else NextAllowed(log[..|log| - 1])
  }

  predicate TooEarly(log: seq<Entry>, at: int) {
    NextAllowed(log).Some? && at < NextAllowed(log).value
  }

  /** A firing is suppressed exactly when it has a policy and comes before the cooldown is over; a recovery never is. */
  predicate Respects(log: seq<Entry>, e: Entry) {
    (e.decision == Cooldown ==> e.transition == Fires && TooEarly(log, e.at)) &&
    (e.decision.Routed? && e.transition == Fires ==> !TooEarly(log, e.at))
  }

  predicate CooldownKept(log: seq<Entry>) {
    forall j | 0 <= j < |log| :: Respects(log[..j], log[j])
  }

  predicate Last(w: World) {
    match w.instance
    case None => w.log == []
    case Some(i) =>
      w.log != [] && w.log[|w.log| - 1].fireCount == i.fireCount && i.lastTransition == w.log[|w.log| - 1].transition &&
      (i.state == Firing <==> i.lastTransition == Fires) && i.nextNotificationAt == NextAllowed(w.log)
  }

  predicate Inv(w: World) {
    Last(w) && Chained(w.log) && CooldownKept(w.log) && w.published == Keys(w.log)
  }

  function Keys(log: seq<Entry>): (r: seq<EventKey>)
    ensures |r| == |log| && forall j | 0 <= j < |log| :: r[j] == KeyOf(log[j])
  {
    if |log| == 0 then [] else Keys(log[..|log| - 1]) + [KeyOf(log[|log| - 1])]
  }

  lemma {:induction false} CountsGrow(log: seq<Entry>, i: nat, j: nat)
    requires Chained(log) && i <= j < |log|
    ensures log[i].fireCount <= log[j].fireCount
    ensures i < j && log[i].fireCount == log[j].fireCount ==>
            log[i].transition == Fires && log[j].transition == Recovers
    decreases j
  {
    if i < j {
      CountsGrow(log, i, j - 1);
      assert Linked(log[j - 1], log[j - 1 + 1]);
    }
  }

  lemma NewKey(log: seq<Entry>, e: Entry)
    requires Chained(log + [e])
    ensures KeyOf(e) !in Keys(log)
  {
    var all := log + [e];
    forall j | 0 <= j < |log| ensures Keys(log)[j] != KeyOf(e) {
      CountsGrow(all, j, |log|);
      assert all[j] == log[j];
    }
  }

  lemma ChainGrows(log: seq<Entry>, e: Entry)
    requires Chained(log) && if log == [] then e.transition == Fires && e.fireCount == 1 else Linked(log[|log| - 1], e)
    ensures Chained(log + [e])
  {
  }

  lemma CooldownGrows(log: seq<Entry>, e: Entry)
    requires CooldownKept(log) && Respects(log, e)
    ensures CooldownKept(log + [e])
  {
    var all := log + [e];
    assert all[..|log|] == log;
    forall j | 0 <= j < |log| ensures Respects(all[..j], all[j]) {
      assert all[..j] == log[..j] && all[j] == log[j];
      assert Respects(log[..j], log[j]);
    }
  }

  lemma KeysGrow(log: seq<Entry>, e: Entry)
    requires Chained(log + [e])
    ensures Keys(log + [e]) == Publish(Keys(log), KeyOf(e))
    ensures NextAllowed(log + [e]) == if e.decision.Routed? then Some(e.at + e.decision.cooldown) else NextAllowed(log)
  {
    assert (log + [e])[..|log|] == log;
    NewKey(log, e);
  }

  /** The instance has been updated for the transition that is about to be emitted. */
  predicate Ready(w: World, i: Instance, t: Transition) {
    Chained(w.log) && CooldownKept(w.log) && w.published == Keys(w.log) && i.nextNotificationAt == NextAllowed(w.log) &&
    (if w.log == [] then t == Fires && i.fireCount == 1
     else if t == Fires then i.fireCount == w.log[|w.log| - 1].fireCount + 1
     else w.log[|w.log| - 1].transition == Fires && i.fireCount == w.log[|w.log| - 1].fireCount) &&
    (i.state == Firing <==> t == Fires) && i.lastTransition == t
  }

  lemma DecisionRespects(log: seq<Entry>, i: Instance, e: Evaluation, t: Transition, severity: string)
    requires i.nextNotificationAt == NextAllowed(log)
    ensures Respects(log, Entry(t, i.fireCount, e.now, Decide(i, severity, e, t)))
  {
  }

  lemma LogKeeps(w: World, i: Instance, entry: Entry)
    requires Ready(w, i, entry.transition) && entry.fireCount == i.fireCount && Respects(w.log, entry)
    ensures var log := w.log + [entry];
            Chained(log) && CooldownKept(log) && Publish(w.published, KeyOf(entry)) == Keys(log) &&
            NextAllowed(log) == if entry.decision.Routed? then Some(entry.at + entry.decision.cooldown)
                                else i.nextNotificationAt
  {
    ChainGrows(w.log, entry);
    CooldownGrows(w.log, entry);
    KeysGrow(w.log, entry);
  }

  lemma EmitKeeps(w: World, i: Instance, e: Evaluation, t: Transition, severity: string, level: int)
    requires Ready(w, i, t)
    ensures Inv(EmitWith(w.log, w.published, i, e, t, severity, level))
  {
    var entry := Entry(t, i.fireCount, e.now, Decide(i, severity, e, t));
    DecisionRespects(w.log, i, e, t, severity);
    LogKeeps(w, i, entry);
  }

  lemma EmitsWell(w: World, i: Instance, e: Evaluation, t: Transition)
    requires Ready(w, i, t)
    ensures Inv(Emit(w.log, w.published, i, e, t)) && FireCount(Emit(w.log, w.published, i, e, t)) == i.fireCount
  {
    var (severity, level) := Escalated(i.severity, i.fireCount, e.rule.escalation);
    EmitKeeps(w, i, e, t, severity, level);
  }

  lemma StepKeeps(w: World, e: Evaluation)
    requires Inv(w)
    ensures Inv(Evaluate(w, e)) && FireCount(Evaluate(w, e)) == FireCount(w) + if Matched(e) then 1 else 0
  {
    if e.applies {
      if w.instance.None? {
        if Matched(e) {
          EmitsWell(w, FirstFiring(e), e, Fires);
        }
      } else if Matched(e) {
        EmitsWell(w, Fired(w.instance.value, e), e, Fires);
      } else if w.instance.value.state == Firing {
        EmitsWell(w, Recovered(w.instance.value, e), e, Recovers);
      }
    }
  }

  lemma {:induction false} RunKeeps(w: World, es: seq<Evaluation>)
    requires Inv(w)
    ensures Inv(Run(w, es)) && FireCount(Run(w, es)) == FireCount(w) + MatchCount(es)
    decreases |es|
  {
    if es != [] {
      StepKeeps(w, es[0]);
      RunKeeps(Evaluate(w, es[0]), es[1..]);
    }
  }

  /**
   Over any evaluations, with any changes of the rule and the policies between them, the fire count is
   the number of those that matched, and the publisher swallows none of the transitions.
   */
  lemma FireCountIsMatchCount(es: seq<Evaluation>)
    ensures var w := Run(Start(), es); FireCount(w) == MatchCount(es) && w.published == Keys(w.log)
  {
    RunKeeps(Start(), es);
  }

  /**
   No idempotency key is used twice, a recovery comes only right after a firing and keeps its count,
   and a firing counts one more than the transition before it.
   */
  lemma TransitionHistory(es: seq<Evaluation>, i: nat, j: nat)
    requires i < j < |Run(Start(), es).log|
    ensures var log := Run(Start(), es).log;
            KeyOf(log[i]) != KeyOf(log[j]) && log[0].transition == Fires && Linked(log[j - 1], log[j])
  {
    RunKeeps(Start(), es);
    var log := Run(Start(), es).log;
    CountsGrow(log, i, j);
    assert Linked(log[j - 1], log[j - 1 + 1]);
  }

  lemma {:induction false} LastRouted(log: seq<Entry>, i: nat)
    requires i < |log| && log[i].decision.Routed? && forall k | i < k < |log| :: !log[k].decision.Routed?
    ensures NextAllowed(log) == Some(log[i].at + log[i].decision.cooldown)
    decreases |log|
  {
    if i < |log| - 1 {
      LastRouted(log[..|log| - 1], i);
    }
  }

  /**
   A firing with a policy is routed exactly if the cooldown after the last routed transition, whichever
   policy routed it, is over; otherwise it is suppressed. A recovery is never held back.
   */
  lemma CooldownBetweenRoutes(es: seq<Evaluation>, i: nat, j: nat)
    requires var log := Run(Start(), es).log;
             i < j < |log| && log[i].decision.Routed? && (forall k | i < k < j :: !log[k].decision.Routed?) &&
             log[j].decision != NoPolicy
    ensures var log := Run(Start(), es).log;
            log[j].decision == Cooldown <==>
              log[j].transition == Fires && log[j].at < log[i].at + log[i].decision.cooldown
  {
    RunKeeps(Start(), es);
    LastRouted(Run(Start(), es).log[..j], i);
  }

  /**
   An evaluation that applies leaves the alert firing exactly if it matches, and creates no alert unless it
   does; one that does not apply changes nothing. Every transition stores the value that caused it.
   */
  lemma FiringIffMatched(es: seq<Evaluation>, e: Evaluation)
    ensures var w := Run(Start(), es); var w' := Evaluate(w, e);
            var matches := Matches(e.value, e.rule.operator, e.rule.threshold);
            (!e.applies ==> w' == w) &&
            (e.applies && w'.instance.Some? ==> (w'.instance.value.state == Firing <==> matches)) &&
            (e.applies ==> (w'.instance.None? <==> w.instance.None? && !matches)) &&
            (|w'.log| != |w.log| ==>
               w'.instance.Some? && w'.instance.value.lastValue == e.value && w'.log[|w.log|].at == e.now &&
               if matches then w'.instance.value.lastFiredAt == e.now
               else w'.instance.value.recoveredAt == Some(e.now))
  {
  }

  /**
   The first policy that gives a routing key binds it: an alert without one takes that of the policy
   selected for its transition.
   */
  lemma RoutingKeyBinds(w: World, e: Evaluation)
    requires w.instance.Some? && w.instance.value.routingKey == ""
    ensures var i := Evaluate(w, e).instance.value;
            |Evaluate(w, e).log| != |w.log| ==>
              var policy := SelectPolicy(e.policies, i.severity, "");
              i.routingKey == if policy.Some? && policy.value.routingKey.Some? then policy.value.routingKey.value
                              else ""
  {
  }

  /** Once a policy has bound a routing key to the instance, no later policy changes it. */
  lemma {:induction false} RoutingKeySticks(w: World, es: seq<Evaluation>)
    requires w.instance.Some? && w.instance.value.routingKey != ""
    ensures Run(w, es).instance.Some? && Run(w, es).instance.value.routingKey == w.instance.value.routingKey
    decreases |es|
  {
    if es != [] {
      RoutingKeySticks(Evaluate(w, es[0]), es[1..]);
    }
  }
}
