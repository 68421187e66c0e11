/** How notifications of single subscription keys are collected and delivered in batches. */
module Notifications {
  import opened Basics
  import opened Subscription

  type Name = string

  // ---------------------------------------------------------------- the batches, as values

  type Batch = map<Name, set<SubscriptionKey>>

  /** `Deliver` is a firing of the notification timer, `StopListening` the end of the server. */
  datatype Happening = Notify(name: Name, keys: set<SubscriptionKey>) | Deliver | StopListening

  datatype Collector = Collector(pending: Batch, armed: bool)

  function Collect(c: Collector, e: Happening): Collector {
    match e
    case Notify(name, keys) =>
      Collector(c.pending[name := if name in c.pending then c.pending[name] + keys else keys], true)
    case Deliver => Collector(map[], false)
    case StopListening => Collector(map[], false)
  }

  function Collected(es: seq<Happening>): Collector {
    if es == [] then Collector(map[], false) else Collect(Collected(es[..|es| - 1]), es[|es| - 1])
  }

  /** The place after the last happening that emptied the map. */
  function Since(es: seq<Happening>): (n: nat)
    ensures n <= |es|
  {
    if es == [] then 0 else if es[|es| - 1].Notify? then Since(es[..|es| - 1]) else |es|
  }

  lemma {:induction false} SinceLastFlush(es: seq<Happening>)
    ensures forall i | Since(es) <= i < |es| :: es[i].Notify?
    ensures Since(es) > 0 ==> !es[Since(es) - 1].Notify?
  {
    if es != [] && es[|es| - 1].Notify? {
      var before := es[..|es| - 1];
      SinceLastFlush(before);
      assert forall i | 0 <= i < |before| :: before[i] == es[i];
    }
  }

  ghost predicate NotifiedName(es: seq<Happening>, from: nat, name: Name) {
    exists i :: from <= i < |es| && es[i].Notify? && es[i].name == name
  }

  ghost predicate NotifiedKey(es: seq<Happening>, from: nat, name: Name, key: SubscriptionKey) {
    exists i :: from <= i < |es| && es[i].Notify? && es[i].name == name && key in es[i].keys
  }

  lemma NotifiedMore(es: seq<Happening>, from: nat, e: Happening)
    requires from <= |es|
    ensures forall name :: NotifiedName(es + [e], from, name) <==> NotifiedName(es, from, name) || (e.Notify? && e.name == name)
    ensures forall name, key :: NotifiedKey(es + [e], from, name, key)
                                <==> NotifiedKey(es, from, name, key) || (e.Notify? && e.name == name && key in e.keys)
  {
    var more := es + [e];
    assert more[|es|] == e;
    assert forall i | 0 <= i < |es| :: more[i] == es[i];
  }

  /**
    What is pending are the names notified since the map was last emptied, each with exactly the union
    of the keys notified for it; and the timer is armed iff there is anything.
   */
  lemma {:induction false} PendingIsUnion(es: seq<Happening>)
    ensures forall name :: name in Collected(es).pending <==> NotifiedName(es, Since(es), name)
    ensures forall name, key | name in Collected(es).pending ::
      key in Collected(es).pending[name] <==> NotifiedKey(es, Since(es), name, key)
    ensures Collected(es).armed <==> Collected(es).pending != map[]
  {
    if es != [] {
      var before, e := es[..|es| - 1], es[|es| - 1];
      assert es == before + [e];
      PendingIsUnion(before);
      if e.Notify? {
        NotifiedMore(before, Since(before), e);
        assert e.name in Collected(es).pending;
        forall name, key | name !in Collected(before).pending
          ensures !NotifiedKey(before, Since(before), name, key)
        {
          assert NotifiedKey(before, Since(before), name, key) ==> NotifiedName(before, Since(before), name);
        }
      }
    }
  }

  /** The batch that the timer firing at place `d` delivers. */
  function BatchAt(es: seq<Happening>, d: nat): Batch
    requires d < |es| && es[d].Deliver?
  {
    Collected(es[..d]).pending
  }

  /** A notification is delivered by the first firing after it, unless the server stops before; and by no other. */
  lemma DeliveredOnce(es: seq<Happening>, i: nat, d: nat)
    requires i < d < |es| && es[i].Notify? && es[d].Deliver?
    ensures Since(es[..d]) <= i <==> forall k | i < k < d :: es[k].Notify?
    ensures (forall k | i < k < d :: es[k].Notify?) ==>
      es[i].name in BatchAt(es, d) && es[i].keys <= BatchAt(es, d)[es[i].name]
  {
    var upTo := es[..d];
    SinceLastFlush(upTo);
    PendingIsUnion(upTo);
    assert forall k | 0 <= k < d :: upTo[k] == es[k];
    if Since(upTo) <= i {
      assert NotifiedName(upTo, Since(upTo), es[i].name);
      assert forall key | key in es[i].keys :: NotifiedKey(upTo, Since(upTo), es[i].name, key);
    }
  }

  /**
    A subscription registered under `name` that is not stopped takes the result of a batch exactly when
    its own key was notified for that name since the previous batch.
   */
  lemma AcceptsIffNotified(es: seq<Happening>, d: nat, name: Name, s: Sub, delay: nat)
    requires d < |es| && es[d].Deliver? && name in BatchAt(es, d)
    ensures Accept(s, BatchAt(es, d)[name], delay).h.accepted == s.h.accepted + 1
            <==> !s.stopped && s.key.Some? && NotifiedKey(es[..d], Since(es[..d]), name, s.key.value)
    ensures Accept(s, BatchAt(es, d)[name], delay).h.accepted != s.h.accepted + 1 ==> Accept(s, BatchAt(es, d)[name], delay) == s
  {
    PendingIsUnion(es[..d]);
  }

  /** A name that is not in the batch is not delivered at all, and then none of its keys was notified. */
  lemma NotInBatch(es: seq<Happening>, d: nat, name: Name, key: SubscriptionKey)
    requires d < |es| && es[d].Deliver? && name !in BatchAt(es, d)
    ensures !NotifiedKey(es[..d], Since(es[..d]), name, key)
  {
    PendingIsUnion(es[..d]);
    assert NotifiedKey(es[..d], Since(es[..d]), name, key) ==> NotifiedName(es[..d], Since(es[..d]), name);
  }

  /**
    From a notification to the client: the first firing after it delivers its batch, a subscription with the
    notified key accepts the result, and at every later moment at which it is not stopped that result or a
    newer one is dispatched already, or is after at most three delivery events.
   */
  lemma NotificationIsDispatched(hs: seq<Happening>, i: nat, d: nat, rq: Request, ss: seq<Sub>, es: seq<Event>, a: nat, n: nat,
                                 delay: nat) returns (ts: seq<Sub>, fs: seq<Event>)
    requires i < d < |hs| && hs[i].Notify? && hs[d].Deliver? && forall k | i < k < d :: hs[k].Notify?
    requires IsRun(rq, ss, es) && a < n < |ss| && !ss[n].stopped
    requires ss[a].key.Some? && ss[a].key.value in hs[i].keys
    requires hs[i].name in BatchAt(hs, d) ==> es[a] == OnFuture(BatchAt(hs, d)[hs[i].name], delay)
    ensures hs[i].name in BatchAt(hs, d) && ss[a + 1].h.accepted == ss[a].h.accepted + 1
    ensures Steps(rq, ts, fs) && ts[0] == ss[n] && |fs| <= 3 && forall k | 0 <= k < |fs| :: OfDelivery(fs[k])
    ensures Dispatched(ts[|fs|], ss[a].h.accepted)
  {
    hide Inv, Enabled, Dispatched, Since, Started;
    DeliveredOnce(hs, i, d);
    AcceptedGrowsInRun(rq, ss, es, a, n);
    AcceptedGrowsInRun(rq, ss, es, a + 1, n);
    RunInv(rq, ss, es, n);
    ts, fs := AcceptedIsDispatched(rq, ss[n], ss[a].h.accepted);
  }

  // ---------------------------------------------------------------- the objects

  class GraphQLNotifyTriggers {
    const subscriptionName: Name
    var subscriptionKeys: set<SubscriptionKey>

    constructor (name: Name, keys: set<SubscriptionKey>)
      ensures subscriptionName == name && subscriptionKeys == keys
    {
      subscriptionName, subscriptionKeys := name, keys;
    }

    /** Keys are moved over; those that are here already stay in `other`. */
    method Merge(other: GraphQLNotifyTriggers)
      requires other != this
      modifies this`subscriptionKeys, other`subscriptionKeys
      ensures subscriptionKeys == old(subscriptionKeys + other.subscriptionKeys)
      ensures other.subscriptionKeys == old(subscriptionKeys * other.subscriptionKeys)
    {
      var rest := other.subscriptionKeys;
      while rest != {}
        invariant rest <= old(other.subscriptionKeys)
        invariant subscriptionKeys == old(subscriptionKeys) + (old(other.subscriptionKeys) - rest)
        invariant other.subscriptionKeys == rest + (old(other.subscriptionKeys) - rest) * old(subscriptionKeys)
      {
        var key :| key in rest;
        rest := rest - {key};
        if key !in subscriptionKeys {
          subscriptionKeys := subscriptionKeys + {key};
          other.subscriptionKeys := other.subscriptionKeys - {key};
        }
      }
    }

    predicate HasSubscriptionKey(key: SubscriptionKey)
      reads this
    {
      key in subscriptionKeys
    }
  }

  /** One subscription known to the schema. */
  datatype Registration = Registration(name: Name, key: SubscriptionKey)

  class GraphQLServer {
    var pendingNotifyTriggers: map<Name, GraphQLNotifyTriggers>
    var notifyTimer: bool
    var currentNotificationTrigger: GraphQLNotifyTriggers?

    ghost predicate Valid()
      reads this, pendingNotifyTriggers.Values
    {
      && (forall name | name in pendingNotifyTriggers :: pendingNotifyTriggers[name].subscriptionName == name)
      && currentNotificationTrigger == null
      && (notifyTimer <==> pendingNotifyTriggers != map[])
    }

    ghost function State(): Collector
      reads this, pendingNotifyTriggers.Values
    {
      Collector(map name | name in pendingNotifyTriggers :: pendingNotifyTriggers[name].subscriptionKeys, notifyTimer)
    }

    constructor ()
      ensures Valid() && State() == Collected([])
    {
      pendingNotifyTriggers, notifyTimer, currentNotificationTrigger := map[], false, null;
    }

    /** The triggers object is held by nobody else. */
    method NotifyInMainThread(otherTriggers: GraphQLNotifyTriggers)
      requires Valid() && otherTriggers !in pendingNotifyTriggers.Values
      modifies this, pendingNotifyTriggers.Values, otherTriggers
      ensures Valid()
      ensures State() == Collect(old(State()), Notify(otherTriggers.subscriptionName, old(otherTriggers.subscriptionKeys)))
    {
      var name := otherTriggers.subscriptionName;
      if name in pendingNotifyTriggers {
        var existingTriggers := pendingNotifyTriggers[name];
        existingTriggers.Merge(otherTriggers);
      } else {
        pendingNotifyTriggers := pendingNotifyTriggers[name := otherTriggers];
      }
      if notifyTimer {
        return;
      }
      notifyTimer := true;
    }

    /**
      Calls the schema once per pending name; each subscription registered under that name asks for the
      current triggers and takes the result iff they have its key.
     */
    method DeliverNotifications(registered: set<Registration>) returns (delivered: seq<Name>, accepted: set<Registration>)
      requires Valid()
      modifies this
      ensures Valid() && State() == Collect(old(State()), Deliver)
      ensures forall i, j | 0 <= i < j < |delivered| :: delivered[i] != delivered[j]
      ensures forall name :: name in delivered <==> name in old(State().pending)
      ensures forall r :: r in accepted <==>
        r in registered && r.name in old(State().pending) && r.key in old(State().pending)[r.name]
    {
      notifyTimer := false;
      var triggers := pendingNotifyTriggers;
      pendingNotifyTriggers := map[];
      delivered, accepted := [], {};
      var names := triggers.Keys;
      while names != {}
        invariant names <= triggers.Keys && pendingNotifyTriggers == map[] && !notifyTimer
        invariant forall i, j | 0 <= i < j < |delivered| :: delivered[i] != delivered[j]
        invariant forall name :: name in delivered <==> name in triggers && name !in names
        invariant forall name | name in triggers :: triggers[name].subscriptionKeys == old(triggers[name].subscriptionKeys)
        invariant forall r :: r in accepted <==>
          r in registered && r.name in triggers && r.name !in names && r.key in triggers[r.name].subscriptionKeys
      {
        var name :| name in names;
        names := names - {name};
        currentNotificationTrigger := triggers[name];
        delivered := delivered + [name];
        var acceptedNow := Ask(name, registered);
        accepted := accepted + acceptedNow;
      }
      currentNotificationTrigger := null;
    }

    /** Fails outside of a notification. */
    method CurrentNotificationTriggers() returns (r: Option<GraphQLNotifyTriggers>)
      ensures r.None? <==> currentNotificationTrigger == null
      ensures r.Some? ==> r.value == currentNotificationTrigger
    {
      if currentNotificationTrigger == null {
        return None;
      }
      return Some(currentNotificationTrigger);
    }

    /** `deliver(name)` of the schema calls every subscription registered under the name. */
    method Ask(name: Name, registered: set<Registration>) returns (accepted: set<Registration>)
      requires currentNotificationTrigger != null
      ensures forall r :: r in accepted <==>
        r in registered && r.name == name && r.key in currentNotificationTrigger.subscriptionKeys
    {
      accepted := {};
      var rest := registered;
      while rest != {}
        invariant rest <= registered
        invariant forall r :: r in accepted <==>
          r in registered && r !in rest && r.name == name && r.key in currentNotificationTrigger.subscriptionKeys
      {
        var r :| r in rest;
        rest := rest - {r};
        if r.name == name {
          var triggers := CurrentNotificationTriggers();
          if triggers.value.HasSubscriptionKey(r.key) {
            accepted := accepted + {r};
          }
        }
      }
    }

    /** The end of `stopListening`. */
    method DropNotifications()
      requires Valid()
      modifies this
      ensures Valid() && State() == Collect(old(State()), StopListening)
      ensures pendingNotifyTriggers == map[] && !notifyTimer
    {
      if notifyTimer {
        notifyTimer := false;
      }
      pendingNotifyTriggers := map[];
    }
  }
}
