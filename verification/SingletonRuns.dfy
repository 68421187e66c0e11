/**
  The storage as a transition system: what every call does to the ownership graph and to the map of
  children, and what holds over whole runs.
 */
module SingletonRuns {
  import opened Basics
  import opened SingletonGraph
  import opened SingletonCollection

  type Address = nat
  type Ownership = Graph<Address, Address, Address>

  /** Addresses are handed out in order and never again, so an address names one object for good. */
  datatype World = World(g: Ownership, children: map<Key, Address>, next: Address)

  datatype Action =
    | Get(key: Key, rank: nat)
    | Copy(r: Address)
    | Move(r: Address)
    | Drop(r: Address)
    | Finish(o: Address, members: set<Address>)
    | Pin(v: Address)
    | Unpin(v: Address)
    | Collect
    | Clear

  // ---------------------------------------------------------------- the effect of a call

  /** Each child is the live attached singleton of its key. */
  ghost predicate Listed(g: Ownership, children: map<Key, Address>) {
    forall k | k in children :: children[k] in g.objs && g.objs[children[k]].attached && g.objs[children[k]].key == k
  }

  ghost predicate Numbered(g: Ownership, next: Address) {
    && (forall o | o in g.objs :: o < next)
    && (forall v | v in g.vals :: v < next)
    && (forall r | r in g.target :: r < next)
  }

  ghost predicate WorldInv(w: World) {
    Sound(w.g, w.children, Disposed(w.g), {}, {}) && Listed(w.g, w.children) && Numbered(w.g, w.next)
  }

  ghost function NewRef(g: Ownership, r: Address, o: Address): Ownership {
    g.(target := g.target[r := o])
  }

  ghost function NewSingleton(g: Ownership, o: Address, key: Key, rank: nat): Ownership {
    g.(objs := g.objs[o := Node(key, rank, true, None)])
  }

  ghost function MoveRef(g: Ownership, r: Address, to: Address): Ownership
    requires r in g.target
  {
    g.(target := (g.target - {r})[to := g.target[r]])
  }

  /** The members stop being external when they become part of the value. */
  ghost function Finished(g: Ownership, o: Address, v: Address, members: set<Address>): Ownership
    requires o in g.objs
  {
    g.(objs := g.objs[o := g.objs[o].(value := Some(v))],
       vals := g.vals[v := Held(members, g.objs[o].rank, Some(o), 0)])
  }

  ghost function Pinned(g: Ownership, v: Address): Ownership
    requires v in g.vals
  {
    g.(vals := g.vals[v := g.vals[v].(pins := g.vals[v].pins + 1)])
  }

  ghost predicate LastHolder(g: Ownership, v: Address)
    requires v in g.vals
  {
    g.vals[v].pins == 1 && g.vals[v].owner == None
  }

  ghost function Unpinned(g: Ownership, v: Address): Ownership
    requires v in g.vals && g.vals[v].pins > 0
  {
    if LastHolder(g, v) then
      Settle(Without(g.(vals := g.vals - {v}), g.vals[v].refs))
    else
      g.(vals := g.vals[v := g.vals[v].(pins := g.vals[v].pins - 1)])
  }

  ghost function DetachAll(g: Ownership): Ownership {
    g.(objs := map o | o in g.objs :: g.objs[o].(attached := false))
  }

  ghost function Surviving(g: Ownership, children: map<Key, Address>): map<Key, Address> {
    map k | k in children && children[k] in ReachSet(g, false) :: children[k]
  }

  ghost predicate Enabled(w: World, a: Action) {
    match a
    case Get(_, _) => true
    case Copy(r) => r in w.g.target
    case Move(r) => External(w.g, r)
    case Drop(r) => External(w.g, r)
    case Finish(o, members) =>
      && o in w.g.objs && w.g.objs[o].value == None
      && AllExternal(w.g, members) && forall r | r in members :: RefBelow(w.g, r, w.g.objs[o].rank)
    case Pin(v) => v in w.g.vals
    case Unpin(v) => v in w.g.vals && w.g.vals[v].pins > 0
    case Collect => true
    case Clear => true
  }

  ghost function Apply(w: World, a: Action): World
    requires Enabled(w, a)
  {
    match a
    case Get(key, rank) =>
      if key in w.children then
        w.(g := NewRef(w.g, w.next, w.children[key]), next := w.next + 1)
      else
        World(NewRef(NewSingleton(w.g, w.next, key, rank), w.next + 1, w.next), w.children[key := w.next], w.next + 2)
    case Copy(r) => w.(g := NewRef(w.g, w.next, w.g.target[r]), next := w.next + 1)
    case Move(r) => w.(g := MoveRef(w.g, r, w.next), next := w.next + 1)
    case Drop(r) => w.(g := Settle(Without(w.g, {r})))
    case Finish(o, members) => w.(g := Finished(w.g, o, w.next, members), next := w.next + 1)
    case Pin(v) => w.(g := Pinned(w.g, v))
    case Unpin(v) => w.(g := Unpinned(w.g, v))
    case Collect => w.(g := Sweep(w.g), children := Surviving(w.g, w.children))
    case Clear => w.(g := DetachAll(Sweep(w.g)), children := map[])
  }

  lemma ApplyCollect(w: World)
    ensures Apply(w, Collect) == World(Sweep(w.g), Surviving(w.g, w.children), w.next)
  {
  }

  // ---------------------------------------------------------------- every call keeps the invariant

  lemma SettleListed(h: Ownership, children: map<Key, Address>, next: Address)
    requires WellFormed(h) && ValuesHeld(h) && Listed(h, children) && Numbered(h, next)
    requires forall o | o in h.objs && h.objs[o].attached :: h.objs[o].key in children && children[h.objs[o].key] == o
    ensures WorldInv(World(Settle(h), children, next))
  {
    var g := Settle(h);
    SettleInv(h);
    forall o | o in h.objs && h.objs[o].attached
      ensures o in g.objs
    {
      assert Reach(h, true, 0, o);
    }
    assert Disposed(g) - {} == Disposed(g);
  }

  lemma DropInv(w: World, r: Address)
    requires WorldInv(w) && External(w.g, r)
    ensures WorldInv(Apply(w, Drop(r)))
  {
    assert AllExternal(w.g, {r});
    WithoutWellFormed(w.g, {r});
    SettleListed(Without(w.g, {r}), w.children, w.next);
  }

  lemma DropValueWellFormed(g: Ownership, v: Address)
    requires WellFormed(g) && ValuesHeld(g) && v in g.vals && g.vals[v].owner == None
    ensures WellFormed(g.(vals := g.vals - {v})) && ValuesHeld(g.(vals := g.vals - {v}))
    ensures AllExternal(g.(vals := g.vals - {v}), g.vals[v].refs)
  {
    var h := g.(vals := g.vals - {v});
    forall w, r | w in h.vals && r in h.vals[w].refs
      ensures RefBelow(h, r, h.vals[w].rank)
    {
      assert RefBelow(g, r, g.vals[w].rank);
    }
    forall r | r in g.vals[v].refs
      ensures External(h, r)
    {
      assert RefBelow(g, r, g.vals[v].rank);
    }
  }

  lemma UnpinInv(w: World, v: Address)
    requires WorldInv(w) && Enabled(w, Unpin(v))
    ensures WorldInv(Apply(w, Unpin(v)))
  {
    if LastHolder(w.g, v) {
      var h := w.g.(vals := w.g.vals - {v});
      DropValueWellFormed(w.g, v);
      WithoutWellFormed(h, w.g.vals[v].refs);
      SettleListed(Without(h, w.g.vals[v].refs), w.children, w.next);
    } else {
      PinsInv(w, v, w.g.vals[v].pins - 1);
    }
  }

  lemma PinsRefs(g: Ownership, v: Address, pins: nat)
    requires v in g.vals
    ensures var h := g.(vals := g.vals[v := g.vals[v].(pins := pins)]);
      Disposed(h) == Disposed(g) && forall o :: RefsTo(h, o) == RefsTo(g, o)
  {
    assert forall o :: RefsTo(g.(vals := g.vals[v := g.vals[v].(pins := pins)]), o) == RefsTo(g, o);
  }

  lemma PinsWellFormed(g: Ownership, v: Address, pins: nat)
    requires WellFormed(g) && ValuesHeld(g) && v in g.vals && (g.vals[v].owner.Some? || pins > 0)
    ensures var h := g.(vals := g.vals[v := g.vals[v].(pins := pins)]);
      WellFormed(h) && ValuesHeld(h)
  {
    var h := g.(vals := g.vals[v := g.vals[v].(pins := pins)]);
    forall u, r | u in h.vals && r in h.vals[u].refs
      ensures RefBelow(h, r, h.vals[u].rank)
    {
      assert RefBelow(g, r, g.vals[u].rank);
    }
  }

  lemma PinsInv(w: World, v: Address, pins: nat)
    requires WorldInv(w) && v in w.g.vals && (w.g.vals[v].owner.Some? || pins > 0)
    ensures WorldInv(w.(g := w.g.(vals := w.g.vals[v := w.g.vals[v].(pins := pins)])))
  {
    hide WellFormed, ValuesHeld, Disposed, RefsTo;
    PinsWellFormed(w.g, v, pins);
    PinsRefs(w.g, v, pins);
  }

  lemma NewRefWellFormed(g: Ownership, r: Address, o: Address)
    requires WellFormed(g) && ValuesHeld(g) && o in g.objs && r !in g.target
    ensures WellFormed(NewRef(g, r, o)) && ValuesHeld(NewRef(g, r, o))
  {
    var h := NewRef(g, r, o);
    forall v, q | v in h.vals && q in h.vals[v].refs
      ensures RefBelow(h, q, h.vals[v].rank)
    {
      assert RefBelow(g, q, g.vals[v].rank);
    }
  }

  lemma NewRefRefs(g: Ownership, r: Address, o: Address)
    requires r !in g.target
    ensures forall p :: RefsTo(NewRef(g, r, o), p) == if p == o then RefsTo(g, o) + {r} else RefsTo(g, p)
    ensures Disposed(NewRef(g, r, o)) == Disposed(g) - {o}
  {
    var h := NewRef(g, r, o);
    assert RefsTo(h, o) == RefsTo(g, o) + {r};
    assert forall p | p != o :: RefsTo(h, p) == RefsTo(g, p);
  }

  lemma NewRefInv(w: World, o: Address)
    requires WorldInv(w) && o in w.g.objs
    ensures WorldInv(w.(g := NewRef(w.g, w.next, o), next := w.next + 1))
  {
    hide WellFormed, ValuesHeld, Disposed, RefsTo;
    NewRefWellFormed(w.g, w.next, o);
    NewRefRefs(w.g, w.next, o);
    assert Disposed(w.g) - {o} - {} == Disposed(w.g) - {o};
  }

  lemma NewSingletonWellFormed(g: Ownership, o: Address, key: Key, rank: nat)
    requires WellFormed(g) && ValuesHeld(g) && o !in g.objs
    ensures var h := NewSingleton(g, o, key, rank);
      WellFormed(h) && ValuesHeld(h) && Disposed(h) == Disposed(g) + {o} && forall p :: RefsTo(h, p) == RefsTo(g, p)
  {
    var h := NewSingleton(g, o, key, rank);
    forall v, q | v in h.vals && q in h.vals[v].refs
      ensures RefBelow(h, q, h.vals[v].rank)
    {
      assert RefBelow(g, q, g.vals[v].rank);
    }
    assert forall p :: RefsTo(h, p) == RefsTo(g, p);
    assert RefsTo(h, o) == {};
  }

  lemma NewSingletonInv(w: World, key: Key, rank: nat)
    requires WorldInv(w) && key !in w.children
    ensures WorldInv(World(NewSingleton(w.g, w.next, key, rank), w.children[key := w.next], w.next + 1))
  {
    hide WellFormed, ValuesHeld, Disposed, RefsTo;
    NewSingletonWellFormed(w.g, w.next, key, rank);
  }

  lemma MoveWellFormed(g: Ownership, r: Address, to: Address)
    requires WellFormed(g) && ValuesHeld(g) && External(g, r) && to !in g.target
    requires forall v | v in g.vals :: to !in g.vals[v].refs
    ensures WellFormed(MoveRef(g, r, to)) && ValuesHeld(MoveRef(g, r, to))
  {
    var h := MoveRef(g, r, to);
    forall v, q | v in h.vals && q in h.vals[v].refs
      ensures RefBelow(h, q, h.vals[v].rank)
    {
      assert RefBelow(g, q, g.vals[v].rank);
    }
  }

  lemma MovedFrom(w: World, r: Address)
    requires External(w.g, r) && w.next !in w.g.target
    ensures Enabled(w, Move(r)) && Apply(w, Move(r)) == w.(g := MoveRef(w.g, r, w.next), next := w.next + 1)
    ensures r in w.g.target
  {
  }

  lemma MoveRefs(g: Ownership, r: Address, to: Address)
    requires r in g.target && to !in g.target
    ensures Disposed(MoveRef(g, r, to)) == Disposed(g)
    ensures forall o :: RefsTo(MoveRef(g, r, to), o) == {} <==> RefsTo(g, o) == {}
  {
    var h, o := MoveRef(g, r, to), g.target[r];
    assert r in RefsTo(g, o) && to in RefsTo(h, o);
    assert forall p | p != o :: RefsTo(h, p) == RefsTo(g, p);
  }

  lemma MoveInv(w: World, r: Address)
    requires WorldInv(w) && External(w.g, r)
    ensures WorldInv(Apply(w, Move(r)))
  {
    hide WellFormed, ValuesHeld, Disposed, RefsTo;
    UnusedNumber(w);
    MoveWellFormed(w.g, r, w.next);
    MoveRefs(w.g, r, w.next);
  }

  /** The next number is no Ref, and no member of any value. */
  lemma UnusedNumber(w: World)
    requires WorldInv(w)
    ensures w.next !in w.g.target && forall v | v in w.g.vals :: w.next !in w.g.vals[v].refs
  {
    assert forall v, q | v in w.g.vals && q in w.g.vals[v].refs :: RefBelow(w.g, q, w.g.vals[v].rank);
  }

  lemma FinishWellFormed(w: World, o: Address, members: set<Address>)
    requires WorldInv(w) && Enabled(w, Finish(o, members))
    ensures WellFormed(Finished(w.g, o, w.next, members))
  {
    var g, v := w.g, w.next;
    var h := Finished(g, o, v, members);
    forall u, q | u in h.vals && q in h.vals[u].refs
      ensures RefBelow(h, q, h.vals[u].rank)
    {
      assert RefBelow(g, q, h.vals[u].rank);
    }
    assert OneHolder(h) by {
      assert forall u, q | u in g.vals && q in g.vals[u].refs :: q !in members;
    }
  }

  lemma FinishRefs(g: Ownership, o: Address, v: Address, members: set<Address>)
    requires o in g.objs
    ensures Disposed(Finished(g, o, v, members)) == Disposed(g)
    ensures forall p :: RefsTo(Finished(g, o, v, members), p) == RefsTo(g, p)
  {
    assert forall p :: RefsTo(Finished(g, o, v, members), p) == RefsTo(g, p);
  }

  lemma FinishInv(w: World, o: Address, members: set<Address>)
    requires WorldInv(w) && Enabled(w, Finish(o, members))
    ensures WorldInv(Apply(w, Finish(o, members)))
  {
    hide WellFormed, AllExternal, RefsTo, Disposed;
    FinishWellFormed(w, o, members);
    FinishRefs(w.g, o, w.next, members);
  }

  lemma CollectInv(w: World)
    requires WorldInv(w)
    ensures WorldInv(Apply(w, Collect)) && Disposed(Apply(w, Collect).g) == {}
  {
    SweepInv(w.g);
    assert Disposed(Sweep(w.g)) - {} == {};
  }

  lemma DetachWellFormed(g: Ownership)
    requires WellFormed(g) && ValuesHeld(g)
    ensures WellFormed(DetachAll(g)) && ValuesHeld(DetachAll(g))
    ensures forall o :: RefsTo(DetachAll(g), o) == RefsTo(g, o)
  {
    var h := DetachAll(g);
    forall v, q | v in h.vals && q in h.vals[v].refs
      ensures RefBelow(h, q, h.vals[v].rank)
    {
      assert RefBelow(g, q, g.vals[v].rank);
    }
  }

  lemma ClearInv(w: World)
    requires WorldInv(w)
    ensures WorldInv(Apply(w, Clear))
    ensures forall o | o in Apply(w, Clear).g.objs :: !Apply(w, Clear).g.objs[o].attached
  {
    hide WellFormed, ValuesHeld, RefsTo, Sweep, Sound;
    var g := Sweep(w.g);
    var h := DetachAll(g);
    SoundWellFormed(w.g, w.children, Disposed(w.g), {}, {});
    SweepInv(w.g);
    SweepNumbered(w.g, w.next);
    DetachWellFormed(g);
    forall o | o in h.objs
      ensures RefsTo(h, o) != {}
    {
      assert o !in Disposed(g);
    }
    assert Disposed(h) - {} == Disposed(h);
    SoundDetached(h);
  }

  lemma SoundDetached(h: Ownership)
    requires WellFormed(h) && ValuesHeld(h)
    requires forall o | o in h.objs :: RefsTo(h, o) != {} && !h.objs[o].attached
    ensures Sound(h, map[], Disposed(h), {}, {})
  {
    assert Disposed(h) - {} == Disposed(h);
  }

  lemma SweepNumbered(g: Ownership, next: Address)
    requires Numbered(g, next)
    ensures Numbered(Sweep(g), next)
  {
  }

  /** Whatever call is made, counts, collections and pointers stay right. */
  lemma StepInv(w: World, a: Action)
    requires WorldInv(w) && Enabled(w, a)
    ensures WorldInv(Apply(w, a)) && Apply(w, a).next >= w.next
  {
    match a
    case Get(key, rank) =>
      if key in w.children {
        NewRefInv(w, w.children[key]);
      } else {
        NewSingletonInv(w, key, rank);
        NewRefInv(World(NewSingleton(w.g, w.next, key, rank), w.children[key := w.next], w.next + 1), w.next);
      }
    case Copy(r) => NewRefInv(w, w.g.target[r]);
    case Move(r) => MoveInv(w, r);
    case Drop(r) => DropInv(w, r);
    case Finish(o, members) => FinishInv(w, o, members);
    case Pin(v) => PinsInv(w, v, w.g.vals[v].pins + 1);
    case Unpin(v) => UnpinInv(w, v);
    case Collect => CollectInv(w);
    case Clear => ClearInv(w);
  }

  // ---------------------------------------------------------------- whole runs

  const EMPTY_WORLD := World(Graph(map[], map[], map[]), map[], 0)

  ghost predicate IsRun(ws: seq<World>, acts: seq<Action>) {
    && |ws| == |acts| + 1 && ws[0] == EMPTY_WORLD
    && forall i | 0 <= i < |acts| :: Enabled(ws[i], acts[i]) && ws[i + 1] == Apply(ws[i], acts[i])
  }

  lemma {:induction false} RunInv(ws: seq<World>, acts: seq<Action>, i: nat)
    requires IsRun(ws, acts) && i < |ws|
    ensures WorldInv(ws[i])
  {
    if i == 0 {
      assert Disposed(EMPTY_WORLD.g) - {} == Disposed(EMPTY_WORLD.g);
    } else {
      RunInv(ws, acts, i - 1);
      StepInv(ws[i - 1], acts[i - 1]);
    }
  }

  /** The singleton a `Get` of this key returns. */
  function Got(w: World, key: Key): Address {
    if key in w.children then w.children[key] else w.next
  }

  /** The calls that take `o` out of the storage. */
  ghost predicate Loses(w: World, a: Action, o: Address) {
    a.Clear? || (a.Collect? && o !in ReachSet(w.g, false))
  }

  /** `o` is the child that `key` leads to. */
  ghost predicate IsChild(w: World, key: Key, o: Address) {
    key in w.children && w.children[key] == o
  }

  lemma GotIsChild(w: World, key: Key, o: Address)
    requires o < w.next
    ensures Got(w, key) == o <==> IsChild(w, key, o)
  {
  }

  lemma GetMakesChild(w: World, key: Key, rank: nat)
    requires WorldInv(w)
    ensures IsChild(Apply(w, Get(key, rank)), key, Got(w, key)) && Got(w, key) < Apply(w, Get(key, rank)).next
  {
    hide Sound;
  }

  /** A singleton stays the child of its key until it is lost, and is never the child of a key again. */
  lemma ChildStays(w: World, a: Action, key: Key, o: Address)
    requires WorldInv(w) && Enabled(w, a) && o < w.next
    ensures IsChild(Apply(w, a), key, o) <==> IsChild(w, key, o) && !Loses(w, a, o)
    ensures o < Apply(w, a).next
  {
    hide Sound, ReachSet, Sweep;
  }

  ghost predicate KeptBetween(ws: seq<World>, acts: seq<Action>, i: nat, j: nat, o: Address)
    requires |ws| == |acts| + 1 && i < j < |ws|
  {
    forall m | i < m < j :: !Loses(ws[m], acts[m], o)
  }

  /**
    Two gets of one key return the same singleton if and only if between them there was no clear and
    no collection at a moment when it was unreachable.
   */
  lemma {:induction false} SameSingleton(ws: seq<World>, acts: seq<Action>, i: nat, j: nat, key: Key)
    requires IsRun(ws, acts) && i < j < |ws| && acts[i].Get? && acts[i].key == key
    ensures Got(ws[j], key) == Got(ws[i], key) <==> KeptBetween(ws, acts, i, j, Got(ws[i], key))
    ensures Got(ws[i], key) < ws[j].next
    ensures KeptBetween(ws, acts, i, j, Got(ws[i], key)) ==> key in ws[j].children
  {
    hide WorldInv, Enabled, Apply, Loses, Got;
    var o := Got(ws[i], key);
    RunInv(ws, acts, j - 1);
    if j == i + 1 {
      GetMakesChild(ws[i], key, acts[i].rank);
    } else {
      SameSingleton(ws, acts, i, j - 1, key);
      GotIsChild(ws[j - 1], key, o);
      ChildStays(ws[j - 1], acts[j - 1], key, o);
      assert KeptBetween(ws, acts, i, j, o) <==>
        KeptBetween(ws, acts, i, j - 1, o) && !Loses(ws[j - 1], acts[j - 1], o);
    }
    GotIsChild(ws[j], key, o);
  }

  /** A proxy whose only Ref is a member of the value of a disposed attribute. */
  ghost function OnlyGarbageHolds(): World {
    World(Graph(map[0 := Node("proxy", 0, true, None), 2 := Node("attribute", 1, true, Some(4))],
                map[4 := Held({1}, 1, Some(2), 0)], map[1 := 0]),
          map["proxy" := 0, "attribute" := 2], 5)
  }

  lemma OnlyGarbageHoldsInv()
    ensures WorldInv(OnlyGarbageHolds()) && RefsTo(OnlyGarbageHolds().g, 0) == {1}
  {
    var w := OnlyGarbageHolds();
    assert RefsTo(w.g, 0) == {1};
    assert RefsTo(w.g, 2) == {};
    assert Disposed(w.g) - {} == Disposed(w.g);
    forall v, r | v in w.g.vals && r in w.g.vals[v].refs
      ensures RefBelow(w.g, r, w.g.vals[v].rank)
    {
    }
  }

  /** The worlds of the run to it: the attribute is got, its value takes over the proxy's Ref, its own Ref is dropped. */
  ghost function OnTheWay(k: nat): World
    requires k < 5
  {
    var proxy, attribute, children := Node("proxy", 0, true, None), Node("attribute", 1, true, None), map["proxy" := 0];
    if k == 0 then EMPTY_WORLD
    else if k == 1 then World(Graph(map[0 := proxy], map[], map[1 := 0]), children, 2)
    else if k == 2 then World(Graph(map[0 := proxy, 2 := attribute], map[], map[1 := 0, 3 := 2]), children["attribute" := 2], 4)
    else if k == 3 then
      World(Graph(map[0 := proxy, 2 := attribute.(value := Some(4))], map[4 := Held({1}, 1, Some(2), 0)], map[1 := 0, 3 := 2]),
            children["attribute" := 2], 5)
    else OnlyGarbageHolds()
  }

  const TO_GARBAGE: seq<Action> := [Get("proxy", 0), Get("attribute", 1), Finish(2, {1}), Drop(3), Collect, Get("proxy", 0)]

  lemma GetsOnTheWay()
    ensures Apply(OnTheWay(0), Get("proxy", 0)) == OnTheWay(1)
    ensures Apply(OnTheWay(1), Get("attribute", 1)) == OnTheWay(2)
  {
    assert "attribute" != "proxy" by {
      assert |"attribute"| == 9 && |"proxy"| == 5;
    }
  }

  lemma FinishOnTheWay()
    ensures Enabled(OnTheWay(2), Finish(2, {1})) && Apply(OnTheWay(2), Finish(2, {1})) == OnTheWay(3)
  {
  }

  lemma DropOnTheWay()
    ensures Enabled(OnTheWay(3), Drop(3)) && Apply(OnTheWay(3), Drop(3)) == OnTheWay(4)
  {
    hide Settle, Sound;
    OnlyGarbageHoldsInv();
    var g := OnlyGarbageHolds().g;
    SoundInv(g, OnlyGarbageHolds().children, Disposed(g), {});
    SettleDone(g);
    assert Without(OnTheWay(3).g, {3}).target == g.target;
    assert Without(OnTheWay(3).g, {3}) == g;
  }

  lemma ProxyUnreachable()
    ensures 0 !in ReachSet(OnlyGarbageHolds().g, false)
  {
    var g := OnlyGarbageHolds().g;
    forall n: nat
      ensures !Reach(g, false, n, 0)
    {
      assert 1 in g.vals[4].refs && !External(g, 1);
      assert n > 0 ==> !Reach(g, false, n - 1, 2);
      assert !Grip(g, false, n, 1);
    }
  }

  lemma ProxyReferenced(k: nat)
    requires 1 <= k < 5
    ensures RefsTo(OnTheWay(k).g, 0) == {1}
  {
  }

  /**
    A positive count does not protect a singleton: in this run the proxy has a Ref at every moment from its
    get to the collection, nothing is cleared, and the next get returns another singleton.
   */
  lemma CountDoesNotProtect() returns (ws: seq<World>, acts: seq<Action>)
    ensures IsRun(ws, acts) && |acts| == 6 && acts[0] == acts[5] == Get("proxy", 0) && acts[4] == Collect
    ensures forall m | 0 <= m < 6 :: !acts[m].Clear? && (acts[m].Collect? <==> m == 4)
    ensures forall m | 0 < m <= 4 :: RefsTo(ws[m].g, Got(ws[0], "proxy")) != {}
    ensures Got(ws[5], "proxy") != Got(ws[0], "proxy")
  {
    hide Apply, Enabled, OnTheWay, RefsTo, ReachSet;
    acts := TO_GARBAGE;
    StartAndEnd();
    GetsOnTheWay();
    FinishOnTheWay();
    DropOnTheWay();
    AlwaysEnabled();
    var collected := Apply(OnTheWay(4), Collect);
    ws := [OnTheWay(0), OnTheWay(1), OnTheWay(2), OnTheWay(3), OnTheWay(4), collected, Apply(collected, Get("proxy", 0))];
    forall m | 0 < m <= 4
      ensures RefsTo(ws[m].g, 0) != {}
    {
      ProxyReferenced(m);
      assert 1 in RefsTo(ws[m].g, 0);
    }
    ProxyUnreachable();
    ApplyCollect(OnTheWay(4));
  }

  lemma StartAndEnd()
    ensures OnTheWay(0) == EMPTY_WORLD && OnTheWay(4) == OnlyGarbageHolds()
  {
  }

  lemma AlwaysEnabled()
    ensures forall w, key, rank :: Enabled(w, Get(key, rank))
    ensures forall w :: Enabled(w, Collect) && Enabled(w, Clear)
  {
  }

  // ---------------------------------------------------------------- after clear

  ghost predicate AllDetached(g: Ownership) {
    forall o | o in g.objs :: !g.objs[o].attached
  }

  ghost predicate IsDetached(g: Ownership, o: Address) {
    o in g.objs && !g.objs[o].attached
  }

  /**
    Whatever else is in the storage and whatever the call is: a detached singleton dies in it exactly when
    it is left without a Ref, cascades included, and stays detached otherwise.
   */
  lemma DiesAtLastDrop(w: World, a: Action, o: Address)
    requires WorldInv(w) && Enabled(w, a) && IsDetached(w.g, o)
    ensures o in Apply(w, a).g.objs <==> RefsTo(Apply(w, a).g, o) != {}
    ensures o in Apply(w, a).g.objs ==> IsDetached(Apply(w, a).g, o)
  {
    hide WorldInv, Enabled, Apply;
    StepInv(w, a);
    StaysDetached(w, a, o);
    DetachedReferenced(Apply(w, a), o);
  }

  lemma StaysDetached(w: World, a: Action, o: Address)
    requires WorldInv(w) && Enabled(w, a) && IsDetached(w.g, o)
    ensures o in Apply(w, a).g.objs ==> IsDetached(Apply(w, a).g, o)
  {
    hide Sound, ReachSet;
  }

  lemma DetachedReferenced(w: World, o: Address)
    requires WorldInv(w) && (o in w.g.objs ==> !w.g.objs[o].attached)
    ensures o in w.g.objs <==> RefsTo(w.g, o) != {}
  {
    if o !in w.g.objs {
      assert TargetsLive(w.g);
    }
  }

  /** Addresses are never used again. */
  lemma GoneForGood(w: World, a: Action, o: Address)
    requires WorldInv(w) && Enabled(w, a) && o < w.next && o !in w.g.objs
    ensures o !in Apply(w, a).g.objs && o < Apply(w, a).next
  {
    hide Sound, ReachSet;
    StepInv(w, a);
  }

  /**
    In any continuation of a run a detached singleton lives exactly as long as it has always had a Ref: it
    is gone from its last drop on.
   */
  lemma {:induction false} LivesUntilLastDrop(ws: seq<World>, acts: seq<Action>, i: nat, j: nat, o: Address)
    requires IsRun(ws, acts) && i <= j < |ws| && IsDetached(ws[i].g, o)
    ensures o in ws[j].g.objs <==> forall m | i <= m <= j :: RefsTo(ws[m].g, o) != {}
    ensures o in ws[j].g.objs ==> IsDetached(ws[j].g, o)
    ensures o < ws[j].next
  {
    hide WorldInv, Enabled, Apply, RefsTo;
    RunInv(ws, acts, j);
    if i == j {
      DetachedReferenced(ws[j], o);
      Below(ws[j], o);
    } else {
      LivesUntilLastDrop(ws, acts, i, j - 1, o);
      RunInv(ws, acts, j - 1);
      if o in ws[j - 1].g.objs {
        DiesAtLastDrop(ws[j - 1], acts[j - 1], o);
        Older(ws[j - 1], acts[j - 1]);
      } else {
        GoneForGood(ws[j - 1], acts[j - 1], o);
      }
    }
  }

  lemma Below(w: World, o: Address)
    requires WorldInv(w) && o in w.g.objs
    ensures o < w.next
  {
  }

  lemma Older(w: World, a: Action)
    requires WorldInv(w) && Enabled(w, a)
    ensures Apply(w, a).next >= w.next
  {
    StepInv(w, a);
  }

  /** `clear` itself: whatever it leaves is detached, has a Ref, and the storage forgot it. */
  lemma ClearDetaches(w: World)
    requires WorldInv(w)
    ensures AllDetached(Apply(w, Clear).g) && Apply(w, Clear).children == map[]
    ensures forall o | o in Apply(w, Clear).g.objs :: RefsTo(Apply(w, Clear).g, o) != {}
  {
    StepInv(w, Clear);
    forall o | o in Apply(w, Clear).g.objs
      ensures RefsTo(Apply(w, Clear).g, o) != {}
    {
      DetachedReferenced(Apply(w, Clear), o);
    }
  }

  lemma NoNewSingletons(w: World, a: Action)
    requires WorldInv(w) && Enabled(w, a) && !a.Get? && AllDetached(w.g)
    ensures AllDetached(Apply(w, a).g)
  {
    hide Sound, ReachSet;
  }

  lemma {:induction false} DetachedInRun(ws: seq<World>, acts: seq<Action>, i: nat, j: nat)
    requires IsRun(ws, acts) && i < j < |ws| && acts[i].Clear?
    requires forall m | i < m < j :: !acts[m].Get?
    ensures AllDetached(ws[j].g)
  {
    hide WorldInv, Enabled, Apply, AllDetached;
    RunInv(ws, acts, j - 1);
    if j == i + 1 {
      ClearDetaches(ws[i]);
    } else {
      DetachedInRun(ws, acts, i, j - 1);
      NoNewSingletons(ws[j - 1], acts[j - 1]);
    }
  }

  /** A clear and, without further gets, the release of all outside Refs and values, in whatever order: nothing is left alive. */
  lemma NothingLeftInRun(ws: seq<World>, acts: seq<Action>, i: nat, j: nat)
    requires IsRun(ws, acts) && i < j < |ws| && acts[i].Clear?
    requires forall m | i < m < j :: !acts[m].Get?
    requires forall r | r in ws[j].g.target :: !External(ws[j].g, r)
    requires forall v | v in ws[j].g.vals :: ws[j].g.vals[v].pins == 0
    ensures ws[j].g == EMPTY_WORLD.g
  {
    hide WorldInv, Enabled, Apply, AllDetached;
    DetachedInRun(ws, acts, i, j);
    RunInv(ws, acts, j);
    NothingLeft(ws[j]);
  }

  lemma {:induction false} NoRootsNoReach(g: Ownership, n: nat, o: Address)
    requires forall r | r in g.target :: !External(g, r)
    requires forall v | v in g.vals :: g.vals[v].pins == 0
    ensures !Reach(g, false, n, o)
    decreases n
  {
    if Reach(g, false, n, o) {
      var r :| r in g.target && g.target[r] == o && Grip(g, false, n, r);
      var v :| v in g.vals && r in g.vals[v].refs && g.vals[v].owner.Some? && Reach(g, false, n - 1, g.vals[v].owner.value);
      NoRootsNoReach(g, n - 1, g.vals[v].owner.value);
    }
  }

  /** Once the storage is cleared and the outside holds neither Refs nor values, nothing is left alive. */
  lemma NothingLeft(w: World)
    requires WorldInv(w) && AllDetached(w.g)
    requires forall r | r in w.g.target :: !External(w.g, r)
    requires forall v | v in w.g.vals :: w.g.vals[v].pins == 0
    ensures w.g == EMPTY_WORLD.g
  {
    hide Reachable, Sound;
    var g := w.g;
    SoundWellFormed(g, w.children, Disposed(g), {}, {});
    SoundInv(g, w.children, Disposed(g), {});
    AllReferenced(g, false);
    NoRootsNothingReached(g);
    assert g.objs.Keys == {};
    assert g.vals.Keys == {};
    assert g.target.Keys == {};
  }

  lemma NoRootsNothingReached(g: Ownership)
    requires forall r | r in g.target :: !External(g, r)
    requires forall v | v in g.vals :: g.vals[v].pins == 0
    ensures ReachSet(g, false) == {}
  {
    forall n: nat, o
      ensures !Reach(g, false, n, o)
    {
      NoRootsNoReach(g, n, o);
    }
  }

  // ---------------------------------------------------------------- a held Ref keeps its singleton

  /** `r` itself is dropped, moved from or given to a value. */
  predicate Releases(a: Action, r: Address) {
    match a
    case Drop(q) => q == r
    case Move(q) => q == r
    case Finish(_, members) => r in members
    case _ => false
  }

  /** Collections, clears and everybody else's drops leave the target of a held Ref alone. */
  lemma HeldRefStays(w: World, a: Action, r: Address)
    requires WorldInv(w) && Enabled(w, a) && External(w.g, r) && !Releases(a, r)
    ensures External(Apply(w, a).g, r) && Apply(w, a).g.target[r] == w.g.target[r]
    ensures w.g.target[r] in Apply(w, a).g.objs && w.g.target[r] !in Disposed(Apply(w, a).g)
    ensures w.g.target[r] in w.g.objs && Apply(w, a).g.objs[w.g.target[r]].key == w.g.objs[w.g.target[r]].key
  {
    StepInv(w, a);
    RefStays(w, a, r);
    KeysStay(w, a);
    assert r in RefsTo(Apply(w, a).g, w.g.target[r]);
  }

  lemma KeysStay(w: World, a: Action)
    requires WorldInv(w) && Enabled(w, a)
    ensures forall o | o in w.g.objs && o in Apply(w, a).g.objs :: Apply(w, a).g.objs[o].key == w.g.objs[o].key
  {
  }

  lemma RefStays(w: World, a: Action, r: Address)
    requires WorldInv(w) && Enabled(w, a) && External(w.g, r) && !Releases(a, r)
    ensures External(Apply(w, a).g, r) && Apply(w, a).g.target[r] == w.g.target[r]
  {
    match a
    case Drop(q) =>
      ExternalStays(Without(w.g, {q}), true, r);
    case Unpin(v) =>
      if LastHolder(w.g, v) {
        assert External(Without(w.g.(vals := w.g.vals - {v}), w.g.vals[v].refs), r);
        ExternalStays(Without(w.g.(vals := w.g.vals - {v}), w.g.vals[v].refs), true, r);
      }
    case Collect => ExternalStays(w.g, false, r);
    case Clear => ExternalStays(w.g, false, r);
    case _ =>
  }

  lemma ExternalStays(g: Ownership, b: bool, r: Address)
    requires External(g, r)
    ensures External(Restrict(g, ReachSet(g, b)), r) && Restrict(g, ReachSet(g, b)).target[r] == g.target[r]
  {
    assert RefKept(g, ReachSet(g, b), r);
  }

  lemma {:induction false} HeldRefStaysInRun(ws: seq<World>, acts: seq<Action>, i: nat, j: nat, r: Address)
    requires IsRun(ws, acts) && i <= j < |ws| && External(ws[i].g, r)
    requires forall m | i <= m < j :: !Releases(acts[m], r)
    ensures External(ws[j].g, r) && ws[j].g.target[r] == ws[i].g.target[r]
    ensures ws[j].g.target[r] in ws[j].g.objs && ws[j].g.target[r] !in Disposed(ws[j].g)
  {
    if i == j {
      RunInv(ws, acts, i);
      assert r in RefsTo(ws[i].g, ws[i].g.target[r]);
    } else {
      HeldRefStaysInRun(ws, acts, i, j - 1, r);
      RunInv(ws, acts, j - 1);
      HeldRefStays(ws[j - 1], acts[j - 1], r);
    }
  }

  // ---------------------------------------------------------------- no other Ref comes or goes

  /** The Ref a call hands out, with the singleton it points to. */
  ghost function HandedOut(w: World, a: Action): map<Address, Address>
    requires Enabled(w, a)
  {
    match a
    case Get(key, _) => if key in w.children then map[w.next := w.children[key]] else map[w.next + 1 := w.next]
    case Copy(r) => map[w.next := w.g.target[r]]
    case Move(r) => map[w.next := w.g.target[r]]
    case _ => map[]
  }

  lemma RestrictExternal(g: Ownership, K: set<Address>, r: Address)
    ensures External(Restrict(g, K), r) <==> External(g, r)
  {
    if External(g, r) {
      assert RefKept(g, K, r);
    } else if r in g.target {
      var v :| v in g.vals && r in g.vals[v].refs;
      if ValueKept(g, K, v) {
        assert v in Restrict(g, K).vals && r in Restrict(g, K).vals[v].refs;
      } else {
        assert !RefKept(g, K, r);
      }
    }
  }

  /**
    Exactly the Ref a call hands out is added to those held outside, and exactly the Refs it is given go: the
    members of a value that dies are not left behind, and no collection or clear touches a Ref held outside.
   */
  lemma OuterStep(w: World, a: Action, r: Address)
    requires WorldInv(w) && Enabled(w, a)
    ensures External(Apply(w, a).g, r) <==> r in HandedOut(w, a) || (External(w.g, r) && !Releases(a, r))
    ensures r in HandedOut(w, a) ==> r in Apply(w, a).g.target && Apply(w, a).g.target[r] == HandedOut(w, a)[r]
  {
    hide WorldInv, Restrict, ReachSet, Reachable;
    UnusedNumber(w);
    NoSuchRef(w);
    NoSuchValue(w);
    match a
    case Drop(q) => RestrictExternal(Without(w.g, {q}), ReachSet(Without(w.g, {q}), true), r);
    case Unpin(u) =>
      if LastHolder(w.g, u) {
        var h := w.g.(vals := w.g.vals - {u});
        LastHolderOuter(w, u, r);
        RestrictExternal(Without(h, w.g.vals[u].refs), ReachSet(Without(h, w.g.vals[u].refs), true), r);
      } else {
        PinsOuter(w.g, u, w.g.vals[u].pins - 1, r);
      }
    case Collect => RestrictExternal(w.g, ReachSet(w.g, false), r);
    case Clear => RestrictExternal(w.g, ReachSet(w.g, false), r);
    case Finish(o, members) => FinishedOuter(w, o, members, r);
    case Pin(u) => PinsOuter(w.g, u, w.g.vals[u].pins + 1, r);
    case _ =>
  }

  lemma PinsOuter(g: Ownership, u: Address, pins: nat, r: Address)
    requires u in g.vals
    ensures External(g.(vals := g.vals[u := g.vals[u].(pins := pins)]), r) <==> External(g, r)
  {
    var h := g.(vals := g.vals[u := g.vals[u].(pins := pins)]);
    if r in g.target && !External(g, r) {
      var v :| v in g.vals && r in g.vals[v].refs;
      assert v in h.vals && r in h.vals[v].refs;
    }
  }

  lemma FinishedOuter(w: World, o: Address, members: set<Address>, r: Address)
    requires w.next !in w.g.vals && o in w.g.objs
    ensures External(Finished(w.g, o, w.next, members), r) <==> External(w.g, r) && r !in members
  {
    var h := Finished(w.g, o, w.next, members);
    if r in w.g.target && !External(w.g, r) {
      var v :| v in w.g.vals && r in w.g.vals[v].refs;
      assert v in h.vals && r in h.vals[v].refs;
    }
    assert h.vals[w.next].refs == members;
  }

  lemma NoSuchRef(w: World)
    requires WorldInv(w)
    ensures w.next + 1 !in w.g.target && forall v | v in w.g.vals :: w.next + 1 !in w.g.vals[v].refs
  {
    assert forall v, q | v in w.g.vals && q in w.g.vals[v].refs :: RefBelow(w.g, q, w.g.vals[v].rank);
  }

  lemma LastHolderOuter(w: World, u: Address, r: Address)
    requires WorldInv(w) && u in w.g.vals
    ensures External(Without(w.g.(vals := w.g.vals - {u}), w.g.vals[u].refs), r) <==> External(w.g, r)
  {
    var h := Without(w.g.(vals := w.g.vals - {u}), w.g.vals[u].refs);
    if r in w.g.target && !External(w.g, r) {
      var v :| v in w.g.vals && r in w.g.vals[v].refs;
      assert v == u ==> r !in h.target;
      assert v != u ==> v in h.vals && r in h.vals[v].refs;
    }
  }

  // ---------------------------------------------------------------- a held value keeps its members

  /** The outside shares of a value, none once it is dead. */
  ghost function Shares(g: Ownership, v: Address): nat {
    if v in g.vals then g.vals[v].pins else 0
  }

  lemma RestrictShares(g: Ownership, K: set<Address>, v: Address)
    ensures Shares(Restrict(g, K), v) == Shares(g, v)
  {
  }

  lemma NoSuchValue(w: World)
    requires WorldInv(w)
    ensures w.next !in w.g.vals
  {
  }

  /** Only taking and giving up a share of a value changes its shares, by one. */
  lemma SharesStep(w: World, a: Action, v: Address)
    requires WorldInv(w) && Enabled(w, a)
    ensures Shares(Apply(w, a).g, v) + (if a == Unpin(v) then 1 else 0) == Shares(w.g, v) + (if a == Pin(v) then 1 else 0)
  {
    hide WorldInv, Restrict, ReachSet, Reachable;
    match a
    case Finish(_, _) => NoSuchValue(w);
    case Drop(r) => RestrictShares(Without(w.g, {r}), ReachSet(Without(w.g, {r}), true), v);
    case Unpin(u) =>
      var h := w.g.(vals := w.g.vals - {u});
      RestrictShares(Without(h, w.g.vals[u].refs), ReachSet(Without(h, w.g.vals[u].refs), true), v);
    case Collect => RestrictShares(w.g, ReachSet(w.g, false), v);
    case Clear => RestrictShares(w.g, ReachSet(w.g, false), v);
    case _ =>
  }

  function Taken(acts: seq<Action>, v: Address): nat {
    multiset(acts)[Pin(v)]
  }

  function GivenUp(acts: seq<Action>, v: Address): nat {
    multiset(acts)[Unpin(v)]
  }

  lemma TakenStep(acts: seq<Action>, i: nat, v: Address)
    requires i < |acts|
    ensures Taken(acts[..i + 1], v) == Taken(acts[..i], v) + (if acts[i] == Pin(v) then 1 else 0)
    ensures GivenUp(acts[..i + 1], v) == GivenUp(acts[..i], v) + (if acts[i] == Unpin(v) then 1 else 0)
  {
    assert acts[..i + 1] == acts[..i] + [acts[i]];
  }

  /** At every moment of a run the outside shares of a value are those taken and not given up so far. */
  lemma {:induction false} SharesInRun(ws: seq<World>, acts: seq<Action>, i: nat, v: Address)
    requires IsRun(ws, acts) && i < |ws|
    ensures Shares(ws[i].g, v) == Taken(acts[..i], v) - GivenUp(acts[..i], v)
  {
    hide WorldInv, Enabled, Apply, Shares, Taken, GivenUp;
    if i == 0 {
      NoShares(v);
    } else {
      SharesInRun(ws, acts, i - 1, v);
      RunInv(ws, acts, i - 1);
      SharesStep(ws[i - 1], acts[i - 1], v);
      TakenStep(acts, i - 1, v);
    }
  }

  lemma NoShares(v: Address)
    ensures Shares(EMPTY_WORLD.g, v) == Taken([], v) == GivenUp([], v) == 0
  {
  }

  /** `v` is live in both graphs with the same members, and they point to the same live singletons. */
  ghost predicate SameMembers(g: Ownership, h: Ownership, v: Address) {
    && v in g.vals && v in h.vals && h.vals[v].refs == g.vals[v].refs
    && forall r | r in g.vals[v].refs :: MemberStays(g, h, r)
  }

  ghost predicate MemberStays(g: Ownership, h: Ownership, r: Address) {
    && r in g.target && r in h.target && h.target[r] == g.target[r]
    && h.target[r] in h.objs && h.target[r] !in Disposed(h)
  }

  lemma RestrictMembers(g: Ownership, K: set<Address>, v: Address)
    requires OneHolder(g) && Shares(g, v) > 0
    ensures v in Restrict(g, K).vals && Restrict(g, K).vals[v].refs == g.vals[v].refs
    ensures forall r | r in g.vals[v].refs && r in g.target :: r in Restrict(g, K).target && Restrict(g, K).target[r] == g.target[r]
  {
    assert ValueKept(g, K, v);
    forall r | r in g.vals[v].refs && r in g.target
      ensures RefKept(g, K, r)
    {
      HolderKeepsRef(g, K, v, r);
    }
  }

  lemma MembersLive(w: World, v: Address)
    requires WorldInv(w) && v in w.g.vals
    ensures OneHolder(w.g) && v < w.next && forall r | r in w.g.vals[v].refs :: r in w.g.target && r < w.next && !External(w.g, r)
  {
    assert forall r | r in w.g.vals[v].refs :: RefBelow(w.g, r, w.g.vals[v].rank);
  }

  lemma MembersUntouched(w: World, a: Action, v: Address)
    requires WorldInv(w) && Enabled(w, a) && Shares(w.g, v) > 0 && Shares(Apply(w, a).g, v) > 0
    ensures v in Apply(w, a).g.vals && Apply(w, a).g.vals[v].refs == w.g.vals[v].refs
    ensures forall r | r in w.g.vals[v].refs ::
      r in w.g.target && r in Apply(w, a).g.target && Apply(w, a).g.target[r] == w.g.target[r]
  {
    hide WorldInv, Restrict, ReachSet, Reachable, RefsTo;
    MembersLive(w, v);
    match a
    case Drop(q) => RestrictMembers(Without(w.g, {q}), ReachSet(Without(w.g, {q}), true), v);
    case Unpin(u) =>
      if LastHolder(w.g, u) {
        var h := w.g.(vals := w.g.vals - {u});
        RestrictShares(Without(h, w.g.vals[u].refs), ReachSet(Without(h, w.g.vals[u].refs), true), v);
        RestrictMembers(Without(h, w.g.vals[u].refs), ReachSet(Without(h, w.g.vals[u].refs), true), v);
      }
    case Collect => RestrictMembers(w.g, ReachSet(w.g, false), v);
    case Clear => RestrictMembers(w.g, ReachSet(w.g, false), v);
    case _ =>
  }

  lemma TargetInUse(w: World, r: Address)
    requires WorldInv(w) && r in w.g.target
    ensures w.g.target[r] in w.g.objs && w.g.target[r] !in Disposed(w.g)
  {
    assert r in RefsTo(w.g, w.g.target[r]);
  }

  /**
    While somebody outside has a share of a value, no call touches the value, its members or the
    singletons they point to: no drop, no collection and no clear.
   */
  lemma HeldValueStays(w: World, a: Action, v: Address)
    requires WorldInv(w) && Enabled(w, a) && Shares(w.g, v) > (if a == Unpin(v) then 1 else 0)
    ensures SameMembers(w.g, Apply(w, a).g, v)
  {
    hide WorldInv, Enabled, Apply, Shares, Disposed;
    SharesStep(w, a, v);
    MembersUntouched(w, a, v);
    StepInv(w, a);
    HasShares(w.g, v);
    forall r | r in w.g.vals[v].refs
      ensures MemberStays(w.g, Apply(w, a).g, r)
    {
      TargetInUse(Apply(w, a), r);
    }
  }

  lemma HasShares(g: Ownership, v: Address)
    requires Shares(g, v) > 0
    ensures v in g.vals
  {
  }

  /** Nor is a singleton that a member of it points to lost: short of a clear, its key goes on leading to it. */
  lemma HeldValueKeepsChildren(w: World, a: Action, v: Address, r: Address)
    requires WorldInv(w) && Enabled(w, a) && Shares(w.g, v) > 0 && r in w.g.vals[v].refs && !a.Clear?
    ensures r in w.g.target && !Loses(w, a, w.g.target[r])
  {
    assert RefBelow(w.g, r, w.g.vals[v].rank);
    assert Grip(w.g, false, 1, r);
    assert Reach(w.g, false, 1, w.g.target[r]);
  }

  /** Over any stretch of a run in which more shares of a value were taken than given up it stays with its members. */
  lemma {:induction false} HeldValueStaysInRun(ws: seq<World>, acts: seq<Action>, i: nat, j: nat, v: Address)
    requires IsRun(ws, acts) && i <= j < |ws|
    requires forall m | i <= m <= j :: Taken(acts[..m], v) > GivenUp(acts[..m], v)
    ensures SameMembers(ws[i].g, ws[j].g, v)
  {
    hide WorldInv, Enabled, Apply, Shares, Taken, GivenUp, SameMembers;
    SharesInRun(ws, acts, j, v);
    RunInv(ws, acts, j);
    if i == j {
      MembersOfHeld(ws[j], v);
    } else {
      HeldValueStaysInRun(ws, acts, i, j - 1, v);
      SharesInRun(ws, acts, j - 1, v);
      RunInv(ws, acts, j - 1);
      assert Taken(acts[..j - 1], v) > GivenUp(acts[..j - 1], v);
      SharesStep(ws[j - 1], acts[j - 1], v);
      HeldValueStays(ws[j - 1], acts[j - 1], v);
      MembersTwice(ws[i].g, ws[j - 1].g, ws[j].g, v);
    }
  }

  /**
    A member of a value that stays held keeps the child its singleton is: short of a clear every get of the
    key returns the same singleton, whatever is dropped and collected in between.
   */
  lemma {:induction false} HeldValueKeepsGets(ws: seq<World>, acts: seq<Action>, i: nat, j: nat, v: Address, r: Address, key: Key)
    requires IsRun(ws, acts) && i <= j < |ws|
    requires forall m | i <= m <= j :: Taken(acts[..m], v) > GivenUp(acts[..m], v)
    requires forall m | i <= m < j :: !acts[m].Clear?
    requires v in ws[i].g.vals && r in ws[i].g.vals[v].refs && r in ws[i].g.target && Got(ws[i], key) == ws[i].g.target[r]
    ensures Got(ws[j], key) == Got(ws[i], key)
  {
    hide WorldInv, Enabled, Apply, Taken, GivenUp, Got, Loses, Shares, IsChild, Sound;
    RunInv(ws, acts, i);
    var o := ws[i].g.target[r];
    if i < j {
      HeldValueKeepsGets(ws, acts, i, j - 1, v, r, key);
      HeldValueStaysInRun(ws, acts, i, j - 1, v);
      assert MemberStays(ws[i].g, ws[j - 1].g, r);
      RunInv(ws, acts, j - 1);
      SharesInRun(ws, acts, j - 1, v);
      Below(ws[j - 1], o);
      HeldValueKeepsChildren(ws[j - 1], acts[j - 1], v, r);
      ChildStays(ws[j - 1], acts[j - 1], key, o);
      GotIsChild(ws[j - 1], key, o);
      GotIsChild(ws[j], key, o);
    }
  }

  lemma MembersOfHeld(w: World, v: Address)
    requires WorldInv(w) && Shares(w.g, v) > 0
    ensures SameMembers(w.g, w.g, v)
  {
    forall r | r in w.g.vals[v].refs
      ensures MemberStays(w.g, w.g, r)
    {
      assert RefBelow(w.g, r, w.g.vals[v].rank);
      TargetInUse(w, r);
    }
  }

  lemma MembersTwice(g: Ownership, h: Ownership, k: Ownership, v: Address)
    requires SameMembers(g, h, v) && SameMembers(h, k, v)
    ensures SameMembers(g, k, v)
  {
    forall r | r in g.vals[v].refs
      ensures MemberStays(g, k, r)
    {
      assert MemberStays(g, h, r) && MemberStays(h, k, r);
    }
  }
}
