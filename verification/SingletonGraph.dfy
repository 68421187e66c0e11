/**
  The ownership graph behind the singleton storage, on values.

  Nodes are singletons (identities `O`).  A singleton that finished its creation yields a value
  (identity `V`), shared by the singleton's future and by `pins` outside holders.  A Ref (identity
  `R`) points to a singleton; it is either a member of a value or external.  Only live, non-null
  Refs appear in `target`, only live singletons in `objs` and only live values in `vals`.

  A reference count is not stored here: it is the number of Refs to the singleton, `|RefsTo(g, o)|`.
 */
module SingletonGraph {
  import opened Basics

  type Key = string

  /** `rank` is a topological rank: the Refs of a value point to singletons of a lower rank. */
  datatype Node<V> = Node(key: Key, rank: nat, attached: bool, value: Option<V>)

  datatype Held<O, R> = Held(refs: set<R>, rank: nat, owner: Option<O>, pins: nat)

  datatype Graph<O(==), V(==), R(==)> = Graph(objs: map<O, Node<V>>, vals: map<V, Held<O, R>>, target: map<R, O>)

  ghost function RefsTo<O, V, R>(g: Graph<O, V, R>, o: O): set<R> {
    set r | r in g.target && g.target[r] == o
  }

  /** A live Ref that is no member of a value: held by a client, a request cache or a running creation. */
  ghost predicate External<O, V, R>(g: Graph<O, V, R>, r: R) {
    r in g.target && forall v | v in g.vals :: r !in g.vals[v].refs
  }

  ghost predicate OwnerIn<O, R>(h: Held<O, R>, K: set<O>) {
    h.owner.Some? && h.owner.value in K
  }

  /** Each Ref is a member of at most one value. */
  ghost predicate OneHolder<O, V, R>(g: Graph<O, V, R>) {
    forall v, w, r | v in g.vals && w in g.vals && r in g.vals[v].refs && r in g.vals[w].refs :: v == w
  }

  ghost predicate TargetsLive<O, V, R>(g: Graph<O, V, R>) {
    forall r | r in g.target :: g.target[r] in g.objs
  }

  /** Value-held Refs are live and go down in rank: the dependencies are acyclic. */
  ghost predicate RefsDown<O, V, R>(g: Graph<O, V, R>) {
    forall v, r | v in g.vals && r in g.vals[v].refs :: RefBelow(g, r, g.vals[v].rank)
  }

  ghost predicate RefBelow<O, V, R>(g: Graph<O, V, R>, r: R, rank: nat) {
    r in g.target && g.target[r] in g.objs && g.objs[g.target[r]].rank < rank
  }

  /** A singleton and the value its future holds name each other. */
  ghost predicate OwnersMatch<O, V, R>(g: Graph<O, V, R>) {
    && (forall v | v in g.vals && g.vals[v].owner.Some? ::
          var o := g.vals[v].owner.value;
          o in g.objs && g.objs[o].value == Some(v) && g.objs[o].rank == g.vals[v].rank)
    && (forall o | o in g.objs && g.objs[o].value.Some? ::
          var v := g.objs[o].value.value;
          v in g.vals && g.vals[v].owner == Some(o))
  }

  ghost predicate WellFormed<O, V, R>(g: Graph<O, V, R>) {
    OneHolder(g) && TargetsLive(g) && RefsDown(g) && OwnersMatch(g)
  }

  /** A value lives as long as its singleton or an outside holder keeps it. */
  ghost predicate ValuesHeld<O, V, R>(g: Graph<O, V, R>) {
    forall v | v in g.vals :: g.vals[v].owner.Some? || g.vals[v].pins > 0
  }

  /** No detached singleton lingers without a Ref. */
  ghost predicate Tidy<O, V, R>(g: Graph<O, V, R>) {
    forall o | o in g.objs && !g.objs[o].attached :: RefsTo(g, o) != {}
  }

  ghost predicate Inv<O, V, R>(g: Graph<O, V, R>) {
    WellFormed(g) && ValuesHeld(g) && Tidy(g)
  }

  /** The zero-count attached singletons: what the storage's disposed set must be. */
  ghost function Disposed<O, V, R>(g: Graph<O, V, R>): set<O> {
    set o | o in g.objs && g.objs[o].attached && RefsTo(g, o) == {}
  }

  // ---------------------------------------------------------------- reachability

  /**
    `o` is reachable from the roots over at most `n` Refs.  Roots are the external Refs and the
    pinned values, and with `b` also every attached singleton.
   */
  ghost predicate Reach<O, V, R>(g: Graph<O, V, R>, b: bool, n: nat, o: O)
    decreases n, 1
  {
    o in g.objs &&
    ((b && g.objs[o].attached) || exists r | r in g.target :: g.target[r] == o && Grip(g, b, n, r))
  }

  /** `r` is external, or a member of a value that is pinned or belongs to a reachable singleton. */
  ghost predicate Grip<O, V, R>(g: Graph<O, V, R>, b: bool, n: nat, r: R)
    decreases n, 0
  {
    n > 0 &&
    (External(g, r) ||
     exists v | v in g.vals && r in g.vals[v].refs ::
       g.vals[v].pins > 0 || (g.vals[v].owner.Some? && Reach(g, b, n - 1, g.vals[v].owner.value)))
  }

  ghost predicate Reachable<O, V, R>(g: Graph<O, V, R>, b: bool, o: O) {
    exists n: nat :: Reach(g, b, n, o)
  }

  ghost function ReachSet<O, V, R>(g: Graph<O, V, R>, b: bool): set<O> {
    set o | o in g.objs && Reachable(g, b, o)
  }

  // ---------------------------------------------------------------- restriction

  ghost predicate ValueKept<O, V, R>(g: Graph<O, V, R>, K: set<O>, v: V)
    requires v in g.vals
  {
    g.vals[v].pins > 0 || OwnerIn(g.vals[v], K)
  }

  ghost predicate RefKept<O, V, R>(g: Graph<O, V, R>, K: set<O>, r: R) {
    forall v | v in g.vals && r in g.vals[v].refs :: ValueKept(g, K, v)
  }

  ghost function OwnedWithin<O, R>(h: Held<O, R>, K: set<O>): Held<O, R> {
    h.(owner := if OwnerIn(h, K) then h.owner else None)
  }

  /** The graph left when the singletons outside `K` die with the values and Refs only they keep. */
  ghost function Restrict<O, V, R>(g: Graph<O, V, R>, K: set<O>): Graph<O, V, R> {
    Graph(map o | o in g.objs && o in K :: g.objs[o],
          map v | v in g.vals && ValueKept(g, K, v) ::
            OwnedWithin(g.vals[v], K),
          map r | r in g.target && RefKept(g, K, r) :: g.target[r])
  }

  /** No Ref that stays points outside `K`. */
  ghost predicate Closed<O, V, R>(g: Graph<O, V, R>, K: set<O>) {
    forall r | r in g.target && RefKept(g, K, r) :: g.target[r] in K
  }

  /** What is left when unreachable detached singletons have deleted themselves. */
  ghost function Settle<O, V, R>(g: Graph<O, V, R>): Graph<O, V, R> {
    Restrict(g, ReachSet(g, true))
  }

  /** Tracing collection: only what external Refs and pinned values reach survives. */
  ghost function Sweep<O, V, R>(g: Graph<O, V, R>): Graph<O, V, R> {
    Restrict(g, ReachSet(g, false))
  }

  /** The singleton `o` is deleted, with everything its deletion cascades into. */
  ghost function AfterDelete<O, V, R>(g: Graph<O, V, R>, o: O): Graph<O, V, R> {
    Settle(Restrict(g, g.objs.Keys - {o}))
  }

  ghost function Without<O, V, R>(g: Graph<O, V, R>, rs: set<R>): Graph<O, V, R> {
    g.(target := g.target - rs)
  }

  // ---------------------------------------------------------------- laws of restriction

  lemma RestrictTwice<O, V, R>(g: Graph<O, V, R>, K: set<O>, L: set<O>)
    requires L <= K
    ensures Restrict(Restrict(g, K), L) == Restrict(g, L)
  {
    var h := Restrict(g, K);
    forall v | v in g.vals
      ensures v in h.vals && ValueKept(h, L, v) <==> ValueKept(g, L, v)
    {
    }
    forall r | r in g.target
      ensures r in h.target && RefKept(h, L, r) <==> RefKept(g, L, r)
    {
      if RefKept(g, L, r) {
        forall v | v in g.vals && r in g.vals[v].refs
          ensures ValueKept(g, K, v)
        {
          assert ValueKept(g, L, v);
        }
        assert RefKept(g, K, r);
      } else if r in h.target {
        var v :| v in g.vals && r in g.vals[v].refs && !ValueKept(g, L, v);
        assert ValueKept(g, K, v);
        assert v in h.vals && r in h.vals[v].refs && !ValueKept(h, L, v);
      }
    }
    assert Restrict(h, L).target == Restrict(g, L).target;
    assert Restrict(h, L).vals == Restrict(g, L).vals;
    assert Restrict(h, L).objs == Restrict(g, L).objs;
  }

  lemma RestrictAll<O, V, R>(g: Graph<O, V, R>)
    requires WellFormed(g) && ValuesHeld(g)
    ensures Restrict(g, g.objs.Keys) == g
  {
    var h := Restrict(g, g.objs.Keys);
    forall v | v in g.vals
      ensures ValueKept(g, g.objs.Keys, v) && v in h.vals && h.vals[v] == g.vals[v]
    {
      if g.vals[v].owner.Some? {
        assert g.vals[v].owner.value in g.objs;
      }
    }
    assert h.objs == g.objs;
    assert h.vals == g.vals;
    assert h.target == g.target;
  }

  lemma RestrictWellFormed<O, V, R>(g: Graph<O, V, R>, K: set<O>)
    requires WellFormed(g) && Closed(g, K)
    ensures WellFormed(Restrict(g, K)) && ValuesHeld(Restrict(g, K))
  {
    var h := Restrict(g, K);
    RestrictRefsDown(g, K);
    RestrictOwnersMatch(g, K);
    assert OneHolder(h);
    assert TargetsLive(h);
  }

  lemma HolderKeepsRef<O, V, R>(g: Graph<O, V, R>, K: set<O>, v: V, r: R)
    requires OneHolder(g) && v in g.vals && r in g.vals[v].refs && ValueKept(g, K, v)
    ensures RefKept(g, K, r)
  {
  }

  lemma RestrictRefsDown<O, V, R>(g: Graph<O, V, R>, K: set<O>)
    requires OneHolder(g) && TargetsLive(g) && RefsDown(g) && Closed(g, K)
    ensures RefsDown(Restrict(g, K))
  {
    var h := Restrict(g, K);
    forall v, r | v in h.vals && r in h.vals[v].refs
      ensures RefBelow(h, r, h.vals[v].rank)
    {
      assert RefBelow(g, r, g.vals[v].rank);
      HolderKeepsRef(g, K, v, r);
      assert g.target[r] in K;
    }
  }

  lemma RestrictOwnersMatch<O, V, R>(g: Graph<O, V, R>, K: set<O>)
    requires OwnersMatch(g)
    ensures OwnersMatch(Restrict(g, K))
  {
  }

  lemma ReachSetClosed<O, V, R>(g: Graph<O, V, R>, b: bool)
    requires WellFormed(g)
    ensures Closed(g, ReachSet(g, b))
  {
    var K := ReachSet(g, b);
    forall r | r in g.target && RefKept(g, K, r)
      ensures g.target[r] in K
    {
      KeptRefReaches(g, b, r);
    }
  }

  lemma KeptRefReaches<O, V, R>(g: Graph<O, V, R>, b: bool, r: R)
    requires WellFormed(g) && r in g.target && RefKept(g, ReachSet(g, b), r)
    ensures Reachable(g, b, g.target[r])
  {
    var n: nat := 1;
    if !External(g, r) {
      var v :| v in g.vals && r in g.vals[v].refs;
      assert ValueKept(g, ReachSet(g, b), v);
      if g.vals[v].pins == 0 {
        var m: nat :| Reach(g, b, m, g.vals[v].owner.value);
        n := m + 1;
      }
    }
    assert Grip(g, b, n, r);
    assert Reach(g, b, n, g.target[r]);
  }

  /** Dropping unreachable singletons does not change who is reachable. */
  lemma {:induction false} ReachInRestrict<O, V, R>(g: Graph<O, V, R>, b: bool, K: set<O>, n: nat, o: O)
    requires OneHolder(g) && ReachSet(g, b) <= K
    ensures Reach(g, b, n, o) ==> Reach(Restrict(g, K), b, n, o)
    decreases n
  {
    var h := Restrict(g, K);
    if Reach(g, b, n, o) {
      assert o in ReachSet(g, b);
      if !(b && g.objs[o].attached) {
        var r :| r in g.target && g.target[r] == o && Grip(g, b, n, r);
        if External(g, r) {
          assert r in h.target && External(h, r);
        } else {
          var v :| v in g.vals && r in g.vals[v].refs &&
            (g.vals[v].pins > 0 || (g.vals[v].owner.Some? && Reach(g, b, n - 1, g.vals[v].owner.value)));
          if g.vals[v].pins == 0 {
            var p := g.vals[v].owner.value;
            ReachInRestrict(g, b, K, n - 1, p);
            assert p in ReachSet(g, b);
          }
          assert v in h.vals && RefKept(g, K, r);
        }
        assert Grip(h, b, n, r);
      }
    }
  }

  lemma {:induction false} ReachFromRestrict<O, V, R>(g: Graph<O, V, R>, b: bool, K: set<O>, n: nat, o: O)
    ensures Reach(Restrict(g, K), b, n, o) ==> Reach(g, b, n, o)
    decreases n
  {
    var h := Restrict(g, K);
    if Reach(h, b, n, o) && !(b && h.objs[o].attached) {
      var r :| r in h.target && h.target[r] == o && Grip(h, b, n, r);
      if External(h, r) {
        forall v | v in g.vals
          ensures r !in g.vals[v].refs
        {
          assert ValueKept(g, K, v) ==> v in h.vals && h.vals[v].refs == g.vals[v].refs;
        }
      } else {
        var v :| v in h.vals && r in h.vals[v].refs &&
          (h.vals[v].pins > 0 || (h.vals[v].owner.Some? && Reach(h, b, n - 1, h.vals[v].owner.value)));
        if h.vals[v].pins == 0 {
          ReachFromRestrict(g, b, K, n - 1, h.vals[v].owner.value);
        }
      }
      assert Grip(g, b, n, r);
    }
  }

  lemma ReachSetRestrict<O, V, R>(g: Graph<O, V, R>, b: bool, K: set<O>)
    requires OneHolder(g) && ReachSet(g, b) <= K
    ensures ReachSet(Restrict(g, K), b) == ReachSet(g, b)
  {
    var h := Restrict(g, K);
    forall o | o in g.objs
      ensures o in ReachSet(h, b) <==> o in ReachSet(g, b)
    {
      if o in ReachSet(g, b) {
        var n: nat :| Reach(g, b, n, o);
        ReachInRestrict(g, b, K, n, o);
      }
      if o in ReachSet(h, b) {
        var n: nat :| Reach(h, b, n, o);
        ReachFromRestrict(g, b, K, n, o);
      }
    }
  }

  /** A singleton without Refs is unreachable (unless attached singletons count as roots). */
  lemma NoRefsUnreachable<O, V, R>(g: Graph<O, V, R>, b: bool, o: O)
    requires o in g.objs && RefsTo(g, o) == {} && !(b && g.objs[o].attached)
    ensures o !in ReachSet(g, b)
  {
    assert forall r | r in g.target :: g.target[r] == o ==> r in RefsTo(g, o);
  }

  ghost function RankedAbove<O, V, R>(g: Graph<O, V, R>, o: O): set<O>
    requires o in g.objs
  {
    set p | p in g.objs && g.objs[p].rank > g.objs[o].rank
  }

  lemma FewerAbove<O, V, R>(g: Graph<O, V, R>, o: O, p: O)
    requires o in g.objs && p in g.objs && g.objs[o].rank < g.objs[p].rank
    ensures |RankedAbove(g, p)| < |RankedAbove(g, o)|
  {
    assert p in RankedAbove(g, o) && p !in RankedAbove(g, p);
    SubsetSize(RankedAbove(g, p), RankedAbove(g, o));
  }

  /** With ranks, "every singleton has a Ref" is enough for everything to be reachable: there are no cycles. */
  lemma {:induction false} AllReferencedAllReached<O, V, R>(g: Graph<O, V, R>, b: bool, o: O)
    requires WellFormed(g) && ValuesHeld(g) && o in g.objs
    requires forall p | p in g.objs :: RefsTo(g, p) != {} || (b && g.objs[p].attached)
    ensures Reachable(g, b, o)
    decreases |RankedAbove(g, o)|
  {
    if b && g.objs[o].attached {
      assert Reach(g, b, 0, o);
    } else {
      var r :| r in RefsTo(g, o);
      var n: nat := 1;
      if !External(g, r) {
        var v :| v in g.vals && r in g.vals[v].refs;
        if g.vals[v].pins == 0 {
          var p := g.vals[v].owner.value;
          FewerAbove(g, o, p);
          AllReferencedAllReached(g, b, p);
          var m: nat :| Reach(g, b, m, p);
          n := m + 1;
        }
      }
      assert Grip(g, b, n, r);
      assert Reach(g, b, n, o);
    }
  }

  lemma AllReferenced<O, V, R>(g: Graph<O, V, R>, b: bool)
    requires WellFormed(g) && ValuesHeld(g)
    requires forall p | p in g.objs :: RefsTo(g, p) != {} || (b && g.objs[p].attached)
    ensures ReachSet(g, b) == g.objs.Keys
    ensures Restrict(g, ReachSet(g, b)) == g
  {
    forall o | o in g.objs
      ensures Reachable(g, b, o)
    {
      AllReferencedAllReached(g, b, o);
    }
    assert ReachSet(g, b) == g.objs.Keys;
    RestrictAll(g);
  }

  lemma {:induction false} ReachMoreRoots<O, V, R>(g: Graph<O, V, R>, n: nat, o: O)
    ensures Reach(g, false, n, o) ==> Reach(g, true, n, o)
    decreases n
  {
    if Reach(g, false, n, o) && !g.objs[o].attached {
      var r :| r in g.target && g.target[r] == o && Grip(g, false, n, r);
      if !External(g, r) {
        var v :| v in g.vals && r in g.vals[v].refs &&
          (g.vals[v].pins > 0 || (g.vals[v].owner.Some? && Reach(g, false, n - 1, g.vals[v].owner.value)));
        if g.vals[v].pins == 0 {
          ReachMoreRoots(g, n - 1, g.vals[v].owner.value);
        }
      }
      assert Grip(g, true, n, r);
    }
  }

  lemma ReachSetMoreRoots<O, V, R>(g: Graph<O, V, R>)
    ensures ReachSet(g, false) <= ReachSet(g, true)
  {
    forall o | o in ReachSet(g, false)
      ensures o in ReachSet(g, true)
    {
      var n: nat :| Reach(g, false, n, o);
      ReachMoreRoots(g, n, o);
    }
  }

  /** A reachable singleton that is no root itself keeps a Ref when everything unreachable dies. */
  lemma ReachedKeepsRef<O, V, R>(g: Graph<O, V, R>, b: bool, o: O)
    requires OneHolder(g) && o in ReachSet(g, b) && !(b && g.objs[o].attached)
    ensures RefsTo(Restrict(g, ReachSet(g, b)), o) != {}
  {
    var K := ReachSet(g, b);
    var n: nat :| Reach(g, b, n, o);
    var r :| r in g.target && g.target[r] == o && Grip(g, b, n, r);
    forall v | v in g.vals && r in g.vals[v].refs
      ensures ValueKept(g, K, v)
    {
      var w :| w in g.vals && r in g.vals[w].refs &&
        (g.vals[w].pins > 0 || (g.vals[w].owner.Some? && Reach(g, b, n - 1, g.vals[w].owner.value)));
      assert v == w;
    }
    assert RefKept(g, K, r);
    assert r in RefsTo(Restrict(g, K), o);
  }

  /** Settling gives a state that keeps every invariant, and does nothing to one that has them. */
  lemma SettleInv<O, V, R>(g: Graph<O, V, R>)
    requires WellFormed(g)
    ensures Inv(Settle(g))
  {
    ReachSetClosed(g, true);
    RestrictWellFormed(g, ReachSet(g, true));
    forall o | o in Settle(g).objs && !g.objs[o].attached
      ensures RefsTo(Settle(g), o) != {}
    {
      ReachedKeepsRef(g, true, o);
    }
  }

  lemma SettleDone<O, V, R>(g: Graph<O, V, R>)
    requires Inv(g)
    ensures Settle(g) == g && ReachSet(g, true) == g.objs.Keys
  {
    AllReferenced(g, true);
  }

  /** After a tracing collection nothing is left to dispose of, and another one changes nothing. */
  lemma SweepInv<O, V, R>(g: Graph<O, V, R>)
    requires WellFormed(g)
    ensures Inv(Sweep(g)) && Disposed(Sweep(g)) == {}
    ensures Sweep(Sweep(g)) == Sweep(g)
  {
    var K := ReachSet(g, false);
    ReachSetClosed(g, false);
    RestrictWellFormed(g, K);
    forall o | o in Sweep(g).objs
      ensures RefsTo(Sweep(g), o) != {}
    {
      ReachedKeepsRef(g, false, o);
    }
    AllReferenced(Sweep(g), false);
  }

  // ---------------------------------------------------------------- dropping external Refs

  ghost predicate AllExternal<O, V, R>(g: Graph<O, V, R>, rs: set<R>) {
    forall r | r in rs :: External(g, r)
  }

  lemma WithoutWellFormed<O, V, R>(g: Graph<O, V, R>, rs: set<R>)
    requires WellFormed(g) && AllExternal(g, rs)
    ensures WellFormed(Without(g, rs))
  {
    var h := Without(g, rs);
    forall v, r | v in h.vals && r in h.vals[v].refs
      ensures RefBelow(h, r, h.vals[v].rank)
    {
      assert RefBelow(g, r, g.vals[v].rank);
    }
  }

  lemma {:induction false} ReachWithout<O, V, R>(g: Graph<O, V, R>, b: bool, rs: set<R>, n: nat, o: O)
    ensures Reach(Without(g, rs), b, n, o) ==> Reach(g, b, n, o)
    decreases n
  {
    var h := Without(g, rs);
    if Reach(h, b, n, o) && !(b && h.objs[o].attached) {
      var r :| r in h.target && h.target[r] == o && Grip(h, b, n, r);
      if !External(h, r) {
        var v :| v in h.vals && r in h.vals[v].refs &&
          (h.vals[v].pins > 0 || (h.vals[v].owner.Some? && Reach(h, b, n - 1, h.vals[v].owner.value)));
        if h.vals[v].pins == 0 {
          ReachWithout(g, b, rs, n - 1, h.vals[v].owner.value);
        }
      }
      assert Grip(g, b, n, r);
    }
  }

  lemma WithoutRestrict<O, V, R>(g: Graph<O, V, R>, K: set<O>, rs: set<R>)
    requires AllExternal(g, rs)
    ensures Without(Restrict(g, K), rs) == Restrict(Without(g, rs), K)
    ensures AllExternal(Restrict(g, K), rs)
  {
    var h := Without(g, rs);
    forall r
      ensures RefKept(g, K, r) <==> RefKept(h, K, r)
    {
    }
    assert Without(Restrict(g, K), rs).target == Restrict(h, K).target;
    forall r | r in rs
      ensures External(Restrict(g, K), r)
    {
      assert External(g, r);
      assert RefKept(g, K, r);
    }
  }

  /** Settling early makes no difference: cascades commute with the Refs still to be dropped. */
  lemma SettleWithout<O, V, R>(g: Graph<O, V, R>, rs: set<R>)
    requires WellFormed(g) && AllExternal(g, rs)
    ensures AllExternal(Settle(g), rs)
    ensures Settle(Without(Settle(g), rs)) == Settle(Without(g, rs))
  {
    var K := ReachSet(g, true);
    var h := Without(g, rs);
    WithoutRestrict(g, K, rs);
    WithoutWellFormed(g, rs);
    forall o | o in ReachSet(h, true)
      ensures o in K
    {
      var n: nat :| Reach(h, true, n, o);
      ReachWithout(g, true, rs, n, o);
    }
    SettleRestrict(h, K);
  }

  lemma SettleRestrict<O, V, R>(g: Graph<O, V, R>, K: set<O>)
    requires OneHolder(g) && ReachSet(g, true) <= K
    ensures Settle(Restrict(g, K)) == Settle(g)
  {
    ReachSetRestrict(g, true, K);
    RestrictTwice(g, K, ReachSet(g, true));
  }

  // ---------------------------------------------------------------- deleting one singleton

  ghost function FreedRefs<O, V, R>(g: Graph<O, V, R>, o: O): set<R>
    requires WellFormed(g) && o in g.objs
  {
    match g.objs[o].value
    case None => {}
    case Some(v) => if g.vals[v].pins == 0 then g.vals[v].refs else {}
  }

  /** `o` is gone; its value dies with it unless it is pinned, and a dead value's Refs become external. */
  ghost function Unlink<O, V, R>(g: Graph<O, V, R>, o: O): Graph<O, V, R>
    requires WellFormed(g) && o in g.objs
  {
    match g.objs[o].value
    case None => g.(objs := g.objs - {o})
    case Some(v) =>
      if g.vals[v].pins == 0 then
        g.(objs := g.objs - {o}, vals := g.vals - {v})
      else
        g.(objs := g.objs - {o}, vals := g.vals[v := g.vals[v].(owner := None)])
  }

  lemma UnlinkWellFormed<O, V, R>(g: Graph<O, V, R>, o: O)
    requires WellFormed(g) && ValuesHeld(g) && o in g.objs && RefsTo(g, o) == {}
    ensures WellFormed(Unlink(g, o)) && ValuesHeld(Unlink(g, o))
    ensures AllExternal(Unlink(g, o), FreedRefs(g, o))
  {
    var h := Unlink(g, o);
    forall r | r in h.target
      ensures h.target[r] in h.objs
    {
      assert g.target[r] == o ==> r in RefsTo(g, o);
    }
    forall v, r | v in h.vals && r in h.vals[v].refs
      ensures RefBelow(h, r, h.vals[v].rank)
    {
      assert RefBelow(g, r, g.vals[v].rank);
    }
    assert OwnersMatch(h);
    forall r | r in FreedRefs(g, o)
      ensures External(h, r)
    {
      var v := g.objs[o].value.value;
      assert RefBelow(g, r, g.vals[v].rank);
    }
  }

  lemma UnlinkRestrictValues<O, V, R>(g: Graph<O, V, R>, o: O)
    requires WellFormed(g) && ValuesHeld(g) && o in g.objs && RefsTo(g, o) == {}
    ensures Unlink(g, o).vals == Restrict(g, g.objs.Keys - {o}).vals
  {
    var K := g.objs.Keys - {o};
    forall v | v in g.vals
      ensures v in Unlink(g, o).vals <==> ValueKept(g, K, v)
      ensures v in Unlink(g, o).vals ==> Unlink(g, o).vals[v] == OwnedWithin(g.vals[v], K)
    {
      if g.vals[v].owner.Some? {
        assert g.vals[v].owner.value == o <==> g.objs[o].value == Some(v);
      }
    }
  }

  lemma UnlinkRestrictRefs<O, V, R>(g: Graph<O, V, R>, o: O)
    requires WellFormed(g) && ValuesHeld(g) && o in g.objs && RefsTo(g, o) == {}
    ensures g.target - FreedRefs(g, o) == Restrict(g, g.objs.Keys - {o}).target
  {
    var K := g.objs.Keys - {o};
    forall r | r in g.target
      ensures r !in FreedRefs(g, o) <==> RefKept(g, K, r)
    {
      if r in FreedRefs(g, o) {
        assert !ValueKept(g, K, g.objs[o].value.value);
      }
    }
  }

  lemma UnlinkRestrict<O, V, R>(g: Graph<O, V, R>, o: O)
    requires WellFormed(g) && ValuesHeld(g) && o in g.objs && RefsTo(g, o) == {}
    ensures Without(Unlink(g, o), FreedRefs(g, o)) == Restrict(g, g.objs.Keys - {o})
  {
    hide RefsTo, FreedRefs, RefKept, ValueKept, OneHolder, TargetsLive, RefsDown, OwnersMatch, ValuesHeld;
    UnlinkRestrictValues(g, o);
    UnlinkRestrictRefs(g, o);
    var h, k := Without(Unlink(g, o), FreedRefs(g, o)), Restrict(g, g.objs.Keys - {o});
    assert h.objs == k.objs && h.vals == k.vals && h.target == k.target;
  }

  // ---------------------------------------------------------------- the storage's two collections

  /**
    What ties the storage's collections to the graph, even in the middle of a collection.
    `loose` are singletons about to be deleted; `doomed` are the disposed ones a collection has
    already taken over.
   */
  ghost predicate Sound<O, V, R>(g: Graph<O, V, R>, children: map<Key, O>, disposed: set<O>, doomed: set<O>, loose: set<O>) {
    && WellFormed(g) && ValuesHeld(g)
    && (forall o | o in g.objs && !g.objs[o].attached :: o in loose || RefsTo(g, o) != {})
    && doomed <= Disposed(g) && disposed == Disposed(g) - doomed
    && (forall o | o in g.objs && g.objs[o].attached :: g.objs[o].key in children && children[g.objs[o].key] == o)
  }

  lemma SoundUnlink<O, V, R>(g: Graph<O, V, R>, children: map<Key, O>, disposed: set<O>, doomed: set<O>, o: O)
    requires Sound(g, children, disposed, doomed, {o})
    requires o in g.objs && RefsTo(g, o) == {} && (g.objs[o].attached ==> o in doomed)
    ensures Sound(Unlink(g, o), children, disposed, doomed - {o}, {})
  {
    UnlinkWellFormed(g, o);
    var h := Unlink(g, o);
    forall p
      ensures RefsTo(h, p) == RefsTo(g, p)
    {
    }
    assert Disposed(h) == Disposed(g) - {o};
  }

  /** One external Ref to `o` dies. */
  lemma SoundWithout<O, V, R>(g: Graph<O, V, R>, children: map<Key, O>, disposed: set<O>, doomed: set<O>, r: R, o: O)
    requires Sound(g, children, disposed, doomed, {}) && External(g, r) && o == g.target[r]
    ensures var h := Without(g, {r});
      && |RefsTo(h, o)| == |RefsTo(g, o)| - 1
      && o !in doomed
      && (forall p | p != o :: RefsTo(h, p) == RefsTo(g, p))
      && (RefsTo(h, o) != {} ==> Sound(h, children, disposed, doomed, {}))
      && (RefsTo(h, o) == {} && g.objs[o].attached ==> Sound(h, children, disposed + {o}, doomed, {}))
      && (RefsTo(h, o) == {} && !g.objs[o].attached ==> Sound(h, children, disposed, doomed, {o}))
  {
    var h := Without(g, {r});
    assert AllExternal(g, {r});
    WithoutWellFormed(g, {r});
    assert RefsTo(h, o) == RefsTo(g, o) - {r} && r in RefsTo(g, o);
    forall p | p != o
      ensures RefsTo(h, p) == RefsTo(g, p)
    {
    }
    if RefsTo(h, o) == {} && g.objs[o].attached {
      assert Disposed(h) == Disposed(g) + {o};
    } else {
      assert Disposed(h) == Disposed(g);
    }
  }

  lemma SoundInv<O, V, R>(g: Graph<O, V, R>, children: map<Key, O>, disposed: set<O>, doomed: set<O>)
    requires Sound(g, children, disposed, doomed, {})
    ensures WellFormed(g) && Inv(g) && Settle(g) == g
  {
    SettleDone(g);
  }

  lemma WithoutTwice<O, V, R>(g: Graph<O, V, R>, rs: set<R>, r: R)
    ensures Without(Without(g, rs), {r}) == Without(g, rs + {r})
  {
    assert g.target - rs - {r} == g.target - (rs + {r});
  }

  lemma WithoutNone<O, V, R>(g: Graph<O, V, R>)
    ensures Without(g, {}) == g
  {
    assert g.target - {} == g.target;
  }

  lemma UnlinkCounts<O, V, R>(g: Graph<O, V, R>, o: O)
    requires WellFormed(g) && o in g.objs
    ensures forall p :: RefsTo(Unlink(g, o), p) == RefsTo(g, p)
  {
  }

  /** One step of dropping external Refs one by one, each drop settling before the next. */
  lemma SettleWithoutMore<O, V, R>(g: Graph<O, V, R>, done: set<R>, r: R)
    requires WellFormed(g) && AllExternal(g, done + {r}) && r !in done
    ensures External(Settle(Without(g, done)), r)
    ensures Settle(Without(g, done)).objs.Keys <= g.objs.Keys
    ensures Settle(Without(Settle(Without(g, done)), {r})) == Settle(Without(g, done + {r}))
  {
    var h := Without(g, done);
    assert AllExternal(g, done);
    WithoutWellFormed(g, done);
    assert External(g, r);
    assert External(h, r);
    assert AllExternal(h, {r});
    SettleWithout(h, {r});
    WithoutTwice(g, done, r);
  }

  /** A detached singleton that just lost its last Ref may be deleted at once. */
  lemma DetachedDelete<O, V, R>(g: Graph<O, V, R>, o: O)
    requires WellFormed(g) && o in g.objs && !g.objs[o].attached && RefsTo(g, o) == {}
    ensures AfterDelete(g, o) == Settle(g)
  {
    NoRefsUnreachable(g, true, o);
    SettleRestrict(g, g.objs.Keys - {o});
  }

  lemma SoundWellFormed<O, V, R>(g: Graph<O, V, R>, children: map<Key, O>, disposed: set<O>, doomed: set<O>, loose: set<O>)
    requires Sound(g, children, disposed, doomed, loose)
    ensures WellFormed(g) && ValuesHeld(g)
  {
  }

  lemma WellFormedOwners<O, V, R>(g: Graph<O, V, R>)
    requires WellFormed(g)
    ensures OwnersMatch(g)
  {
  }
}
