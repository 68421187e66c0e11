/**
  What one collection does to the ownership graph: the garbage, the chains inside it, and why
  cascading rounds of reference-count deletions end in the tracing collection `Sweep`.
 */
module SingletonCollection {
  import opened Basics
  import opened SingletonGraph

  /** What no external Ref and no pinned value reaches. */
  ghost function Garbage<O, V, R>(g: Graph<O, V, R>): set<O> {
    g.objs.Keys - ReachSet(g, false)
  }

  /** The value of `p` has a Ref to `o`. */
  ghost predicate Holds<O, V, R>(g: Graph<O, V, R>, p: O, o: O) {
    exists v, r | v in g.vals && r in g.vals[v].refs :: g.vals[v].owner == Some(p) && r in g.target && g.target[r] == o
  }

  ghost function Weight<O, V, R>(g: Graph<O, V, R>, o: O): nat
    requires o in g.objs
  {
    if g.objs[o].attached then 1 else 0
  }

  /** A chain of `len` singletons in the garbage, each holding the next, ends in `o`; `n` of them are attached. */
  ghost predicate ChainTo<O, V, R>(g: Graph<O, V, R>, o: O, len: nat, n: nat)
    decreases len
  {
    && len > 0 && o in Garbage(g) && n >= Weight(g, o)
    && (if len == 1 then n == Weight(g, o)
        else exists p | p in g.objs :: Holds(g, p, o) && ChainTo(g, p, len - 1, n - Weight(g, o)))
  }

  /** The most attached singletons on any chain of dependent garbage. */
  ghost predicate LongestChain<O, V, R>(g: Graph<O, V, R>, n: nat) {
    && (forall o, len: nat, m: nat | o in g.objs && ChainTo(g, o, len, m) :: m <= n)
    && (n > 0 ==> exists o, len: nat | o in g.objs :: ChainTo(g, o, len, n))
  }

  /** `g` is what is left of `g0` after some garbage was deleted. */
  ghost predicate Pruned<O, V, R>(g0: Graph<O, V, R>, g: Graph<O, V, R>) {
    && g == Restrict(g0, g.objs.Keys)
    && ReachSet(g0, false) <= g.objs.Keys <= g0.objs.Keys
  }

  lemma PrunedSelf<O, V, R>(g: Graph<O, V, R>)
    requires WellFormed(g) && ValuesHeld(g)
    ensures Pruned(g, g)
  {
    RestrictAll(g);
  }

  lemma PrunedReach<O, V, R>(g0: Graph<O, V, R>, g: Graph<O, V, R>)
    requires WellFormed(g0) && Pruned(g0, g)
    ensures ReachSet(g, false) == ReachSet(g0, false)
  {
    ReachSetRestrict(g0, false, g.objs.Keys);
  }

  /** Deleting a zero-count singleton, with all it cascades into, deletes only garbage and no other attached singleton. */
  lemma PrunedDelete<O, V, R>(g0: Graph<O, V, R>, g: Graph<O, V, R>, o: O)
    requires WellFormed(g0) && WellFormed(g) && Pruned(g0, g) && o in g.objs && RefsTo(g, o) == {}
    ensures Pruned(g0, AfterDelete(g, o)) && o !in AfterDelete(g, o).objs
    ensures AfterDelete(g, o) == Restrict(g, AfterDelete(g, o).objs.Keys)
    ensures AfterDelete(g, o).objs.Keys <= g.objs.Keys
    ensures forall p | p in g.objs && p != o && g.objs[p].attached :: p in AfterDelete(g, o).objs
    ensures forall p | p in AfterDelete(g, o).objs :: AfterDelete(g, o).objs[p] == g.objs[p]
  {
    var K := g.objs.Keys - {o};
    var h := Restrict(g, K);
    var L := ReachSet(h, true);
    var g' := AfterDelete(g, o);
    assert h.objs.Keys == K;
    assert g'.objs.Keys == L;
    NoRefsUnreachable(g, false, o);
    PrunedReach(g0, g);
    ReachSetRestrict(g, false, K);
    ReachSetMoreRoots(h);
    RestrictTwice(g, K, L);
    RestrictTwice(g0, g.objs.Keys, L);
    forall p | p in g.objs && p != o && g.objs[p].attached
      ensures p in L
    {
      assert Reach(h, true, 0, p);
    }
  }

  /** When every survivor still has a Ref, exactly the garbage is gone. */
  lemma PrunedDone<O, V, R>(g0: Graph<O, V, R>, g: Graph<O, V, R>)
    requires WellFormed(g0) && Inv(g) && Pruned(g0, g) && Disposed(g) == {}
    ensures g == Sweep(g0)
  {
    forall o | o in g.objs
      ensures RefsTo(g, o) != {}
    {
      assert o in Disposed(g) <==> g.objs[o].attached && RefsTo(g, o) == {};
    }
    AllReferenced(g, false);
    PrunedReach(g0, g);
  }

  // ---------------------------------------------------------------- one round

  /** One round from `g` to `g'`: the disposed of `g` are gone, and so may be detached singletons, but nothing else. */
  ghost predicate Round<O, V, R>(g0: Graph<O, V, R>, g: Graph<O, V, R>, g': Graph<O, V, R>) {
    && Pruned(g0, g) && Pruned(g0, g')
    && Disposed(g) !! g'.objs.Keys
    && g'.objs.Keys <= g.objs.Keys
    && (forall o | o in g.objs && g.objs[o].attached && o !in Disposed(g) :: o in g'.objs)
  }

  /** In the middle of a round that started at `g`: `doomed` are still to be deleted. */
  ghost predicate MidRound<O, V, R>(g0: Graph<O, V, R>, g: Graph<O, V, R>, now: Graph<O, V, R>, doomed: set<O>) {
    && Pruned(g0, g) && Pruned(g0, now) && now.objs.Keys <= g.objs.Keys
    && doomed <= Disposed(g) && Disposed(g) - doomed !! now.objs.Keys
    && (forall o | o in g.objs && g.objs[o].attached && o !in Disposed(g) :: o in now.objs)
  }

  lemma MidRoundDelete<O, V, R>(g0: Graph<O, V, R>, g: Graph<O, V, R>, now: Graph<O, V, R>, doomed: set<O>, o: O)
    requires WellFormed(g0) && WellFormed(now) && MidRound(g0, g, now, doomed)
    requires o in doomed && o in now.objs && RefsTo(now, o) == {}
    ensures MidRound(g0, g, AfterDelete(now, o), doomed - {o})
    ensures o !in AfterDelete(now, o).objs
    ensures forall p | p in now.objs && p != o && now.objs[p].attached :: p in AfterDelete(now, o).objs
    ensures forall p | p in AfterDelete(now, o).objs :: p in now.objs && AfterDelete(now, o).objs[p] == now.objs[p]
  {
    hide WellFormed, Restrict, ReachSet, AfterDelete, RefsTo;
    PrunedDelete(g0, now, o);
    PrunedNodes(g0, g);
    PrunedNodes(g0, now);
  }

  lemma PrunedNodes<O, V, R>(g0: Graph<O, V, R>, g: Graph<O, V, R>)
    requires Pruned(g0, g)
    ensures forall o | o in g.objs :: o in g0.objs && g.objs[o] == g0.objs[o]
  {
  }

  /** After `k` rounds: no chain of more than `k` attached singletons ended in what is gone. */
  ghost predicate GoneBound<O, V, R>(g0: Graph<O, V, R>, g: Graph<O, V, R>, k: nat) {
    forall o, len: nat, m: nat | o in g0.objs && o !in g.objs && ChainTo(g0, o, len, m) :: m <= k
  }

  /** After `k` rounds: a chain of `k + 1` attached singletons ends in each of the newly disposed. */
  ghost predicate DueChain<O, V, R>(g0: Graph<O, V, R>, g: Graph<O, V, R>, k: nat) {
    forall o | o in Disposed(g) :: HasChain(g0, o, k + 1)
  }

  ghost predicate HasChain<O, V, R>(g: Graph<O, V, R>, o: O, n: nat) {
    exists len: nat :: ChainTo(g, o, len, n)
  }

  /** A deleted or zero-count singleton is held by no survivor. */
  lemma HolderGone<O, V, R>(g0: Graph<O, V, R>, g: Graph<O, V, R>, p: O, o: O)
    requires OneHolder(g0) && TargetsLive(g) && Pruned(g0, g) && Holds(g0, p, o)
    requires o !in g.objs || RefsTo(g, o) == {}
    ensures p !in g.objs
  {
    var v, r :| v in g0.vals && r in g0.vals[v].refs && g0.vals[v].owner == Some(p) && r in g0.target && g0.target[r] == o;
    if ValueKept(g0, g.objs.Keys, v) {
      HolderKeepsRef(g0, g.objs.Keys, v, r);
    }
    assert RefKept(g0, g.objs.Keys, r) ==> r in RefsTo(g, o);
  }

  /** A survivor that lost a Ref lost it with the singleton whose value held it. */
  lemma LostRefHolder<O, V, R>(g0: Graph<O, V, R>, g: Graph<O, V, R>, g': Graph<O, V, R>, r: R) returns (p: O)
    requires Pruned(g0, g) && Pruned(g0, g') && g'.objs.Keys <= g.objs.Keys && WellFormed(g) && ValuesHeld(g)
    requires r in g.target && r !in g'.target
    ensures p in g.objs && p !in g'.objs && g.objs[g.target[r]].rank < g.objs[p].rank && Holds(g0, p, g.target[r])
  {
    RestrictTwice(g0, g.objs.Keys, g'.objs.Keys);
    var v :| v in g.vals && r in g.vals[v].refs && !ValueKept(g, g'.objs.Keys, v);
    p := g.vals[v].owner.value;
    assert v in g0.vals && g0.vals[v].owner == Some(p) && r in g0.vals[v].refs && g0.target[r] == g.target[r];
    assert RefBelow(g, r, g.vals[v].rank);
  }

  lemma {:induction false} GoneBoundNext<O, V, R>(g0: Graph<O, V, R>, g: Graph<O, V, R>, g': Graph<O, V, R>, k: nat, o: O, len: nat, m: nat)
    requires OneHolder(g0) && TargetsLive(g) && TargetsLive(g') && Round(g0, g, g') && GoneBound(g0, g, k)
    requires o !in g'.objs && ChainTo(g0, o, len, m)
    ensures m <= k + 1
    decreases len
  {
    if o in g.objs && len > 1 {
      var p :| p in g0.objs && Holds(g0, p, o) && ChainTo(g0, p, len - 1, m - Weight(g0, o));
      if o in Disposed(g) {
        HolderGone(g0, g, p, o);
      } else {
        HolderGone(g0, g', p, o);
        GoneBoundNext(g0, g, g', k, p, len - 1, m);
      }
    }
  }

  lemma GoneBoundStep<O, V, R>(g0: Graph<O, V, R>, g: Graph<O, V, R>, g': Graph<O, V, R>, k: nat)
    requires OneHolder(g0) && TargetsLive(g) && TargetsLive(g') && Round(g0, g, g') && GoneBound(g0, g, k)
    ensures GoneBound(g0, g', k + 1)
  {
    forall o, len: nat, m: nat | o in g0.objs && o !in g'.objs && ChainTo(g0, o, len, m)
      ensures m <= k + 1
    {
      GoneBoundNext(g0, g, g', k, o, len, m);
    }
  }

  lemma ChainExtend<O, V, R>(g: Graph<O, V, R>, p: O, o: O, n: nat)
    requires p in g.objs && HasChain(g, p, n) && Holds(g, p, o) && o in Garbage(g)
    ensures HasChain(g, o, n + Weight(g, o))
  {
    var len: nat :| ChainTo(g, p, len, n);
    assert ChainTo(g, o, len + 1, n + Weight(g, o));
  }

  /** A detached singleton deleted by the cascade was held by one that is deleted, too. */
  lemma CascadeHolder<O, V, R>(g0: Graph<O, V, R>, g: Graph<O, V, R>, g': Graph<O, V, R>, o: O) returns (p: O)
    requires Inv(g) && Inv(g') && Round(g0, g, g')
    requires o in g.objs && o !in g'.objs && o !in Disposed(g)
    ensures p in g.objs && p !in g'.objs && g.objs[o].rank < g.objs[p].rank && Holds(g0, p, o)
    ensures p in g0.objs && o in Garbage(g0) && Weight(g0, o) == 0
  {
    var r :| r in RefsTo(g, o);
    p := LostRefHolder(g0, g, g', r);
  }

  /** Whatever a round deletes is at the end of a chain of `k + 1` attached singletons. */
  lemma {:induction false} GoneHasChain<O, V, R>(g0: Graph<O, V, R>, g: Graph<O, V, R>, g': Graph<O, V, R>, k: nat, o: O)
    requires WellFormed(g0) && Inv(g) && Inv(g') && Round(g0, g, g') && DueChain(g0, g, k)
    requires o in g.objs && o !in g'.objs
    ensures HasChain(g0, o, k + 1)
    decreases |RankedAbove(g, o)|
  {
    hide WellFormed, Inv, Round, ChainTo, HasChain, Holds;
    if o !in Disposed(g) {
      var p := CascadeHolder(g0, g, g', o);
      FewerAbove(g, o, p);
      GoneHasChain(g0, g, g', k, p);
      ChainExtend(g0, p, o, k + 1);
    }
  }

  lemma DueChainStep<O, V, R>(g0: Graph<O, V, R>, g: Graph<O, V, R>, g': Graph<O, V, R>, k: nat)
    requires WellFormed(g0) && Inv(g) && Inv(g') && Round(g0, g, g') && DueChain(g0, g, k)
    ensures DueChain(g0, g', k + 1)
  {
    forall o | o in Disposed(g')
      ensures HasChain(g0, o, k + 2)
    {
      assert o in g.objs && g.objs[o] == g0.objs[o] == g'.objs[o];
      var r :| r in RefsTo(g, o);
      assert r in g'.target ==> r in RefsTo(g', o);
      var p := LostRefHolder(g0, g, g', r);
      GoneHasChain(g0, g, g', k, p);
      NoRefsUnreachable(g', false, o);
      PrunedReach(g0, g');
      ChainExtend(g0, p, o, k + 1);
    }
  }

  lemma DueChainStart<O, V, R>(g: Graph<O, V, R>)
    ensures DueChain(g, g, 0) && GoneBound(g, g, 0)
  {
    forall o | o in Disposed(g)
      ensures HasChain(g, o, 1)
    {
      NoRefsUnreachable(g, false, o);
      assert ChainTo(g, o, 1, 1);
    }
  }

  /** Once nothing is disposed, the number of productive rounds is the length of the longest chain. */
  lemma RoundsAreLongestChain<O, V, R>(g0: Graph<O, V, R>, g: Graph<O, V, R>, k: nat)
    requires WellFormed(g0) && g == Sweep(g0) && GoneBound(g0, g, k)
    requires k > 0 ==> exists o | o in g0.objs :: HasChain(g0, o, k)
    ensures LongestChain(g0, k)
  {
    forall o, len: nat, m: nat | o in g0.objs && ChainTo(g0, o, len, m)
      ensures m <= k
    {
      assert o in Garbage(g0);
    }
    if k > 0 {
      var o :| o in g0.objs && HasChain(g0, o, k);
      var len: nat :| ChainTo(g0, o, len, k);
    }
  }
}
