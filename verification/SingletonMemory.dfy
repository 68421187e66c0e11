/**
  The memory behind the singleton storage: counters, deletion and the loops of a collection.

  Dafny objects cannot be deleted, so the C++ heap is explicit: a `Memory` maps addresses to the
  live singletons, the live values their futures yield and the live non-null Refs.  `delete` removes
  an address; code that still touched it would fail its precondition.  Memory, children and disposed
  set are passed in and out; `SingletonStorages.SingletonStorage` keeps them in its fields.
  The ghost graph is what counters, pointers and collections must agree with.
 */
module SingletonMemory {
  import opened Basics
  import opened SingletonGraph
  import opened SingletonCollection
  import opened SingletonRuns

  /** `attached` is whether m_storage is set. */
  datatype Singleton = Singleton(key: Key, attached: bool, refCount: nat, value: Option<Address>)

  /** A value is shared: `useCount` counts its singleton's future and the outside holders. */
  datatype ResultValue = ResultValue(refs: set<Address>, useCount: nat)

  datatype Memory = Memory(heap: map<Address, Singleton>, values: map<Address, ResultValue>, refs: map<Address, Address>)

  ghost function SingletonOf(g: Ownership, o: Address): Singleton
    requires o in g.objs
  {
    Singleton(g.objs[o].key, g.objs[o].attached, |RefsTo(g, o)|, g.objs[o].value)
  }

  ghost function ValueOf(g: Ownership, v: Address): ResultValue
    requires v in g.vals
  {
    ResultValue(g.vals[v].refs, g.vals[v].pins + (if g.vals[v].owner.Some? then 1 else 0))
  }

  /** Every field on the heap says what the graph says; every counter is the number of live Refs. */
  ghost predicate Linked(m: Memory, g: Ownership) {
    && m.refs == g.target
    && m.heap.Keys == g.objs.Keys && m.values.Keys == g.vals.Keys
    && (forall o | o in m.heap :: m.heap[o] == SingletonOf(g, o))
    && (forall v | v in m.values :: m.values[v] == ValueOf(g, v))
  }

  // ---------------------------------------------------------------- steps of a deletion

  /** Ref `r` dies: it is forgotten and its singleton counts one less. */
  function Forget(m: Memory, r: Address): Memory
    requires r in m.refs && m.refs[r] in m.heap && m.heap[m.refs[r]].refCount > 0
  {
    var o := m.refs[r];
    m.(refs := m.refs - {r}, heap := m.heap[o := m.heap[o].(refCount := m.heap[o].refCount - 1)])
  }

  lemma CountsForget(g: Ownership, r: Address)
    requires r in g.target
    ensures |RefsTo(Without(g, {r}), g.target[r])| == |RefsTo(g, g.target[r])| - 1
    ensures forall p | p != g.target[r] :: RefsTo(Without(g, {r}), p) == RefsTo(g, p)
  {
    assert r in RefsTo(g, g.target[r]);
    assert RefsTo(Without(g, {r}), g.target[r]) == RefsTo(g, g.target[r]) - {r};
  }

  lemma LinkedForget(m: Memory, g: Ownership, r: Address)
    requires Linked(m, g) && TargetsLive(g) && r in g.target
    ensures r in m.refs && m.refs[r] == g.target[r] && m.refs[r] in m.heap && m.refs[r] in g.objs
    ensures m.heap[m.refs[r]].refCount == |RefsTo(g, m.refs[r])| > 0
    ensures m.heap[m.refs[r]].attached == g.objs[m.refs[r]].attached
    ensures |RefsTo(Without(g, {r}), m.refs[r])| == |RefsTo(g, m.refs[r])| - 1
    ensures Linked(Forget(m, r), Without(g, {r}))
  {
    hide RefsTo;
    CountsForget(g, r);
  }

  ghost predicate ValueAlive(m: Memory, o: Address) {
    o in m.heap && (m.heap[o].value.Some? ==>
      m.heap[o].value.value in m.values && m.values[m.heap[o].value.value].useCount > 0)
  }

  /** `o` is freed and gives up its share of the value, which is freed with its last holder. */
  function Free(m: Memory, o: Address): Memory
    requires ValueAlive(m, o)
  {
    match m.heap[o].value
    case None => m.(heap := m.heap - {o})
    case Some(v) =>
      m.(heap := m.heap - {o},
         values := if m.values[v].useCount == 1 then m.values - {v}
                   else m.values[v := m.values[v].(useCount := m.values[v].useCount - 1)])
  }

  /** The members of the value that dies with `o`. */
  function Members(m: Memory, o: Address): set<Address>
    requires ValueAlive(m, o)
  {
    if m.heap[o].value.Some? && m.values[m.heap[o].value.value].useCount == 1 then m.values[m.heap[o].value.value].refs else {}
  }

  lemma LinkedFree(m: Memory, g: Ownership, o: Address)
    requires Linked(m, g) && WellFormed(g) && o in g.objs && RefsTo(g, o) == {}
    ensures o in m.heap && ValueAlive(m, o) && m.heap[o].refCount == 0
    ensures |Free(m, o).heap| < |m.heap|
    ensures Members(m, o) == FreedRefs(g, o)
    ensures Linked(Free(m, o), Unlink(g, o))
  {
    hide WellFormed, ValueOf, FreedRefs, Members, RefsTo, ValueAlive, Free, Unlink;
    WellFormedOwners(g);
    LinkedValue(m, g, o);
    FreedObjects(m, g, o);
    UnlinkCounts(g, o);
    LinkedFreeValues(m, g, o);
    var n, h := Free(m, o), Unlink(g, o);
    assert n.heap.Keys == m.heap.Keys - {o} && h.objs.Keys == g.objs.Keys - {o};
    assert forall p | p in n.heap :: n.heap[p] == SingletonOf(h, p);
  }

  lemma FreedObjects(m: Memory, g: Ownership, o: Address)
    requires WellFormed(g) && o in g.objs && ValueAlive(m, o)
    ensures Free(m, o).heap == m.heap - {o} && Free(m, o).refs == m.refs
    ensures Unlink(g, o).objs == g.objs - {o} && Unlink(g, o).target == g.target
  {
  }

  lemma LinkedValue(m: Memory, g: Ownership, o: Address)
    requires Linked(m, g) && OwnersMatch(g) && o in g.objs
    ensures ValueAlive(m, o)
    ensures m.heap[o].value.Some? ==>
      var v := m.heap[o].value.value; v in g.vals && m.values[v].useCount == g.vals[v].pins + 1
  {
  }

  lemma LinkedFreeValues(m: Memory, g: Ownership, o: Address)
    requires Linked(m, g) && WellFormed(g) && o in g.objs && ValueAlive(m, o)
    ensures Members(m, o) == FreedRefs(g, o)
    ensures Unlink(g, o).target == g.target
    ensures Free(m, o).values.Keys == Unlink(g, o).vals.Keys
    ensures forall v | v in Free(m, o).values :: Free(m, o).values[v] == ValueOf(Unlink(g, o), v)
  {
    hide RefsTo, OneHolder, TargetsLive, RefsDown;
    LinkedValue(m, g, o);
  }

  lemma LinkedSmaller(m: Memory, g: Ownership, n: Memory, h: Ownership)
    requires Linked(m, g) && Linked(n, h) && h.objs.Keys <= g.objs.Keys
    ensures |n.heap| <= |m.heap|
  {
    SubsetSize(n.heap.Keys, m.heap.Keys);
  }

  // ---------------------------------------------------------------- BaseSingleton and Ref

  /** `~Ref` of a non-null Ref with the `unref` it calls. */
  method DropRef(m: Memory, disposed: set<Address>, r: Address, ghost g: Ownership, ghost children: map<Key, Address>, ghost doomed: set<Address>)
    returns (m': Memory, disposed': set<Address>)
    requires Linked(m, g) && Sound(g, children, disposed, doomed, {}) && External(g, r)
    ensures Linked(m', Settle(Without(g, {r})))
    ensures Sound(Settle(Without(g, {r})), children, disposed', doomed, {})
    ensures r in m.refs && m.refs[r] in m.heap
    ensures var o := m.refs[r];
      m.heap[o].refCount > 1 || m.heap[o].attached ==> disposed' == disposed + (if m.heap[o].refCount == 1 then {o} else {})
    decreases |m.heap|, 1
  {
    hide Linked, Sound, Settle;
    SoundInv(g, children, disposed, doomed);
    LinkedForget(m, g, r);
    var o := m.refs[r];
    ghost var h := Without(g, {r});
    SoundWithout(g, children, disposed, doomed, r, o);
    m', disposed' := Forget(m, r), disposed;
    if m.heap[o].refCount > 1 {
      SoundInv(h, children, disposed, doomed);
    } else if m.heap[o].attached {
      disposed' := disposed + {o};  // SingletonStorage::dispose
      SoundInv(h, children, disposed', doomed);
    } else {
      DetachedDelete(h, o);
      assert doomed - {o} == doomed;
      m', disposed' := Delete(m', disposed, o, h, children, doomed);
    }
  }

  /** `delete`: the destructor gives up the value, which dies with its last holder and drops its Refs. */
  method Delete(m: Memory, disposed: set<Address>, o: Address, ghost g: Ownership, ghost children: map<Key, Address>, ghost doomed: set<Address>)
    returns (m': Memory, disposed': set<Address>)
    requires Linked(m, g) && Sound(g, children, disposed, doomed, {o})
    requires o in g.objs && RefsTo(g, o) == {} && (g.objs[o].attached ==> o in doomed)
    ensures Linked(m', AfterDelete(g, o))
    ensures Sound(AfterDelete(g, o), children, disposed', doomed - {o}, {})
    decreases |m.heap|, 0
  {
    hide Linked, Sound, Settle, Restrict, Unlink, FreedRefs, ValueAlive, Free, Members;
    SoundWellFormed(g, children, disposed, doomed, {o});
    LinkedFree(m, g, o);
    UnlinkWellFormed(g, o);
    UnlinkRestrict(g, o);
    SoundUnlink(g, children, disposed, doomed, o);
    assert m.heap[o].refCount == 0;  // what ~BaseSingleton asserts
    m', disposed' := DropRefs(Free(m, o), disposed, Members(m, o), Unlink(g, o), children, doomed - {o});
  }

  /** The members of a dead value go one after the other, in any order. */
  method DropRefs(m: Memory, disposed: set<Address>, members: set<Address>, ghost g: Ownership, ghost children: map<Key, Address>, ghost doomed: set<Address>)
    returns (m': Memory, disposed': set<Address>)
    requires Linked(m, g) && Sound(g, children, disposed, doomed, {}) && AllExternal(g, members)
    ensures Linked(m', Settle(Without(g, members)))
    ensures Sound(Settle(Without(g, members)), children, disposed', doomed, {})
    decreases |m.heap|, 2
  {
    hide Linked, Sound, WellFormed, Inv, External, AllExternal, Settle, Without;
    m', disposed' := m, disposed;
    var todo := members;
    assert members - todo == {};
    WithoutNone(g);
    SoundInv(g, children, disposed, doomed);
    while todo != {}
      invariant todo <= members
      invariant Linked(m', Settle(Without(g, members - todo)))
      invariant Sound(Settle(Without(g, members - todo)), children, disposed', doomed, {})
      decreases todo
    {
      var r :| r in todo;
      NextMember(g, members, todo, r);
      LinkedSmaller(m, g, m', Settle(Without(g, members - todo)));
      m', disposed' := DropRef(m', disposed', r, Settle(Without(g, members - todo)), children, doomed);
      todo := todo - {r};
    }
    assert members - todo == members;
  }

  lemma NextMember(g: Ownership, members: set<Address>, todo: set<Address>, r: Address)
    requires WellFormed(g) && Inv(g) && AllExternal(g, members) && todo <= members && r in todo
    ensures Settle(Without(g, members - (todo - {r}))) == Settle(Without(Settle(Without(g, members - todo)), {r}))
    ensures External(Settle(Without(g, members - todo)), r)
    ensures Settle(Without(g, members - todo)).objs.Keys <= g.objs.Keys
  {
    hide WellFormed, Inv, Settle, Without, External;
    var done := members - todo;
    assert members - (todo - {r}) == done + {r};
    SettleWithoutMore(g, done, r);
  }

  // ---------------------------------------------------------------- what the outcome means for the fields

  /** One Ref less to `o`, which stays, and nothing else. */
  ghost predicate OneRefLess(m: Memory, m': Memory, r: Address, o: Address) {
    && r in m.refs && m.refs[r] == o && o in m.heap && m.heap[o].refCount > 0
    && m'.refs == m.refs - {r} && m'.values == m.values
    && m'.heap == m.heap[o := m.heap[o].(refCount := m.heap[o].refCount - 1)]
  }

  /** One share of `v` less; the last one takes the value and its members with it. */
  ghost predicate OneShareLess(m: Memory, m': Memory, v: Address) {
    v in m.values && m.values[v].useCount > 0 &&
    if m.values[v].useCount > 1 then
      v in m'.values && m'.values[v] == m.values[v].(useCount := m.values[v].useCount - 1)
    else
      v !in m'.values && forall q | q in m.values[v].refs :: q !in m'.refs
  }

  /** `o` is gone with the last Ref to it, and so is its share of the value it had. */
  ghost predicate DiesWithRef(m: Memory, m': Memory, r: Address, o: Address) {
    && r in m.refs && m.refs[r] == o && o in m.heap && r !in m'.refs && o !in m'.heap
    && (m.heap[o].value.Some? ==> OneShareLess(m, m', m.heap[o].value.value))
  }

  lemma LinkedOnlyOne(m: Memory, n: Memory, g: Ownership)
    requires Linked(m, g) && Linked(n, g)
    ensures m == n
  {
  }

  lemma TidyWithout(g: Ownership, r: Address)
    requires Inv(g) && External(g, r) && (|RefsTo(g, g.target[r])| > 1 || g.objs[g.target[r]].attached)
    ensures Settle(Without(g, {r})) == Without(g, {r})
  {
    var h, o := Without(g, {r}), g.target[r];
    assert AllExternal(g, {r});
    WithoutWellFormed(g, {r});
    CountsForget(g, r);
    forall p | p in h.objs && !h.objs[p].attached
      ensures RefsTo(h, p) != {}
    {
    }
    SettleDone(h);
  }

  lemma StaysAtDrop(m: Memory, g: Ownership, m': Memory, r: Address)
    requires Linked(m, g) && Inv(g) && External(g, r) && Linked(m', Settle(Without(g, {r})))
    ensures r in m.refs && m.refs[r] in m.heap && m.heap[m.refs[r]].refCount > 0
    ensures var o := m.refs[r];
      m.heap[o].refCount > 1 || m.heap[o].attached ==> OneRefLess(m, m', r, o)
  {
    hide Linked, Settle, Restrict, External, RefsTo, Tidy, ValuesHeld;
    ExternalIsLive(g, r);
    LinkedForget(m, g, r);
    var o := m.refs[r];
    if m.heap[o].refCount > 1 || m.heap[o].attached {
      TidyWithout(g, r);
      LinkedOnlyOne(Forget(m, r), m', Without(g, {r}));
    }
  }

  lemma ExternalIsLive(g: Ownership, r: Address)
    requires External(g, r)
    ensures r in g.target
  {
  }

  /** What of the value of a dead `o` is left in the graph. */
  lemma ValueAfterDeath(h: Ownership, K: set<Address>, o: Address, v: Address)
    requires o !in K && v in h.vals && h.vals[v].owner == Some(o)
    ensures h.vals[v].pins > 0 ==> v in Restrict(h, K).vals && Restrict(h, K).vals[v] == h.vals[v].(owner := None)
    ensures h.vals[v].pins == 0 ==> v !in Restrict(h, K).vals && forall q | q in h.vals[v].refs :: q !in Restrict(h, K).target
  {
    if h.vals[v].pins == 0 {
      assert !ValueKept(h, K, v);
      assert forall q | q in h.vals[v].refs :: !RefKept(h, K, q);
    }
  }

  lemma ShareAfterDeath(m: Memory, g: Ownership, m': Memory, h: Ownership, K: set<Address>, o: Address)
    requires Linked(m, g) && OwnersMatch(g) && o in g.objs && h.vals == g.vals && o !in K && Linked(m', Restrict(h, K))
    ensures o in m.heap && (m.heap[o].value.Some? ==> OneShareLess(m, m', m.heap[o].value.value))
  {
    hide Restrict, RefsTo, OwnersMatch;
    LinkedValue(m, g, o);
    if m.heap[o].value.Some? {
      OwnerOf(g, o);
      ValueAfterDeath(h, K, o, m.heap[o].value.value);
    }
  }

  lemma OwnerOf(g: Ownership, o: Address)
    requires OwnersMatch(g) && o in g.objs && g.objs[o].value.Some?
    ensures g.objs[o].value.value in g.vals && g.vals[g.objs[o].value.value].owner == Some(o)
  {
  }

  lemma DiesAtDrop(m: Memory, g: Ownership, m': Memory, r: Address)
    requires Linked(m, g) && Inv(g) && External(g, r) && Linked(m', Settle(Without(g, {r})))
    ensures r in m.refs && m.refs[r] in m.heap
    ensures var o := m.refs[r];
      m.heap[o].refCount == 1 && !m.heap[o].attached ==> DiesWithRef(m, m', r, o)
  {
    hide Linked, Restrict, External, RefsTo, Tidy, ValuesHeld, ReachSet, OneShareLess;
    ExternalIsLive(g, r);
    LinkedForget(m, g, r);
    var o, h := m.refs[r], Without(g, {r});
    var K := ReachSet(h, true);
    if m.heap[o].refCount == 1 && !m.heap[o].attached {
      assert RefsTo(h, o) == {};
      NoRefsUnreachable(h, true, o);
      RestrictOutside(h, K, o, r);
      LinkedKeys(m', Restrict(h, K));
      ShareAfterDeath(m, g, m', h, K, o);
    }
  }

  lemma RestrictOutside(h: Ownership, K: set<Address>, o: Address, r: Address)
    requires o !in K && r !in h.target
    ensures o !in Restrict(h, K).objs && r !in Restrict(h, K).target
  {
  }

  lemma LinkedKeys(m: Memory, g: Ownership)
    requires Linked(m, g)
    ensures m.refs == g.target && m.heap.Keys == g.objs.Keys && m.values.Keys == g.vals.Keys
  {
  }

  /** The last holder of a value took it and its members along. */
  lemma LastShareGone(m: Memory, g: Ownership, m': Memory, v: Address)
    requires Linked(m, g) && v in g.vals && g.vals[v].pins > 0 && LastHolder(g, v) && Linked(m', Unpinned(g, v))
    ensures OneShareLess(m, m', v)
  {
    hide RefsTo, ReachSet, RefKept, ValueKept;
    LinkedUseCount(m, g, v);
    LinkedDropValue(m, g, v);
    LinkedKeys(m', Unpinned(g, v));
  }

  // ---------------------------------------------------------------- steps of the storage

  /** A new Ref to `o`. */
  function Remember(m: Memory, r: Address, o: Address): Memory
    requires o in m.heap
  {
    m.(refs := m.refs[r := o], heap := m.heap[o := m.heap[o].(refCount := m.heap[o].refCount + 1)])
  }

  lemma LinkedRemember(m: Memory, g: Ownership, r: Address, o: Address)
    requires Linked(m, g) && o in g.objs && r !in g.target
    ensures o in m.heap && Linked(Remember(m, r, o), NewRef(g, r, o))
  {
    CountsNewRef(g, r, o);
    hide RefsTo;
  }

  lemma CountsNewRef(g: Ownership, r: Address, o: Address)
    requires r !in g.target
    ensures |RefsTo(NewRef(g, r, o), o)| == |RefsTo(g, o)| + 1
    ensures forall p | p != o :: RefsTo(NewRef(g, r, o), p) == RefsTo(g, p)
  {
    assert RefsTo(NewRef(g, r, o), o) == RefsTo(g, o) + {r};
  }

  lemma RememberNew(m: Memory, r: Address, o: Address, key: Key)
    ensures Remember(m.(heap := m.heap[o := Singleton(key, true, 0, None)]), r, o)
         == m.(refs := m.refs[r := o], heap := m.heap[o := Singleton(key, true, 1, None)])
  {
  }

  lemma LinkedNewSingleton(m: Memory, g: Ownership, o: Address, key: Key, rank: nat)
    requires Linked(m, g) && o !in g.objs && TargetsLive(g)
    ensures Linked(m.(heap := m.heap[o := Singleton(key, true, 0, None)]), NewSingleton(g, o, key, rank))
  {
    assert forall p :: RefsTo(NewSingleton(g, o, key, rank), p) == RefsTo(g, p);
    assert RefsTo(g, o) == {};
  }

  /** The pointer of `r` goes to `to`. */
  function Redirect(m: Memory, r: Address, to: Address): Memory
    requires r in m.refs
  {
    m.(refs := (m.refs - {r})[to := m.refs[r]])
  }

  lemma Redirected(m: Memory, r: Address, to: Address)
    requires r in m.refs
    ensures Redirect(m, r, to).refs == (m.refs - {r})[to := m.refs[r]]
    ensures Redirect(m, r, to).heap == m.heap && Redirect(m, r, to).values == m.values
  {
  }

  lemma LinkedMove(m: Memory, g: Ownership, r: Address, to: Address)
    requires Linked(m, g) && r in g.target && to !in g.target
    ensures r in m.refs && Linked(Redirect(m, r, to), MoveRef(g, r, to))
    ensures r !in Redirect(m, r, to).refs && to in Redirect(m, r, to).refs && Redirect(m, r, to).refs[to] == m.refs[r]
  {
    var h := MoveRef(g, r, to);
    var o := g.target[r];
    assert RefsTo(h, o) == RefsTo(g, o) - {r} + {to};
    assert r in RefsTo(g, o);
    assert forall p | p != o :: RefsTo(h, p) == RefsTo(g, p);
  }

  lemma LinkedFinish(m: Memory, g: Ownership, o: Address, v: Address, members: set<Address>)
    requires Linked(m, g) && o in g.objs && v !in g.vals
    ensures o in m.heap
    ensures Linked(m.(heap := m.heap[o := m.heap[o].(value := Some(v))], values := m.values[v := ResultValue(members, 1)]),
                   Finished(g, o, v, members))
  {
    assert forall p :: RefsTo(Finished(g, o, v, members), p) == RefsTo(g, p);
  }

  lemma LinkedPins(m: Memory, g: Ownership, v: Address, pins: nat)
    requires Linked(m, g) && v in g.vals
    ensures v in m.values && m.values[v].useCount + pins >= g.vals[v].pins
    ensures Linked(m.(values := m.values[v := m.values[v].(useCount := m.values[v].useCount + pins - g.vals[v].pins)]),
                   g.(vals := g.vals[v := g.vals[v].(pins := pins)]))
  {
    assert forall p :: RefsTo(g.(vals := g.vals[v := g.vals[v].(pins := pins)]), p) == RefsTo(g, p);
  }

  lemma LinkedDropValue(m: Memory, g: Ownership, v: Address)
    requires Linked(m, g) && v in g.vals
    ensures v in m.values && m.values[v].refs == g.vals[v].refs
    ensures Linked(m.(values := m.values - {v}), g.(vals := g.vals - {v}))
  {
    assert forall p :: RefsTo(g.(vals := g.vals - {v}), p) == RefsTo(g, p);
  }

  ghost function DetachSome(g: Ownership, D: set<Address>): Ownership {
    g.(objs := map o | o in g.objs :: g.objs[o].(attached := g.objs[o].attached && o !in D))
  }

  lemma CountsDetach(g: Ownership, D: set<Address>)
    ensures forall p :: RefsTo(DetachSome(g, D), p) == RefsTo(g, p)
  {
  }

  lemma LinkedDetach(m: Memory, g: Ownership, D: set<Address>, o: Address)
    requires Linked(m, DetachSome(g, D)) && o in g.objs
    ensures o in m.heap
    ensures Linked(m.(heap := m.heap[o := m.heap[o].(attached := false)]), DetachSome(g, D + {o}))
  {
    hide RefsTo;
    CountsDetach(g, D);
    CountsDetach(g, D + {o});
  }

  lemma WorldFacts(w: World)
    requires WorldInv(w)
    ensures WellFormed(w.g) && ValuesHeld(w.g) && TargetsLive(w.g) && Inv(w.g)
    ensures Listed(w.g, w.children) && Numbered(w.g, w.next)
    ensures Sound(w.g, w.children, Disposed(w.g), {}, {})
    ensures w.next !in w.g.objs && w.next !in w.g.vals && w.next !in w.g.target
    ensures w.next + 1 !in w.g.target
    ensures forall k | k in w.children :: w.children[k] in w.g.objs
  {
  }

  lemma NotDisposed(g: Ownership, r: Address, o: Address, key: Key, rank: nat)
    requires o !in g.objs && TargetsLive(g) && r !in g.target
    ensures Disposed(NewRef(NewSingleton(g, o, key, rank), r, o)) == Disposed(g) == Disposed(g) - {o}
  {
    var h := NewRef(NewSingleton(g, o, key, rank), r, o);
    assert r in RefsTo(h, o);
    assert forall p | p != o :: RefsTo(h, p) == RefsTo(g, p);
  }

  // ---------------------------------------------------------------- what each call does to the disposed set

  lemma CopyNotDisposed(g: Ownership, copy: Address, r: Address)
    requires r in g.target && copy !in g.target
    ensures Disposed(NewRef(g, copy, g.target[r])) == Disposed(g)
  {
    NewRefRefs(g, copy, g.target[r]);
    assert r in RefsTo(g, g.target[r]);
  }

  lemma SoundDropValue(g: Ownership, v: Address, children: map<Key, Address>, disposed: set<Address>)
    requires Sound(g, children, disposed, {}, {}) && v in g.vals && g.vals[v].owner == None
    ensures Sound(g.(vals := g.vals - {v}), children, disposed, {}, {})
  {
    DropValueWellFormed(g, v);
    assert forall p :: RefsTo(g.(vals := g.vals - {v}), p) == RefsTo(g, p);
    assert Disposed(g.(vals := g.vals - {v})) == Disposed(g);
  }

  lemma SoundDisposed(g: Ownership, children: map<Key, Address>, disposed: set<Address>)
    requires Sound(g, children, disposed, {}, {})
    ensures disposed == Disposed(g)
  {
    assert Disposed(g) - {} == Disposed(g);
  }

  lemma LinkedRefs(m: Memory, g: Ownership)
    requires Linked(m, g)
    ensures m.refs == g.target
  {
  }

  lemma LinkedUseCount(m: Memory, g: Ownership, v: Address)
    requires Linked(m, g) && v in g.vals && g.vals[v].pins > 0
    ensures v in m.values && m.values[v].useCount > 0
    ensures m.values[v].useCount == 1 <==> LastHolder(g, v)
  {
  }

  // ---------------------------------------------------------------- collection

  /** `keys` names each singleton of `os`, and only those, once. */
  ghost predicate IsKeysOf(keys: seq<Key>, children: map<Key, Address>, os: set<Address>) {
    && (forall i | 0 <= i < |keys| :: keys[i] in children && children[keys[i]] in os)
    && (forall i, j | 0 <= i < j < |keys| :: keys[i] != keys[j])
    && (forall o | o in os :: exists i | 0 <= i < |keys| :: keys[i] in children && children[keys[i]] == o)
  }

  /** Children are distinct, every disposed singleton is one of them, and the disposed count zero. */
  ghost predicate Scannable(m: Memory, children: map<Key, Address>, disposed: set<Address>) {
    && (forall o | o in disposed :: o in m.heap && m.heap[o].refCount == 0)
    && (forall k, l | k in children && l in children && children[k] == children[l] :: k == l)
    && (forall o | o in disposed :: exists k | k in children :: children[k] == o)
  }

  lemma ScanFacts(m: Memory, g: Ownership, children: map<Key, Address>, next: Address)
    requires Linked(m, g) && WorldInv(World(g, children, next))
    ensures Scannable(m, children, Disposed(g))
  {
    forall o | o in Disposed(g)
      ensures exists k | k in children :: children[k] == o
    {
      assert g.objs[o].key in children;
    }
  }

  /** The keys of the disposed children.  The scan stops as soon as it has found as many as there are. */
  method ScanDisposed(m: Memory, children: map<Key, Address>, disposed: set<Address>) returns (keys: seq<Key>)
    requires Scannable(m, children, disposed)
    ensures IsKeysOf(keys, children, disposed) && |keys| == |disposed|
  {
    var toBeDisposed := |disposed|;
    keys := [];
    if toBeDisposed == 0 {
      return;
    }
    var todo := children.Keys;
    while todo != {}
      invariant todo <= children.Keys
      invariant forall k | k in keys :: k in children && k !in todo && children[k] in disposed
      invariant forall i, j | 0 <= i < j < |keys| :: keys[i] != keys[j]
      invariant forall k | k in children && k !in todo && children[k] in disposed :: k in keys
      invariant |keys| < toBeDisposed
      decreases todo
    {
      var key :| key in todo;
      todo := todo - {key};
      if children[key] in disposed {
        assert m.heap[children[key]].refCount == 0;
        ghost var before := keys;
        keys := keys + [key];
        assert forall k :: k in keys <==> k in before || k == key;
        if |keys| == toBeDisposed {
          break;
        }
      }
    }
    KeysFound(keys, children, disposed, todo);
    assert |keys| == toBeDisposed;
  }

  /** The singletons named by the keys. */
  ghost function Named(keys: seq<Key>, children: map<Key, Address>): set<Address>
    requires forall i | 0 <= i < |keys| :: keys[i] in children
  {
    set i | 0 <= i < |keys| :: children[keys[i]]
  }

  lemma {:induction false} NamedSize(keys: seq<Key>, children: map<Key, Address>)
    requires forall i | 0 <= i < |keys| :: keys[i] in children
    requires forall i, j | 0 <= i < j < |keys| :: keys[i] != keys[j]
    requires forall k, l | k in children && l in children && children[k] == children[l] :: k == l
    ensures |Named(keys, children)| == |keys|
  {
    if keys != [] {
      var last := |keys| - 1;
      NamedSize(keys[..last], children);
      assert Named(keys, children) == Named(keys[..last], children) + {children[keys[last]]};
      assert children[keys[last]] !in Named(keys[..last], children);
    }
  }

  /** Whether the scan ran to the end or stopped early, it found all of them. */
  lemma KeysFound(keys: seq<Key>, children: map<Key, Address>, disposed: set<Address>, todo: set<Key>)
    requires forall k | k in keys :: k in children && children[k] in disposed
    requires forall i, j | 0 <= i < j < |keys| :: keys[i] != keys[j]
    requires forall k, l | k in children && l in children && children[k] == children[l] :: k == l
    requires forall o | o in disposed :: exists k | k in children :: children[k] == o
    requires forall k | k in children && k !in todo && children[k] in disposed :: k in keys
    requires todo == {} || |keys| == |disposed|
    ensures |keys| == |disposed| && IsKeysOf(keys, children, disposed)
  {
    NamedSize(keys, children);
    var found := Named(keys, children);
    assert found <= disposed;
    if todo == {} {
      assert disposed <= found;
      assert found == disposed;
    } else {
      SubsetSize(found, disposed);
    }
    assert disposed == found;
  }

  /** The children that are not deleted yet. */
  ghost function StillThere(children: map<Key, Address>, g: Ownership): map<Key, Address> {
    map k | k in children && children[k] in g.objs :: children[k]
  }

  ghost function Rest(keys: seq<Key>, children: map<Key, Address>, i: nat): set<Address>
    requires i <= |keys| && forall j | 0 <= j < |keys| :: keys[j] in children
  {
    set j | i <= j < |keys| :: children[keys[j]]
  }

  lemma RestStep(keys: seq<Key>, g: Ownership, children: map<Key, Address>, i: nat)
    requires i < |keys| && IsKeysOf(keys, children, Disposed(g)) && Listed(g, children)
    ensures Rest(keys, children, i) == Rest(keys, children, i + 1) + {children[keys[i]]}
    ensures children[keys[i]] !in Rest(keys, children, i + 1)
  {
    assert forall j | i < j < |keys| :: g.objs[children[keys[j]]].key == keys[j];
  }

  /** In the middle of a round: the singletons of the keys from `i` on are still to be deleted. */
  ghost predicate Deleting(w0: World, w: World, keys: seq<Key>, i: nat, m: Memory, now: Ownership, children: map<Key, Address>, disposed: set<Address>)
    requires i <= |keys| && forall j | 0 <= j < |keys| :: keys[j] in w.children
  {
    && Linked(m, now) && Sound(now, children, disposed, Rest(keys, w.children, i), {})
    && Listed(now, children) && Numbered(now, w.next)
    && MidRound(w0.g, w.g, now, Rest(keys, w.children, i))
    && children == StillThere(w.children, now)
  }

  lemma DeletingStart(w0: World, w: World, keys: seq<Key>, m: Memory)
    requires Linked(m, w.g) && WorldInv(w) && IsKeysOf(keys, w.children, Disposed(w.g)) && Pruned(w0.g, w.g)
    ensures Deleting(w0, w, keys, 0, m, w.g, w.children, {})
  {
    hide WellFormed, ValuesHeld, RefsTo, Disposed, Linked, Pruned, Numbered;
    assert Rest(keys, w.children, 0) == Disposed(w.g);
    assert Disposed(w.g) - {} == Disposed(w.g);
    assert StillThere(w.children, w.g) == w.children;
  }

  lemma DeletingEnd(w0: World, w: World, keys: seq<Key>, m: Memory, now: Ownership, children: map<Key, Address>, disposed: set<Address>)
    requires IsKeysOf(keys, w.children, Disposed(w.g)) && Deleting(w0, w, keys, |keys|, m, now, children, disposed)
    ensures Linked(m, now) && WorldInv(World(now, children, w.next)) && disposed == Disposed(now)
    ensures Round(w0.g, w.g, now) && children == StillThere(w.children, now)
  {
    assert Rest(keys, w.children, |keys|) == {};
    SoundDisposed(now, children, disposed);
  }

  /** What is needed to delete the singleton of the next key. */
  lemma DeletingReady(w0: World, w: World, keys: seq<Key>, i: nat, m: Memory, now: Ownership, children: map<Key, Address>, disposed: set<Address>)
    requires i < |keys| && IsKeysOf(keys, w.children, Disposed(w.g)) && Listed(w.g, w.children)
    requires Deleting(w0, w, keys, i, m, now, children, disposed)
    ensures var o := w.children[keys[i]];
      && keys[i] in children && children[keys[i]] == o && o in now.objs && RefsTo(now, o) == {}
      && Sound(now, children, disposed, Rest(keys, w.children, i), {o}) && o in Rest(keys, w.children, i)
      && Linked(m, now)
  {
    RestStep(keys, w.g, w.children, i);
  }

  lemma DeletingStep(w0: World, w: World, keys: seq<Key>, i: nat, m: Memory, now: Ownership, children: map<Key, Address>, disposed: set<Address>,
                     m': Memory, disposed': set<Address>)
    requires WorldInv(w0) && i < |keys| && IsKeysOf(keys, w.children, Disposed(w.g)) && Listed(w.g, w.children)
    requires Deleting(w0, w, keys, i, m, now, children, disposed)
    requires Linked(m', AfterDelete(now, w.children[keys[i]]))
    requires Sound(AfterDelete(now, w.children[keys[i]]), children, disposed', Rest(keys, w.children, i) - {w.children[keys[i]]}, {})
    ensures Deleting(w0, w, keys, i + 1, m', AfterDelete(now, w.children[keys[i]]), children - {keys[i]}, disposed')
  {
    hide AfterDelete, Linked, WellFormed, ValuesHeld, RefsTo, MidRound, Restrict, ReachSet;
    var o := w.children[keys[i]];
    var next := AfterDelete(now, o);
    RestStep(keys, w.g, w.children, i);
    DeletingReady(w0, w, keys, i, m, now, children, disposed);
    MidRoundDelete(w0.g, w.g, now, Rest(keys, w.children, i), o);
    NumberedDelete(now, o, w.next);
    assert Rest(keys, w.children, i) - {o} == Rest(keys, w.children, i + 1);
    assert children - {keys[i]} == StillThere(w.children, next);
  }

  lemma NumberedDelete(g: Ownership, o: Address, next: Address)
    requires Numbered(g, next)
    ensures Numbered(AfterDelete(g, o), next)
  {
    var h := Restrict(g, g.objs.Keys - {o});
    assert Numbered(h, next);
  }

  method DeleteKeys(m: Memory, children: map<Key, Address>, keys: seq<Key>, ghost w0: World, ghost w: World)
    returns (m': Memory, children': map<Key, Address>, disposed': set<Address>, ghost now: Ownership)
    requires Linked(m, w.g) && WorldInv(w) && w.children == children && WorldInv(w0) && Pruned(w0.g, w.g)
    requires IsKeysOf(keys, children, Disposed(w.g))
    ensures Linked(m', now) && WorldInv(World(now, children', w.next)) && disposed' == Disposed(now)
    ensures Round(w0.g, w.g, now) && children' == StillThere(children, now)
  {
    hide Linked, WorldInv, Sound, Disposed, RefsTo, Pruned, Round, Deleting, MidRound, Restrict, AfterDelete, StillThere;
    m', children', disposed', now := m, children, {}, w.g;
    WorldFacts(w);
    DeletingStart(w0, w, keys, m);
    for i := 0 to |keys|
      invariant Deleting(w0, w, keys, i, m', now, children', disposed')
    {
      DeletingReady(w0, w, keys, i, m', now, children', disposed');
      var o := children'[keys[i]];
      ghost var m0, disposed0 := m', disposed';
      m', disposed' := Delete(m', disposed', o, now, children', Rest(keys, w.children, i));
      DeletingStep(w0, w, keys, i, m0, now, children', disposed0, m', disposed');
      now := AfterDelete(now, o);
      children' := children' - {keys[i]};
    }
    DeletingEnd(w0, w, keys, m', now, children', disposed');
  }

  /** After `rounds` rounds of a collection that started at `w0`. */
  ghost predicate Collecting(w0: World, w: World, rounds: nat) {
    && WorldInv(w0) && Pruned(w0.g, w.g)
    && GoneBound(w0.g, w.g, rounds) && DueChain(w0.g, w.g, rounds)
    && (rounds > 0 ==> exists o | o in w0.g.objs :: HasChain(w0.g, o, rounds))
    && w.next == w0.next && w.children == StillThere(w0.children, w.g)
  }

  lemma CollectingStart(w: World)
    requires WorldInv(w)
    ensures Collecting(w, w, 0)
  {
    PrunedSelf(w.g);
    DueChainStart(w.g);
    assert StillThere(w.children, w.g) == w.children;
  }

  lemma CollectingPruned(w0: World, w: World, rounds: nat)
    requires Collecting(w0, w, rounds)
    ensures WorldInv(w0) && Pruned(w0.g, w.g)
  {
  }

  lemma CollectingStep(w0: World, w: World, w': World, rounds: nat)
    requires Collecting(w0, w, rounds) && WorldInv(w) && WorldInv(w') && Round(w0.g, w.g, w'.g)
    requires Disposed(w.g) != {} && w'.next == w.next && w'.children == StillThere(w.children, w'.g)
    ensures Collecting(w0, w', rounds + 1) && |w'.g.objs| < |w.g.objs|
  {
    hide Sound, Inv, WellFormed, GoneBound, DueChain, HasChain, Pruned, RefsTo;
    WorldFacts(w0);
    WorldFacts(w);
    WorldFacts(w');
    RoundFacts(w0.g, w.g, w'.g);
    GoneBoundStep(w0.g, w.g, w'.g, rounds);
    DueChainStep(w0.g, w.g, w'.g, rounds);
    var o :| o in Disposed(w.g);
    DueChainOf(w0.g, w.g, rounds, o);
    assert StillThere(StillThere(w0.children, w.g), w'.g) == StillThere(w0.children, w'.g);
    SubsetSize(w'.g.objs.Keys, w.g.objs.Keys);
  }

  lemma RoundFacts(g0: Ownership, g: Ownership, g': Ownership)
    requires Round(g0, g, g') && WellFormed(g0)
    ensures OneHolder(g0) && Pruned(g0, g') && g'.objs.Keys <= g.objs.Keys <= g0.objs.Keys
    ensures forall o | o in Disposed(g) :: o in g.objs && o !in g'.objs
  {
  }

  lemma DueChainOf(g0: Ownership, g: Ownership, k: nat, o: Address)
    requires DueChain(g0, g, k) && o in Disposed(g)
    ensures HasChain(g0, o, k + 1)
  {
  }

  lemma CollectingEnd(w0: World, w: World, w': World, rounds: nat)
    requires Collecting(w0, w, rounds) && WorldInv(w) && WorldInv(w') && Round(w0.g, w.g, w'.g)
    requires Disposed(w.g) == {} && w'.next == w.next && w'.children == StillThere(w.children, w'.g)
    ensures w' == World(Sweep(w0.g), Surviving(w0.g, w0.children), w0.next)
    ensures Disposed(w'.g) == {} && LongestChain(w0.g, rounds)
  {
    hide Sound, Inv, WellFormed, GoneBound, DueChain, HasChain, Round, RefsTo, ReachSet, Sweep, LongestChain;
    WorldFacts(w0);
    WorldFacts(w);
    WorldFacts(w');
    PrunedDone(w0.g, w.g);
    RoundsAreLongestChain(w0.g, w.g, rounds);
    RoundOfNothing(w0.g, w.g, w'.g);
    SweepKeys(w0.g);
    assert w'.children == Surviving(w0.g, w0.children);
  }

  lemma SweepKeys(g: Ownership)
    ensures Sweep(g).objs.Keys == ReachSet(g, false)
  {
  }

  lemma CollectedFields(w: World, m: Memory)
    requires Linked(m, Apply(w, Collect).g)
    ensures m.heap.Keys == ReachSet(w.g, false)
    ensures forall k :: k in Apply(w, Collect).children <==> k in w.children && w.children[k] in ReachSet(w.g, false)
    ensures forall k | k in Apply(w, Collect).children :: Apply(w, Collect).children[k] == w.children[k]
  {
    hide ReachSet;
    SweepKeys(w.g);
  }

  lemma ClearedFields(w: World, m: Memory)
    requires WorldInv(w) && Linked(m, Apply(w, Clear).g)
    ensures m.heap.Keys == ReachSet(w.g, false)
    ensures forall o | o in m.heap :: !m.heap[o].attached && m.heap[o].refCount > 0
  {
    hide ReachSet, WorldInv, RefsTo, Sweep;
    SweepKeys(w.g);
    ClearDetaches(w);
  }

  /** With nothing disposed a round changes nothing. */
  lemma RoundOfNothing(g0: Ownership, g: Ownership, g': Ownership)
    requires Round(g0, g, g') && WellFormed(g0) && g == Sweep(g0)
    ensures g' == g
  {
    SweepKeys(g0);
  }

  // ---------------------------------------------------------------- clear

  lemma DetachNone(g: Ownership)
    ensures DetachSome(g, {}) == g
  {
    assert DetachSome(g, {}).objs == g.objs;
  }

  /** Detaching the children detaches everything: the attached singletons are the children. */
  lemma DetachedChildren(g: Ownership, children: map<Key, Address>, next: Address)
    requires WorldInv(World(g, children, next))
    ensures DetachSome(g, children.Values) == DetachAll(g)
  {
    forall o | o in g.objs && g.objs[o].attached
      ensures o in children.Values
    {
      assert g.objs[o].key in children;
    }
    assert DetachSome(g, children.Values).objs == DetachAll(g).objs;
  }

  lemma DetachDisposed(g: Ownership)
    ensures Disposed(DetachAll(g)) == {}
  {
  }

  method DetachChildren(m: Memory, children: map<Key, Address>, ghost g: Ownership) returns (m': Memory)
    requires Linked(m, DetachSome(g, {})) && forall k | k in children :: children[k] in g.objs
    ensures Linked(m', DetachSome(g, children.Values))
  {
    hide Linked, DetachSome;
    m' := m;
    var todo := children.Keys;
    ghost var done: set<Address> := {};
    while todo != {}
      invariant todo <= children.Keys
      invariant done == set k | k in children && k !in todo :: children[k]
      invariant Linked(m', DetachSome(g, done))
      decreases todo
    {
      var key :| key in todo;
      var o := children[key];
      LinkedDetach(m', g, done, o);
      m' := m'.(heap := m'.heap[o := m'.heap[o].(attached := false)]);
      todo := todo - {key};
      done := done + {o};
    }
    assert done == children.Values;
  }
}
