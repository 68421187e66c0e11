/** The singleton storage: what its calls do to its fields. */
module SingletonStorages {
  import opened Basics
  import opened SingletonGraph
  import opened SingletonCollection
  import opened SingletonMemory
  import opened SingletonRuns

  class SingletonStorage {
    var memory: Memory
    var next: Address
    var children: map<Key, Address>
    var disposed: set<Address>
    ghost var g: Ownership

    ghost function State(): World
      reads this
    {
      World(g, children, next)
    }

    /** Counters, pointers and both collections say what the ownership graph says. */
    ghost predicate Valid()
      reads this
    {
      Linked(memory, g) && WorldInv(State()) && disposed == Disposed(g)
    }

    constructor ()
      ensures Valid() && State() == EMPTY_WORLD
    {
      memory := Memory(map[], map[], map[]);
      next := 0;
      children := map[];
      disposed := {};
      g := EMPTY_WORLD.g;
      new;
      assert Disposed(g) - {} == {};
    }

    /** A known key gives its singleton, taken back from the disposed; an unknown one creates it. */
    method Get(key: Key, ghost rank: nat) returns (r: Address)
      requires Valid()
      modifies this
      ensures Valid() && State() == Apply(old(State()), SingletonRuns.Get(key, rank))
      ensures r == next - 1 && r in g.target && r in memory.refs && memory.refs[r] == g.target[r] == Got(old(State()), key)
      ensures var o := memory.refs[r];
        && memory.refs == old(memory.refs)[r := o] && memory.values == old(memory.values)
        && children == old(children)[key := o] && disposed == old(disposed) - {o}
        && if key in old(children) then
             o == old(children)[key] && o in old(memory.heap)
             && memory.heap == old(memory.heap)[o := old(memory.heap)[o].(refCount := old(memory.heap)[o].refCount + 1)]
           else
             o == old(next) && memory.heap == old(memory.heap)[o := Singleton(key, true, 1, None)]
    {
      hide Linked, WorldInv, Sound, Disposed, RefsTo;
      ghost var w := State();
      WorldFacts(w);
      StepInv(w, SingletonRuns.Get(key, rank));
      var o, h := next, g;
      if key in children {
        o := children[key];
        r := next;
        NewRefRefs(g, r, o);
        disposed := disposed - {o};  // SingletonStorage::recycle
        assert children[key := o] == children;
      } else {
        r := next + 1;
        LinkedNewSingleton(memory, g, o, key, rank);
        RememberNew(memory, r, o, key);
        memory := memory.(heap := memory.heap[o := Singleton(key, true, 0, None)]);
        children := children[key := o];
        h := NewSingleton(g, o, key, rank);
        NotDisposed(g, r, o, key, rank);
      }
      LinkedRemember(memory, h, r, o);
      memory := Remember(memory, r, o);
      next := r + 1;
      g := NewRef(h, r, o);
    }

    method CopyRef(r: Address) returns (copy: Address)
      requires Valid() && r in g.target
      modifies this
      ensures Valid() && State() == Apply(old(State()), Copy(r)) && r in old(memory.refs)
      ensures copy == old(next) && copy in g.target && copy in memory.refs && memory.refs[copy] == g.target[copy] == old(g.target[r])
      ensures var o := memory.refs[copy];
        && memory.refs == old(memory.refs)[copy := o] && memory.values == old(memory.values) && o in old(memory.heap)
        && memory.heap == old(memory.heap)[o := old(memory.heap)[o].(refCount := old(memory.heap)[o].refCount + 1)]
      ensures children == old(children) && disposed == old(disposed)
    {
      hide Linked, WorldInv, Sound, Disposed, RefsTo;
      LinkedRefs(memory, g);
      WorldFacts(State());
      StepInv(State(), Copy(r));
      copy := next;
      var o := memory.refs[r];
      CopyNotDisposed(g, copy, r);
      LinkedRemember(memory, g, copy, o);
      memory := Remember(memory, copy, o);
      next := next + 1;
      g := NewRef(g, copy, o);
    }

    /** The pointer changes hands; the Ref moved from is null. */
    method MoveRef(r: Address) returns (to: Address)
      requires Valid() && External(g, r)
      modifies this
      ensures Valid() && State() == Apply(old(State()), Move(r))
      ensures r in old(memory.refs) && memory.refs == (old(memory.refs) - {r})[to := old(memory.refs)[r]] && to == old(next)
      ensures memory.heap == old(memory.heap) && memory.values == old(memory.values)
      ensures children == old(children) && disposed == old(disposed)
    {
      hide Linked, WorldInv, Sound, Disposed, RefsTo, External, Apply, Enabled, Redirect, SingletonRuns.MoveRef;
      WorldFacts(State());
      MovedFrom(State(), r);
      StepInv(State(), Move(r));
      to := next;
      MoveRefs(g, r, to);
      LinkedMove(memory, g, r, to);
      Redirected(memory, r, to);
      memory := Redirect(memory, r, to);
      next := next + 1;
      g := SingletonRuns.MoveRef(g, r, to);
    }

    method Drop(r: Address)
      requires Valid() && External(g, r)
      modifies this
      ensures Valid() && State() == Apply(old(State()), SingletonRuns.Drop(r))
      ensures children == old(children) && r in old(memory.refs) && old(memory.refs)[r] in old(memory.heap)
      ensures var o := old(memory.refs)[r]; var s := old(memory.heap)[o];
        if s.refCount > 1 || s.attached then
          OneRefLess(old(memory), memory, r, o) && disposed == old(disposed) + (if s.refCount == 1 then {o} else {})
        else
          DiesWithRef(old(memory), memory, r, o)
    {
      hide Linked, WorldInv, Sound, Disposed, RefsTo, Settle, OneRefLess, DiesWithRef, Restrict, External;
      WorldFacts(State());
      StepInv(State(), SingletonRuns.Drop(r));
      ghost var m := memory;
      memory, disposed := DropRef(memory, disposed, r, g, children, {});
      StaysAtDrop(m, g, memory, r);
      DiesAtDrop(m, g, memory, r);
      g := Settle(Without(g, {r}));
      SoundDisposed(g, children, disposed);
    }

    /** The future of `o` has its value: Refs made for it during the creation become its members. */
    method FinishCreation(o: Address, members: set<Address>) returns (v: Address)
      requires Valid() && Enabled(State(), Finish(o, members))
      modifies this
      ensures Valid() && State() == Apply(old(State()), Finish(o, members))
      ensures v == old(next) && o in old(memory.heap)
      ensures memory.heap == old(memory.heap)[o := old(memory.heap)[o].(value := Some(v))]
      ensures memory.values == old(memory.values)[v := ResultValue(members, 1)] && memory.refs == old(memory.refs)
      ensures children == old(children) && disposed == old(disposed)
    {
      hide Linked, WorldInv, Sound, Disposed, RefsTo;
      WorldFacts(State());
      StepInv(State(), Finish(o, members));
      v := next;
      FinishRefs(g, o, v, members);
      LinkedFinish(memory, g, o, v, members);
      memory := memory.(heap := memory.heap[o := memory.heap[o].(value := Some(v))],
                        values := memory.values[v := ResultValue(members, 1)]);
      next := next + 1;
      g := Finished(g, o, v, members);
    }

    /** Somebody outside takes a share of a value. */
    method PinValue(v: Address)
      requires Valid() && v in g.vals
      modifies this
      ensures Valid() && State() == Apply(old(State()), Pin(v))
      ensures v in old(memory.values) && memory.heap == old(memory.heap) && memory.refs == old(memory.refs)
      ensures memory.values == old(memory.values)[v := old(memory.values)[v].(useCount := old(memory.values)[v].useCount + 1)]
      ensures children == old(children) && disposed == old(disposed)
    {
      hide Linked, WorldInv, Sound, Disposed, RefsTo;
      WorldFacts(State());
      StepInv(State(), Pin(v));
      PinsRefs(g, v, g.vals[v].pins + 1);
      LinkedPins(memory, g, v, g.vals[v].pins + 1);
      memory := memory.(values := memory.values[v := memory.values[v].(useCount := memory.values[v].useCount + 1)]);
      g := Pinned(g, v);
    }

    /** An outside share of a value is given up; the last share takes the value and its Refs with it. */
    method UnpinValue(v: Address)
      requires Valid() && Enabled(State(), Unpin(v))
      modifies this
      ensures Valid() && State() == Apply(old(State()), Unpin(v))
      ensures children == old(children) && v in old(memory.values) && OneShareLess(old(memory), memory, v)
      ensures old(memory.values)[v].useCount > 1 ==>
        && memory.heap == old(memory.heap) && memory.refs == old(memory.refs) && disposed == old(disposed)
        && memory.values.Keys == old(memory.values).Keys && forall u | u in memory.values && u != v :: memory.values[u] == old(memory.values)[u]
    {
      hide Linked, WorldInv, Sound, Disposed, RefsTo, Settle, ValuesHeld;
      ghost var m := memory;
      WorldFacts(State());
      StepInv(State(), Unpin(v));
      LinkedPins(memory, g, v, g.vals[v].pins - 1);
      LinkedUseCount(memory, g, v);
      if memory.values[v].useCount == 1 {
        var members := memory.values[v].refs;
        ghost var h := g.(vals := g.vals - {v});
        DropValueWellFormed(g, v);
        LinkedDropValue(memory, g, v);
        SoundDropValue(g, v, children, disposed);
        memory := memory.(values := memory.values - {v});
        memory, disposed := DropRefs(memory, disposed, members, h, children, {});
        LastShareGone(m, g, memory, v);
        g := Unpinned(g, v);
        SoundDisposed(g, children, disposed);
      } else {
        PinsRefs(g, v, g.vals[v].pins - 1);
        memory := memory.(values := memory.values[v := memory.values[v].(useCount := memory.values[v].useCount - 1)]);
        g := Unpinned(g, v);
      }
    }

    method MoveDisposedToDeleteKeys() returns (keys: seq<Key>)
      requires Valid()
      modifies this`disposed
      ensures disposed == {}
      ensures IsKeysOf(keys, children, Disposed(g)) && |keys| == |Disposed(g)|
    {
      hide WorldInv, Linked, Disposed, IsKeysOf, Scannable;
      ScanFacts(memory, g, children, next);
      keys := ScanDisposed(memory, children, disposed);
      disposed := {};
    }

    /** Deletes the children of these keys and erases them. */
    method GarbageCollectInternal(keys: seq<Key>, ghost w0: World) returns (n: nat)
      requires Linked(memory, g) && WorldInv(State()) && disposed == {}
      requires IsKeysOf(keys, children, Disposed(g)) && |keys| == |Disposed(g)|
      requires WorldInv(w0) && Pruned(w0.g, g)
      modifies this
      ensures Valid() && n == |keys| && next == old(next)
      ensures Round(w0.g, old(g), g) && children == StillThere(old(children), g)
    {
      hide Linked, WorldInv, Disposed, Pruned, Round, StillThere, IsKeysOf;
      n := |keys|;
      ghost var now;
      memory, children, disposed, now := DeleteKeys(memory, children, keys, w0, State());
      g := now;
    }

    /** Rounds of deletions until nothing is disposed any more; returns the number of productive rounds. */
    method GarbageCollect() returns (rounds: nat)
      requires Valid()
      modifies this
      ensures Valid() && State() == Apply(old(State()), Collect)
      ensures disposed == {} && LongestChain(old(g), rounds)
      ensures memory.heap.Keys == ReachSet(old(g), false)
      ensures forall k :: k in children <==> k in old(children) && old(children)[k] in ReachSet(old(g), false)
      ensures forall k | k in children :: children[k] == old(children)[k]
    {
      hide Linked, WorldInv, Disposed, Pruned, Round, StillThere, IsKeysOf, Collecting, Apply, LongestChain, ReachSet;
      rounds := 0;
      ghost var w0 := State();
      CollectingStart(w0);
      while true
        invariant Valid() && Collecting(w0, State(), rounds)
        decreases |g.objs|
      {
        CollectingPruned(w0, State(), rounds);
        ghost var w := State();
        var keys := MoveDisposedToDeleteKeys();
        var current := GarbageCollectInternal(keys, w0);
        if current == 0 {
          CollectingEnd(w0, w, State(), rounds);
          ApplyCollect(w0);
          break;
        }
        CollectingStep(w0, w, State(), rounds);
        rounds := rounds + 1;
      }
      CollectedFields(w0, memory);
    }

    /** Collects, detaches every child that is still in use and forgets them all. */
    method Clear()
      requires Valid()
      modifies this
      ensures Valid() && State() == Apply(old(State()), SingletonRuns.Clear)
      ensures children == map[] && disposed == {} && memory.heap.Keys == ReachSet(old(g), false)
      ensures forall o | o in memory.heap :: !memory.heap[o].attached && memory.heap[o].refCount > 0
    {
      hide Linked, WorldInv, Disposed, LongestChain, DetachSome, DetachAll, Sweep, ReachSet;
      ghost var w0 := State();
      StepInv(w0, SingletonRuns.Clear);
      var rounds := GarbageCollect();
      WorldFacts(State());
      DetachNone(g);
      memory := DetachChildren(memory, children, g);
      DetachedChildren(g, children, next);
      DetachDisposed(g);
      g := DetachAll(g);
      children := map[];
      ClearedFields(w0, memory);
    }

    method PendingGarbageCollect() returns (n: nat)
      requires Valid()
      ensures n == |Disposed(g)|
    {
      n := |disposed|;
    }
  }
}
