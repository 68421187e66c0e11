/** The state of one request: its permission flags, its cache of singletons and its signal connections. */
module RequestState {
  import opened Basics
  import opened Permissions
  import opened SingletonGraph
  import opened SingletonRuns
  import opened SingletonStorages

  // ---------------------------------------------------------------- the cache

  /** One external Ref per used key, to a singleton of that key. */
  ghost predicate CacheOk(g: Ownership, used: map<Key, Address>) {
    forall k | k in used :: External(g, used[k]) && g.target[used[k]] in g.objs && g.objs[g.target[used[k]]].key == k
  }

  /** The cached Refs lead where they led before. */
  ghost predicate SameAnswers(g: Ownership, g': Ownership, used: map<Key, Address>) {
    forall k | k in used :: used[k] in g.target && LeadsTo(g', used[k], g.target[used[k]])
  }

  ghost predicate LeadsTo(g: Ownership, r: Address, o: Address) {
    r in g.target && g.target[r] == o
  }

  lemma CacheStep(w: World, a: Action, used: map<Key, Address>)
    requires WorldInv(w) && Enabled(w, a) && CacheOk(w.g, used)
    requires forall k | k in used :: !Releases(a, used[k])
    ensures CacheOk(Apply(w, a).g, used) && SameAnswers(w.g, Apply(w, a).g, used)
    ensures forall k | k in used :: w.g.target[used[k]] !in Disposed(Apply(w, a).g)
  {
    forall k | k in used
      ensures External(Apply(w, a).g, used[k]) && Apply(w, a).g.target[used[k]] == w.g.target[used[k]]
      ensures w.g.target[used[k]] in Apply(w, a).g.objs && Apply(w, a).g.objs[w.g.target[used[k]]].key == k
      ensures w.g.target[used[k]] !in Disposed(Apply(w, a).g)
    {
      hide WorldInv, Apply, Enabled, Disposed;
      HeldRefStays(w, a, used[k]);
    }
  }

  /** Whatever else happens to the storage, the cache answers the same singletons for the request's whole life. */
  lemma {:induction false} CacheForLife(ws: seq<World>, acts: seq<Action>, i: nat, j: nat, used: map<Key, Address>)
    requires IsRun(ws, acts) && i <= j < |ws| && CacheOk(ws[i].g, used)
    requires forall m, k | i <= m < j && k in used :: !Releases(acts[m], used[k])
    ensures CacheOk(ws[j].g, used)
    ensures forall k | k in used :: used[k] in ws[i].g.target && ws[j].g.target[used[k]] == ws[i].g.target[used[k]]
    ensures forall k | k in used :: ws[j].g.target[used[k]] !in Disposed(ws[j].g)
  {
    RunInv(ws, acts, j);
    if i < j {
      CacheForLife(ws, acts, i, j - 1, used);
      RunInv(ws, acts, j - 1);
      CacheStep(ws[j - 1], acts[j - 1], used);
    } else {
      assert forall k | k in used :: used[k] in RefsTo(ws[j].g, ws[j].g.target[used[k]]);
    }
  }

  /** A temporary Ref next to a cached one comes and goes without a trace. */
  lemma TemporaryCopy(w: World, r: Address)
    requires WorldInv(w) && r in w.g.target
    ensures Enabled(Apply(w, Copy(r)), Drop(w.next))
    ensures Apply(Apply(w, Copy(r)), Drop(w.next)) == w.(next := w.next + 1)
  {
    var c := Apply(w, Copy(r));
    StepInv(w, Copy(r));
    forall v | v in c.g.vals
      ensures w.next !in c.g.vals[v].refs
    {
      assert forall q | q in w.g.vals[v].refs :: RefBelow(w.g, q, w.g.vals[v].rank);
    }
    assert Without(c.g, {w.next}).target == w.g.target;
    assert Without(c.g, {w.next}) == w.g;
    SettleDone(w.g);
  }

  lemma FirstUseEnabled(w: World, key: Key, rank: nat)
    requires WorldInv(w)
    ensures var w1 := Apply(w, Get(key, rank));
      var r := w1.next - 1;
      && w1.next > 0 && External(w1.g, r) && w1.g.target[r] == Got(w, key)
      && Enabled(w1, Copy(r)) && Enabled(Apply(w1, Copy(r)), Drop(r))
      && External(Apply(w1, Copy(r)).g, w1.next) && Apply(w1, Copy(r)).g.target[w1.next] == Got(w, key)
      && WorldInv(w1) && WorldInv(Apply(w1, Copy(r)))
  {
    var w1 := Apply(w, Get(key, rank));
    var r := w1.next - 1;
    StepInv(w, Get(key, rank));
    NewRefExternal(w.g, w.next, r);
    StepInv(w1, Copy(r));
    NewRefExternal(w1.g, w1.next, w1.next);
  }

  /** A number not handed out yet is no member of any value. */
  lemma NewRefExternal(g: Ownership, next: Address, r: Address)
    requires WellFormed(g) && Numbered(g, next) && r >= next
    ensures forall v | v in g.vals :: r !in g.vals[v].refs
  {
    assert forall v, q | v in g.vals && q in g.vals[v].refs :: RefBelow(g, q, g.vals[v].rank);
  }

  /** The first use of a key: get a Ref, keep a copy of it, drop the first one. */
  ghost predicate IsFirstUse(w: World, w1: World, w2: World, w3: World, key: Key, rank: nat) {
    && w1 == Apply(w, Get(key, rank)) && w1.next > 0
    && Enabled(w1, Copy(w1.next - 1)) && w2 == Apply(w1, Copy(w1.next - 1))
    && Enabled(w2, Drop(w1.next - 1)) && w3 == Apply(w2, Drop(w1.next - 1))
  }

  lemma FirstUse(w: World, w1: World, w2: World, w3: World, key: Key, rank: nat, used: map<Key, Address>)
    requires WorldInv(w) && IsFirstUse(w, w1, w2, w3, key, rank)
    requires CacheOk(w.g, used) && key !in used
    ensures CacheOk(w3.g, used[key := w1.next]) && LeadsTo(w3.g, w1.next, Got(w, key)) && SameAnswers(w.g, w3.g, used)
  {
    hide WorldInv, CacheOk, Got, External, Apply;
    FirstUseWorlds(w, w1, w2, w3, key, rank);
    CacheFresh(w, used, w1.next - 1);
    assert Enabled(w, Get(key, rank));
    CacheStep(w, Get(key, rank), used);
    CacheStep(w1, Copy(w1.next - 1), used);
    CacheMore(w2.g, used, key, w1.next);
    var more := used[key := w1.next];
    CacheStep(w2, Drop(w1.next - 1), more);
    assert key in more && more[key] == w1.next;
    assert forall k | k in used :: k in more && more[k] == used[k];
  }

  lemma FirstUseWorlds(w: World, w1: World, w2: World, w3: World, key: Key, rank: nat)
    requires WorldInv(w) && IsFirstUse(w, w1, w2, w3, key, rank)
    ensures WorldInv(w1) && WorldInv(w2) && w1.next - 1 >= w.next
    ensures External(w2.g, w1.next) && w2.g.target[w1.next] == Got(w, key) && Got(w, key) in w2.g.objs
    ensures w2.g.objs[Got(w, key)].key == key
  {
    FirstUseEnabled(w, key, rank);
    GotKey(w, key, rank);
  }

  lemma CacheMore(g: Ownership, used: map<Key, Address>, key: Key, r: Address)
    requires CacheOk(g, used) && External(g, r) && g.target[r] in g.objs && g.objs[g.target[r]].key == key
    ensures CacheOk(g, used[key := r])
  {
  }

  lemma CacheDefined(g: Ownership, used: map<Key, Address>)
    requires CacheOk(g, used)
    ensures forall k | k in used :: used[k] in g.target
  {
  }

  lemma GotKey(w: World, key: Key, rank: nat)
    requires WorldInv(w)
    ensures var w1 := Apply(w, Get(key, rank));
      Got(w, key) in w1.g.objs && w1.g.objs[Got(w, key)].key == key
  {
  }

  lemma CacheFresh(w: World, used: map<Key, Address>, r: Address)
    requires WorldInv(w) && CacheOk(w.g, used) && r >= w.next
    ensures forall k | k in used :: used[k] != r
  {
  }

  class GraphQLRequestState {
    const storage: SingletonStorage
    const permissions: Option<set<Permission>>
    const isSubscription: bool
    const hasSignal: Key -> bool
    var flags: Flags
    var usedSingletons: map<Key, Address>
    var connections: seq<Key>

    /** One connection per used signal-bearing key for a subscription, none otherwise. */
    ghost predicate ConnectionsOk()
      reads this
    {
      && (forall i, j | 0 <= i < j < |connections| :: connections[i] != connections[j])
      && (forall k :: k in connections <==> isSubscription && k in usedSingletons && hasSignal(k))
    }

    ghost predicate Valid()
      reads this, storage
    {
      storage.Valid() && CacheOk(storage.g, usedSingletons) && ConnectionsOk()
    }

    constructor (storage: SingletonStorage, permissions: Option<set<Permission>>, isSubscription: bool,
                 hasSignal: Key -> bool, disablePermissions: bool)
      requires storage.Valid()
      ensures Valid() && usedSingletons == map[] && flags == Flags(disablePermissions, false)
      ensures this.storage == storage && this.permissions == permissions
      ensures this.isSubscription == isSubscription && this.hasSignal == hasSignal
    {
      this.storage := storage;
      this.permissions := permissions;
      this.isSubscription := isSubscription;
      this.hasSignal := hasSignal;
      flags := Flags(disablePermissions, false);
      usedSingletons := map[];
      connections := [];
    }

    /** ClientPermissions looks the keys up one by one. */
    method Validate(required: seq<Permission>) returns (verdict: Verdict)
      modifies this`flags
      ensures (verdict, flags) == Checked(old(flags), permissions, required)
      ensures verdict == Allowed <==> old(flags.didCheck) || HasAll(permissions, required)
      ensures verdict == NotAuthenticated <==> !old(flags.didCheck) && permissions.None?
      ensures flags.failed <==> old(flags.failed) || verdict != Allowed
      ensures flags.didCheck == old(flags.didCheck)
    {
      if flags.didCheck {
        return Allowed;
      }
      if permissions.None? {
        flags := flags.(failed := true);
        return NotAuthenticated;
      }
      for i := 0 to |required|
        invariant forall j | 0 <= j < i :: required[j] in permissions.value
        invariant flags == old(flags)
      {
        if required[i] !in permissions.value {
          flags := flags.(failed := true);
          return Denied;
        }
      }
      return Allowed;
    }

    method Observe(key: Key)
      modifies this`connections
      ensures connections == if isSubscription then old(connections) + [key] else old(connections)
    {
      if isSubscription {
        connections := connections + [key];
      }
    }

    /** The first use takes a Ref for the request's whole life; later uses answer from the cache. */
    method GetSingleton(key: Key, ghost rank: nat) returns (o: Address)
      requires Valid()
      modifies this, storage
      ensures Valid() && flags == old(flags)
      ensures key in usedSingletons && usedSingletons[key] in storage.g.target && o == storage.g.target[usedSingletons[key]]
      ensures usedSingletons.Keys == old(usedSingletons.Keys) + {key}
      ensures forall k | k in old(usedSingletons) ::
        usedSingletons[k] == old(usedSingletons[k]) && storage.g.target[usedSingletons[k]] == old(storage.g.target[usedSingletons[k]])
      ensures key in old(usedSingletons) ==> storage.State() == old(storage.State()).(next := old(storage.next) + 1)
      ensures key !in old(usedSingletons) ==> o == Got(old(storage.State()), key)
    {
      if key in usedSingletons {
        o := Cached(key);
      } else {
        o := FirstUsed(key, rank);
      }
    }

    /** A cache hit: a temporary Ref gives the value. */
    method Cached(key: Key) returns (o: Address)
      requires Valid() && key in usedSingletons
      modifies storage
      ensures Valid() && usedSingletons[key] in storage.g.target && o == storage.g.target[usedSingletons[key]]
      ensures SameAnswers(old(storage.g), storage.g, usedSingletons)
      ensures storage.State() == old(storage.State()).(next := old(storage.next) + 1)
    {
      hide WorldInv, CacheOk, External, Enabled, Apply;
      var cached := usedSingletons[key];
      CacheDefined(storage.g, usedSingletons);
      TemporaryCopy(storage.State(), cached);
      var ref := storage.CopyRef(cached);
      o := storage.memory.refs[ref];
      storage.Drop(ref);
    }

    /** A first use: the storage's Ref is copied into the cache, and a subscription connects to the signal. */
    method FirstUsed(key: Key, ghost rank: nat) returns (o: Address)
      requires Valid() && key !in usedSingletons
      modifies this, storage
      ensures Valid() && flags == old(flags)
      ensures key in usedSingletons && usedSingletons[key] in storage.g.target && o == storage.g.target[usedSingletons[key]]
      ensures usedSingletons.Keys == old(usedSingletons.Keys) + {key}
      ensures SameAnswers(old(storage.g), storage.g, old(usedSingletons)) && forall k | k in old(usedSingletons) ::
        usedSingletons[k] == old(usedSingletons[k])
      ensures o == Got(old(storage.State()), key)
    {
      hide WorldInv, CacheOk, Got, SameAnswers, External;
      var base;
      base, o := Retain(key, rank);
      usedSingletons := usedSingletons[key := base];
      if hasSignal(key) {
        Observe(key);
      }
    }

    /** Get a Ref, keep a copy of it, drop the first one. */
    method Retain(key: Key, ghost rank: nat) returns (base: Address, o: Address)
      requires Valid() && key !in usedSingletons
      modifies storage
      ensures storage.Valid() && CacheOk(storage.g, usedSingletons[key := base]) && LeadsTo(storage.g, base, o)
      ensures SameAnswers(old(storage.g), storage.g, usedSingletons) && o == Got(old(storage.State()), key)
    {
      hide WorldInv, CacheOk, External, Enabled, Apply, Got, SameAnswers;
      ghost var w := storage.State();
      FirstUseEnabled(w, key, rank);
      var ref := storage.Get(key, rank);
      o := storage.memory.refs[ref];
      ghost var w1 := storage.State();
      base := storage.CopyRef(ref);
      ghost var w2 := storage.State();
      storage.Drop(ref);
      FirstUse(w, w1, w2, storage.State(), key, rank, usedSingletons);
    }
  }
}
