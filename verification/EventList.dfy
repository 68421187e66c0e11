/** The accumulated events of an attribute: a new event replaces the one it matches or goes to the end. */
module EventList {

  /** `same(new, old)`, as the event class defines it. */
  ghost predicate Equivalence<T(!new)>(same: (T, T) -> bool) {
    && (forall a :: same(a, a))
    && (forall a, b :: same(a, b) ==> same(b, a))
    && (forall a, b, c :: same(a, b) && same(b, c) ==> same(a, c))
  }

  /** The first entry the event matches, or the length of the list. */
  function Find<T>(same: (T, T) -> bool, value: seq<T>, event: T): (k: nat)
    ensures k <= |value|
  {
    if value == [] then 0 else if same(event, value[0]) then 0 else 1 + Find(same, value[1..], event)
  }

  lemma {:induction false} FindsFirst<T>(same: (T, T) -> bool, value: seq<T>, event: T)
    ensures forall i | 0 <= i < Find(same, value, event) :: !same(event, value[i])
    ensures Find(same, value, event) < |value| ==> same(event, value[Find(same, value, event)])
  {
    if value != [] && !same(event, value[0]) {
      FindsFirst(same, value[1..], event);
      assert forall i | 0 < i < |value| :: value[i] == value[1..][i - 1];
    }
  }

  lemma {:induction false} FindIs<T>(same: (T, T) -> bool, value: seq<T>, event: T, k: nat)
    requires k <= |value| && (forall i | 0 <= i < k :: !same(event, value[i])) && (k < |value| ==> same(event, value[k]))
    ensures Find(same, value, event) == k
  {
    if k > 0 {
      assert forall i | 0 < i < |value| :: value[i] == value[1..][i - 1];
      FindIs(same, value[1..], event, k - 1);
    }
  }

  function Processed<T>(same: (T, T) -> bool, value: seq<T>, event: T): seq<T> {
    var k := Find(same, value, event);
    if k == |value| then value + [event] else value[k := event]
  }

  function Accumulated<T>(same: (T, T) -> bool, es: seq<T>): seq<T> {
    if es == [] then [] else Processed(same, Accumulated(same, es[..|es| - 1]), es[|es| - 1])
  }

  // ---------------------------------------------------------------- the reference: first occurrences, last writes

  predicate IsFirst<T>(same: (T, T) -> bool, es: seq<T>, i: nat)
    requires i < |es|
  {
    forall k | 0 <= k < i :: !same(es[i], es[k])
  }

  predicate IsLast<T>(same: (T, T) -> bool, es: seq<T>, i: nat)
    requires i < |es|
  {
    forall k | i < k < |es| :: !same(es[k], es[i])
  }

  /** The places where a class of events occurs for the first time, in order. */
  function Firsts<T>(same: (T, T) -> bool, es: seq<T>): (fs: seq<nat>)
    ensures forall j | 0 <= j < |fs| :: fs[j] < |es|
  {
    if es == [] then []
    else
      var n := |es| - 1;
      Firsts(same, es[..n]) + (if IsFirst(same, es, n) then [n] else [])
  }

  lemma {:induction false} FirstsInOrder<T>(same: (T, T) -> bool, es: seq<T>)
    ensures var fs := Firsts(same, es);
      && (forall i, j | 0 <= i < j < |fs| :: fs[i] < fs[j])
      && forall i :: i in fs <==> 0 <= i < |es| && IsFirst(same, es, i)
  {
    if es != [] {
      var before := es[..|es| - 1];
      FirstsInOrder(same, before);
      assert forall k | 0 <= k < |before| :: before[k] == es[k];
      assert forall i | 0 <= i < |before| :: IsFirst(same, before, i) <==> IsFirst(same, es, i);
    }
  }

  /** Entry `j` is the last event of the class that occurred first at the `j`-th of those places. */
  ghost predicate LastOfClass<T>(same: (T, T) -> bool, es: seq<T>, entry: T, first: nat)
    requires first < |es|
  {
    exists last :: 0 <= last < |es| && es[last] == entry && same(entry, es[first]) && IsLast(same, es, last)
  }

  ghost predicate LastWrites<T>(same: (T, T) -> bool, es: seq<T>, value: seq<T>) {
    var fs := Firsts(same, es);
    |value| == |fs| && forall j | 0 <= j < |fs| :: LastOfClass(same, es, value[j], fs[j])
  }

  /** Each event belongs to the class of some first occurrence. */
  lemma {:induction false} FirstOf<T(!new)>(same: (T, T) -> bool, es: seq<T>, i: nat) returns (j: nat)
    requires Equivalence(same) && i < |es|
    ensures j < |Firsts(same, es)| && same(es[i], es[Firsts(same, es)[j]])
  {
    FirstsInOrder(same, es);
    if IsFirst(same, es, i) {
      assert i in Firsts(same, es);
      j :| 0 <= j < |Firsts(same, es)| && Firsts(same, es)[j] == i;
    } else {
      var k :| 0 <= k < i && same(es[i], es[k]);
      j := FirstOf(same, es, k);
    }
  }

  lemma LastKept<T(!new)>(same: (T, T) -> bool, es: seq<T>, e: T, entry: T, first: nat)
    requires first < |es| && LastOfClass(same, es, entry, first) && !same(e, entry)
    ensures LastOfClass(same, es + [e], entry, first)
  {
    var more := es + [e];
    var last :| 0 <= last < |es| && es[last] == entry && same(entry, es[first]) && IsLast(same, es, last);
    assert forall k | 0 <= k < |es| :: more[k] == es[k];
    assert more[last] == entry && IsLast(same, more, last);
  }

  lemma LastReplaced<T(!new)>(same: (T, T) -> bool, es: seq<T>, e: T, first: nat)
    requires first < |es| && same(e, es[first])
    ensures LastOfClass(same, es + [e], e, first)
  {
    var more := es + [e];
    assert more[|es|] == e && IsLast(same, more, |es|) && more[first] == es[first];
  }

  /** Entries of different places are in different classes. */
  lemma ApartByFirst<T(!new)>(same: (T, T) -> bool, es: seq<T>, value: seq<T>)
    requires Equivalence(same) && LastWrites(same, es, value)
    ensures forall i, j | 0 <= i < j < |value| :: !same(value[j], value[i])
  {
    var fs := Firsts(same, es);
    FirstsInOrder(same, es);
    forall i, j | 0 <= i < j < |value|
      ensures !same(value[j], value[i])
    {
      assert LastOfClass(same, es, value[i], fs[i]) && LastOfClass(same, es, value[j], fs[j]);
      assert fs[j] in fs && IsFirst(same, es, fs[j]) && !same(es[fs[j]], es[fs[i]]);
    }
  }

  /** Every entry but the matched one stays what it was. */
  lemma OthersKept<T(!new)>(same: (T, T) -> bool, es: seq<T>, value: seq<T>, e: T, j: nat)
    requires Equivalence(same) && LastWrites(same, es, value) && j < |value| && j != Find(same, value, e)
    ensures LastOfClass(same, es + [e], value[j], Firsts(same, es)[j])
  {
    FindsFirst(same, value, e);
    ApartByFirst(same, es, value);
    LastKept(same, es, e, value[j], Firsts(same, es)[j]);
  }

  /** An event that matches no entry starts a class of its own. */
  lemma StartsClass<T(!new)>(same: (T, T) -> bool, es: seq<T>, value: seq<T>, e: T)
    requires Equivalence(same) && LastWrites(same, es, value) && Find(same, value, e) == |value|
    ensures Firsts(same, es + [e]) == Firsts(same, es) + [|es|] && LastOfClass(same, es + [e], e, |es|)
  {
    var more, n, fs := es + [e], |es|, Firsts(same, es);
    assert more[..n] == es;
    FindsFirst(same, value, e);
    forall i | 0 <= i < n
      ensures !same(e, es[i])
    {
      var j := FirstOf(same, es, i);
      assert LastOfClass(same, es, value[j], fs[j]);
      assert !same(e, value[j]);
    }
    assert IsFirst(same, more, n);
    assert more[n] == e && IsLast(same, more, n);
  }

  lemma JoinsClass<T(!new)>(same: (T, T) -> bool, es: seq<T>, value: seq<T>, e: T)
    requires Equivalence(same) && LastWrites(same, es, value) && Find(same, value, e) < |value|
    ensures Firsts(same, es + [e]) == Firsts(same, es)
    ensures LastOfClass(same, es + [e], e, Firsts(same, es)[Find(same, value, e)])
  {
    var more, n, fs, k := es + [e], |es|, Firsts(same, es), Find(same, value, e);
    assert more[..n] == es;
    FindsFirst(same, value, e);
    assert LastOfClass(same, es, value[k], fs[k]);
    assert more[n] == e && more[fs[k]] == es[fs[k]] && same(e, es[fs[k]]);
    assert !IsFirst(same, more, n);
    LastReplaced(same, es, e, fs[k]);
  }

  lemma OneMore<T(!new)>(same: (T, T) -> bool, es: seq<T>, value: seq<T>, e: T)
    requires Equivalence(same) && LastWrites(same, es, value)
    ensures LastWrites(same, es + [e], Processed(same, value, e))
  {
    hide Equivalence, Firsts, Find, LastOfClass;
    var k, fs := Find(same, value, e), Firsts(same, es);
    if k == |value| {
      StartsClass(same, es, value, e);
    } else {
      JoinsClass(same, es, value, e);
    }
    forall j | 0 <= j < |fs| && j != k
      ensures LastOfClass(same, es + [e], value[j], fs[j])
    {
      OthersKept(same, es, value, e, j);
    }
  }

  /**
    For an equivalence, after any sequence of events: one entry per class, in the order of first
    occurrence, each the last event received of its class, and no two entries match.
   */
  lemma {:induction false} LastWriteWins<T(!new)>(same: (T, T) -> bool, es: seq<T>)
    requires Equivalence(same)
    ensures LastWrites(same, es, Accumulated(same, es))
    ensures forall i, j | 0 <= i < |Accumulated(same, es)| && 0 <= j < |Accumulated(same, es)| && i != j ::
      !same(Accumulated(same, es)[i], Accumulated(same, es)[j])
  {
    if es != [] {
      var before := es[..|es| - 1];
      LastWriteWins(same, before);
      OneMore(same, before, Accumulated(same, before), es[|es| - 1]);
      assert es == before + [es[|es| - 1]];
    }
    ApartByFirst(same, es, Accumulated(same, es));
  }

  class AccumulativeUniqueEvents<T(!new)> {
    const findPredicate: (T, T) -> bool
    var value: seq<T>
    var signalled: seq<seq<T>>
    ghost var received: seq<T>

    ghost predicate Valid()
      reads this
    {
      value == Accumulated(findPredicate, received)
    }

    constructor (findPredicate: (T, T) -> bool)
      ensures Valid() && received == [] && signalled == [] && this.findPredicate == findPredicate
    {
      this.findPredicate := findPredicate;
      value, signalled, received := [], [], [];
    }

    /** Every event is announced with the whole list after it. */
    method ProcessEvent(event: T)
      requires Valid()
      modifies this
      ensures Valid() && received == old(received) + [event]
      ensures signalled == old(signalled) + [value]
      ensures (forall i | 0 <= i < |old(value)| :: !findPredicate(event, old(value)[i])) ==> value == old(value) + [event]
      ensures forall k | 0 <= k < |old(value)| && findPredicate(event, old(value)[k]) ::
        (forall i | 0 <= i < k :: !findPredicate(event, old(value)[i])) ==> value == old(value)[k := event]
    {
      var it := 0;
      while it < |value| && !findPredicate(event, value[it])
        invariant it <= |value|
        invariant forall i | 0 <= i < it :: !findPredicate(event, value[i])
      {
        it := it + 1;
      }
      FindIs(findPredicate, value, event, it);
      if it == |value| {
        value := value + [event];
      } else {
        value := value[it := event];
      }
      received := received + [event];
      assert received[..|received| - 1] == old(received);
      signalled := signalled + [value];
    }
  }
}
