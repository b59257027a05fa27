/**
 * LruCache: a cache whose reads only set a flag, so that they can share a lock. The object
 * over its list and map, and what its list is after any history of calls.
 */
module DirtyLruCache {
  import opened Common
  import opened RecencyList

  /** A value and whether it was read since its key was last moved to the front. */
  datatype Cell<+V> = Cell(value: V, dirty: bool)

  type Items<K, V> = seq<Entry<K, Cell<V>>>

  // ----- The operations on the list -----

  /** Position of the dirty entry nearest the tail, or -1. */
  function LastDirty<K, V>(l: Items<K, V>): (p: int)
    ensures -1 <= p < |l|
    ensures p >= 0 ==> l[p].value.dirty
    ensures forall i :: p < i < |l| ==> !l[i].value.dirty
  {
    if l == [] then -1
    else if l[|l| - 1].value.dirty then |l| - 1
    else LastDirty(l[..|l| - 1])
  }

  function Cleaned<K, V>(e: Entry<K, Cell<V>>): Entry<K, Cell<V>> {
    e.(value := e.value.(dirty := false))
  }

  /** The dirty entry nearest the tail, if any, moves to the front and becomes clean. */
  function Promoted<K, V>(l: Items<K, V>): Items<K, V> {
    var p := LastDirty(l);
    if p < 0 then l else [Cleaned(l[p])] + (l[..p] + l[p + 1..])
  }

  function Marked<K(==), V>(l: Items<K, V>, k: K): (r: Items<K, V>)
    ensures |r| == |l|
  {
    if l == [] then []
    else [if l[0].key == k then l[0].(value := l[0].value.(dirty := true)) else l[0]] + Marked(l[1..], k)
  }

  function MaxAllowed(capacity: nat, overflow: nat): nat {
    (capacity + overflow) % SIZE_T_RANGE
  }

  function Evicted<K, V>(l: Items<K, V>, capacity: nat, overflow: nat): Items<K, V> {
    if capacity == 0 || |l| <= MaxAllowed(capacity, overflow) || |l| <= capacity then l else l[..capacity]
  }

  function Stored<K(==), V>(l: Items<K, V>, capacity: nat, overflow: nat, k: K, v: V): Items<K, V> {
    if Has(Promoted(l), k) then Touch(Promoted(l), k, Cell(v, false))
    else Evicted([Entry(k, Cell(v, false))] + Promoted(l), capacity, overflow)
  }

  // ----- Promotion and eviction -----

  /** Where the entry at position i goes in a promotion. */
  function PositionAfterPromotion<K, V>(l: Items<K, V>, i: nat): (r: nat)
    requires i < |l|
  {
    var p := LastDirty(l);
    if p < 0 then i else if i == p then 0 else if i < p then i + 1 else i
  }

  lemma PromotedAt<K, V>(l: Items<K, V>, i: nat)
    requires i < |l|
    ensures |Promoted(l)| == |l|
    ensures Promoted(l)[PositionAfterPromotion(l, i)]
            == if i == LastDirty(l) then Cleaned(l[i]) else l[i]
  {
    if LastDirty(l) >= 0 {
      MovedToFront(l, LastDirty(l), Cleaned(l[LastDirty(l)]), i);
    }
  }

  lemma MovedToFront<T>(l: seq<T>, p: nat, front: T, i: nat)
    requires p < |l| && i < |l|
    ensures var r := [front] + (l[..p] + l[p + 1..]);
            |r| == |l| && (i < p ==> r[i + 1] == l[i]) && (i > p ==> r[i] == l[i]) && r[0] == front
  {
  }

  lemma PromotedKeepsDistinct<K, V>(l: Items<K, V>)
    requires DistinctKeys(l)
    ensures DistinctKeys(Promoted(l)) && |Promoted(l)| == |l|
  {
    var p := LastDirty(l);
    if p >= 0 {
      var r := Promoted(l);
      assert forall i :: 0 <= i < |r| ==> r[i].key == l[if i == 0 then p else if i <= p then i - 1 else i].key;
    }
  }

  lemma PromotedKeepsKey<K, V>(l: Items<K, V>, k: K)
    ensures Has(Promoted(l), k) <==> Has(l, k)
  {
    if Has(l, k) {
      var i :| 0 <= i < |l| && l[i].key == k;
      PromotedAt(l, i);
    }
    if Has(Promoted(l), k) {
      var p := LastDirty(l);
      var j :| 0 <= j < |Promoted(l)| && Promoted(l)[j].key == k;
      if p >= 0 {
        MovedToFront(l, p, Cleaned(l[p]), if j == 0 then p else if j <= p then j - 1 else j);
      }
    }
  }

  /** A promotion moves one entry at most and keeps the order and the flags of all others. */
  lemma PromotionMovesOneEntry<K, V>(l: Items<K, V>)
    requires DistinctKeys(l) && LastDirty(l) >= 0
    ensures var moved := l[LastDirty(l)];
            && Promoted(l)[0] == Cleaned(moved)
            && Promoted(l)[1..] == Drop(l, moved.key)
            && !Has(Promoted(l)[1..], moved.key)
  {
    DropIsErase(l, LastDirty(l));
    DropKeepsDistinct(l, l[LastDirty(l)].key);
  }

  lemma {:induction false} MarkedAt<K, V>(l: Items<K, V>, k: K, i: nat)
    requires i < |l|
    ensures Marked(l, k)[i] == if l[i].key == k then l[i].(value := l[i].value.(dirty := true)) else l[i]
  {
    if i > 0 {
      MarkedAt(l[1..], k, i - 1);
    }
  }

  /** Any reads between two writes. */
  function MarkedAll<K(==), V>(l: Items<K, V>, ks: seq<K>): (r: Items<K, V>)
    ensures |r| == |l|
  {
    if ks == [] then l else Marked(MarkedAll(l, ks[..|ks| - 1]), ks[|ks| - 1])
  }

  /** Reads set the flags of exactly the keys that were read. */
  lemma {:induction false} MarkedAllAt<K, V>(l: Items<K, V>, ks: seq<K>, i: nat)
    requires i < |l|
    ensures MarkedAll(l, ks)[i] == if l[i].key in ks then l[i].(value := l[i].value.(dirty := true)) else l[i]
  {
    if ks != [] {
      var front := ks[..|ks| - 1];
      MarkedAllAt(l, front, i);
      MarkedAt(MarkedAll(l, front), ks[|ks| - 1], i);
      assert ks == front + [ks[|ks| - 1]];
    }
  }

  /** Reads between two writes commute: the state depends only on the set of keys read, and no read changes a value. */
  lemma ReadsCommute<K, V>(l: Items<K, V>, ks: seq<K>, other: seq<K>)
    requires forall k :: k in ks <==> k in other
    ensures MarkedAll(l, ks) == MarkedAll(l, other)
    ensures forall i :: 0 <= i < |l| ==> MarkedAll(l, ks)[i].key == l[i].key
                                         && MarkedAll(l, ks)[i].value.value == l[i].value.value
  {
    forall i | 0 <= i < |l|
      ensures MarkedAll(l, ks)[i] == MarkedAll(l, other)[i]
      ensures MarkedAll(l, ks)[i].key == l[i].key && MarkedAll(l, ks)[i].value.value == l[i].value.value
    {
      MarkedAllAt(l, ks, i);
      MarkedAllAt(l, other, i);
    }
  }

  /**
   * An insertion first moves the dirty entry nearest the tail to the front, cleaned, and then
   * puts its own key before it, taking out the old entry of that key. Only a new key evicts,
   * and only from the tail.
   */
  lemma InsertPromotesFirst<K, V>(l: Items<K, V>, capacity: nat, overflow: nat, k: K, v: V)
    requires DistinctKeys(l)
    ensures var p, stored := LastDirty(l), Stored(l, capacity, overflow, k, v);
            var promoted := if p < 0 then l else [l[p].(value := Cell(l[p].value.value, false))] + Drop(l, l[p].key);
            && (Has(l, k) ==> stored == [Entry(k, Cell(v, false))] + Drop(promoted, k))
            && (!Has(l, k) ==> stored <= [Entry(k, Cell(v, false))] + promoted)
  {
    var promoted := Promoted(l);
    PromotedShape(l);
    PromotedKeepsKey(l, k);
    StoredShape(l, promoted, capacity, overflow, k, v);
  }

  lemma StoredShape<K, V>(l: Items<K, V>, promoted: Items<K, V>, capacity: nat, overflow: nat, k: K, v: V)
    requires promoted == Promoted(l)
    ensures var stored := Stored(l, capacity, overflow, k, v);
            && (Has(promoted, k) ==> stored == [Entry(k, Cell(v, false))] + Drop(promoted, k))
            && (!Has(promoted, k) ==> stored <= [Entry(k, Cell(v, false))] + promoted)
  {
  }

  lemma PromotedShape<K, V>(l: Items<K, V>)
    requires DistinctKeys(l)
    ensures var p := LastDirty(l);
            Promoted(l) == if p < 0 then l else [l[p].(value := Cell(l[p].value.value, false))] + Drop(l, l[p].key)
  {
    if LastDirty(l) >= 0 {
      DropIsErase(l, LastDirty(l));
    }
  }

  /** The inserted key is clean, at the front, and never evicted by its own insertion. */
  lemma InsertedKeyIsFrontAndClean<K, V>(l: Items<K, V>, capacity: nat, overflow: nat, k: K, v: V)
    requires DistinctKeys(l)
    ensures Stored(l, capacity, overflow, k, v) != []
    ensures Stored(l, capacity, overflow, k, v)[0] == Entry(k, Cell(v, false))
  {
  }

  /**
   * Which entries survive the insertion of a new key: all of them while the size stays
   * within capacity and overflow, else those that end up among the first capacity entries.
   * Only the dirty entry nearest the tail gains a place by having been read.
   */
  lemma SurvivesInsertIff<K, V>(l: Items<K, V>, capacity: nat, overflow: nat, k: K, v: V, i: nat)
    requires DistinctKeys(l) && !Has(l, k) && i < |l|
    ensures Has(Stored(l, capacity, overflow, k, v), l[i].key)
            <==> capacity == 0 || |l| + 1 <= (capacity + overflow) % 0x1_0000_0000_0000_0000
                 || PositionAfterPromotion(l, i) + 1 < capacity
  {
    PromotedKeepsDistinct(l);
    PromotedKeepsKey(l, k);
    PromotedAt(l, i);
    var longer, pos := [Entry(k, Cell(v, false))] + Promoted(l), PositionAfterPromotion(l, i) + 1;
    assert longer[pos].key == l[i].key;
    assert forall j :: 0 < j < |longer| ==> longer[j] == Promoted(l)[j - 1];
    EvictedHasIff(longer, pos, capacity, overflow);
  }

  lemma EvictedHasIff<K, V>(l: Items<K, V>, pos: nat, capacity: nat, overflow: nat)
    requires pos < |l| && forall j :: 0 <= j < |l| && j != pos ==> l[j].key != l[pos].key
    ensures Has(Evicted(l, capacity, overflow), l[pos].key)
            <==> capacity == 0 || |l| <= (capacity + overflow) % 0x1_0000_0000_0000_0000 || pos < capacity
  {
    SurvivesPrefixIff(l, pos, capacity);
  }

  lemma SurvivesPrefixIff<K, V>(l: Items<K, V>, pos: nat, n: nat)
    requires pos < |l| && forall j :: 0 <= j < |l| && j != pos ==> l[j].key != l[pos].key
    ensures Has(l, l[pos].key)
    ensures n <= |l| ==> (Has(l[..n], l[pos].key) <==> pos < n)
  {
    if pos < n <= |l| {
      assert l[..n][pos].key == l[pos].key;
    }
  }

  /** A key that was read may still go: of the two keys read here only one is kept. */
  lemma ReadKeyMayBeEvicted()
    ensures var l := [Entry(3, Cell("three", false)), Entry(2, Cell("two", true)), Entry(1, Cell("one", true))];
            DistinctKeys(l) && !Has(Stored(l, 2, 0, 4, "four"), 2) && Has(Stored(l, 2, 0, 4, "four"), 1)
  {
    var l := [Entry(3, Cell("three", false)), Entry(2, Cell("two", true)), Entry(1, Cell("one", true))];
    assert !Has(l, 4);
    assert l[1].key == 2 && l[2].key == 1;
    SurvivesInsertIff(l, 2, 0, 4, "four", 1);
    SurvivesInsertIff(l, 2, 0, 4, "four", 2);
  }

  // ----- Histories -----

  datatype Step<K, V> =
    | Insert(key: K, value: V)
    | Get(key: K)
    | Remove(key: K)
    | Clear
    | Resize(n: nat)
    | SetOverflow(n: nat)

  /** live is the map a program without evictions would hold. */
  datatype State<!K, V> = State(capacity: nat, overflow: nat, items: Items<K, V>, live: map<K, V>)

  function Initial<K, V>(capacity: nat, overflow: nat): State<K, V> {
    State(capacity, overflow, [], map[])
  }

  function Apply<K(==), V>(s: State<K, V>, step: Step<K, V>): State<K, V> {
    match step
    case Insert(k, v) => s.(items := Stored(s.items, s.capacity, s.overflow, k, v), live := s.live[k := v])
    case Get(k) => s.(items := Marked(s.items, k))
    case Remove(k) => s.(items := Drop(s.items, k), live := s.live - {k})
    case Clear => s.(items := [], live := map[])
    case Resize(n) => s.(capacity := n, items := Evicted(s.items, n, s.overflow))
    case SetOverflow(n) => s.(overflow := n, items := Evicted(s.items, s.capacity, n))
  }

  function Run<K(==), V>(s: State<K, V>, steps: seq<Step<K, V>>): State<K, V> {
    if steps == [] then s else Apply(Run(s, steps[..|steps| - 1]), steps[|steps| - 1])
  }

  ghost predicate HoldsLive<K, V>(l: Items<K, V>, live: map<K, V>) {
    forall i :: 0 <= i < |l| ==> l[i].key in live && live[l[i].key] == l[i].value.value
  }

  ghost predicate Inv<K, V>(s: State<K, V>) {
    && DistinctKeys(s.items)
    && HoldsLive(s.items, s.live)
    && (s.capacity > 0 ==> |s.items| <= s.capacity + s.overflow)
  }

  lemma {:induction false} DropHoldsLive<K, V>(l: Items<K, V>, live: map<K, V>, k: K)
    requires HoldsLive(l, live)
    ensures HoldsLive(Drop(l, k), live - {k}) && |Drop(l, k)| <= |l|
  {
    if l != [] {
      DropHoldsLive(l[1..], live, k);
    }
  }

  lemma TouchHoldsLive<K, V>(l: Items<K, V>, live: map<K, V>, k: K, v: V)
    requires HoldsLive(l, live)
    ensures HoldsLive(Touch(l, k, Cell(v, false)), live[k := v])
  {
    DropHoldsLive(l, live, k);
  }

  lemma PromotedHoldsLive<K, V>(l: Items<K, V>, live: map<K, V>)
    requires HoldsLive(l, live)
    ensures HoldsLive(Promoted(l), live)
  {
  }

  lemma InsertKeepsInv<K, V>(s: State<K, V>, k: K, v: V)
    requires Inv(s)
    ensures Inv(Apply(s, Insert(k, v)))
  {
    var l := Promoted(s.items);
    PromotedKeepsDistinct(s.items);
    PromotedHoldsLive(s.items, s.live);
    TouchKeepsDistinct(l, k, Cell(v, false));
    TouchHoldsLive(l, s.live, k, v);
    TouchSize(l, k, v);
    var touched := Touch(l, k, Cell(v, false));
    PrefixKeepsLive(touched, Apply(s, Insert(k, v)).items, s.live[k := v]);
  }

  lemma PrefixKeepsLive<K, V>(l: Items<K, V>, prefix: Items<K, V>, live: map<K, V>)
    requires DistinctKeys(l) && HoldsLive(l, live) && prefix <= l
    ensures DistinctKeys(prefix) && HoldsLive(prefix, live)
  {
  }

  lemma TouchSize<K, V>(l: Items<K, V>, k: K, v: V)
    requires DistinctKeys(l)
    ensures Has(l, k) ==> |Touch(l, k, Cell(v, false))| == |l|
    ensures !Has(l, k) ==> Touch(l, k, Cell(v, false)) == [Entry(k, Cell(v, false))] + l
  {
    if Has(l, k) {
      var i :| 0 <= i < |l| && l[i].key == k;
      DropIsErase(l, i);
    } else {
      DropAbsent(l, k);
    }
  }

  lemma GetKeepsInv<K, V>(s: State<K, V>, k: K)
    requires Inv(s)
    ensures Inv(Apply(s, Get(k)))
  {
    forall i | 0 <= i < |s.items|
      ensures Marked(s.items, k)[i].key == s.items[i].key
      ensures Marked(s.items, k)[i].value.value == s.items[i].value.value
    {
      MarkedAt(s.items, k, i);
    }
  }

  /** In every reachable state, resizing included: distinct keys, the values inserted last, and the size limit. */
  lemma {:induction false} AgreesWithMap<K, V>(capacity: nat, overflow: nat, steps: seq<Step<K, V>>)
    ensures Inv(Run(Initial(capacity, overflow), steps))
  {
    if steps != [] {
      var before := Run(Initial(capacity, overflow), steps[..|steps| - 1]);
      AgreesWithMap(capacity, overflow, steps[..|steps| - 1]);
      match steps[|steps| - 1]
      case Insert(k, v) => InsertKeepsInv(before, k, v);
      case Get(k) => GetKeepsInv(before, k);
      case Remove(k) =>
        DropKeepsDistinct(before.items, k);
        DropHoldsLive(before.items, before.live, k);
      case _ =>
    }
  }

  /** After any history a hit returns the value inserted last, and a removed key does not hit. */
  lemma HitsReturnLastInserted<K, V>(capacity: nat, overflow: nat, steps: seq<Step<K, V>>, k: K)
    ensures var s := Run(Initial(capacity, overflow), steps);
            Find(s.items, k).Some? ==> k in s.live && s.live[k] == Find(s.items, k).value.value
  {
    AgreesWithMap(capacity, overflow, steps);
    var s := Run(Initial(capacity, overflow), steps);
    FindPresent(s.items, k);
    if Has(s.items, k) {
      var i :| 0 <= i < |s.items| && s.items[i].key == k;
      FindAt(s.items, i);
    }
  }

  lemma StoredKeepsAll<K, V>(l: Items<K, V>, overflow: nat, k: K, v: V, other: K)
    requires DistinctKeys(l) && (other == k || Has(l, other))
    ensures Has(Stored(l, 0, overflow, k, v), other)
  {
    var p := Promoted(l);
    PromotedKeepsDistinct(l);
    PromotedKeepsKey(l, other);
    if Has(p, k) {
      TouchKeepsAll(p, k, Cell(v, false), other);
    } else {
      var stored := [Entry(k, Cell(v, false))] + p;
      assert stored[0].key == k;
      if other != k {
        var i :| 0 <= i < |p| && p[i].key == other;
        assert stored[i + 1].key == other;
      }
    }
  }

  lemma TouchKeepsAll<K, C>(l: seq<Entry<K, C>>, k: K, c: C, other: K)
    requires DistinctKeys(l) && (other == k || Has(l, other))
    ensures Has(Touch(l, k, c), other)
  {
    assert Touch(l, k, c)[0].key == k;
    if other != k {
      DropKeepsOthers(l, k, other);
      var i :| 0 <= i < |Drop(l, k)| && Drop(l, k)[i].key == other;
      assert Touch(l, k, c)[i + 1].key == other;
    }
  }

  lemma MarkedKeepsKey<K, V>(l: Items<K, V>, k: K, other: K)
    requires Has(l, other)
    ensures Has(Marked(l, k), other)
  {
    var i :| 0 <= i < |l| && l[i].key == other;
    MarkedAt(l, k, i);
  }

  /** As long as the capacity is 0, which means no limit, every key that was inserted and not removed hits. */
  lemma {:induction false} UnlimitedCacheKeepsAll<K, V>(overflow: nat, steps: seq<Step<K, V>>, k: K)
    requires forall i :: 0 <= i < |steps| && steps[i].Resize? ==> steps[i].n == 0
    ensures var s := Run(Initial(0, overflow), steps); s.capacity == 0 && (k in s.live ==> Has(s.items, k))
  {
    if steps != [] {
      var before, step := Run(Initial(0, overflow), steps[..|steps| - 1]), steps[|steps| - 1];
      UnlimitedCacheKeepsAll(overflow, steps[..|steps| - 1], k);
      AgreesWithMap(0, overflow, steps[..|steps| - 1]);
      KeepsKeyOf(before, step, k);
    }
  }

  lemma KeepsKeyOf<K, V>(s: State<K, V>, step: Step<K, V>, k: K)
    requires Inv(s) && s.capacity == 0 && (k in s.live ==> Has(s.items, k)) && (step.Resize? ==> step.n == 0)
    ensures Apply(s, step).capacity == 0 && (k in Apply(s, step).live ==> Has(Apply(s, step).items, k))
  {
    if k in Apply(s, step).live {
      match step
      case Insert(key, v) => StoredKeepsAll(s.items, s.overflow, key, v, k);
      case Get(key) => MarkedKeepsKey(s.items, key, k);
      case Remove(key) => DropKeepsOthers(s.items, key, k);
      case _ =>
    }
  }

  // ----- The object -----

  ghost predicate DistinctElements<K>(ks: seq<K>) {
    forall i, j :: 0 <= i < j < |ks| ==> ks[i] != ks[j]
  }

  lemma {:induction false} DistinctSize<K>(ks: seq<K>, all: set<K>)
    requires DistinctElements(ks) && forall k :: k in all <==> k in ks
    ensures |all| == |ks|
  {
    if ks == [] {
      assert all == {};
    } else {
      assert forall i :: 0 <= i < |ks[1..]| ==> ks[1..][i] == ks[i + 1];
      assert ks[0] !in ks[1..];
      DistinctSize(ks[1..], all - {ks[0]});
    }
  }

  /** The list and the map hold the same keys, each once. */
  ghost predicate Paired<K, V>(ks: seq<K>, cache: map<K, Cell<V>>) {
    DistinctElements(ks) && (forall k :: k in cache ==> k in ks) && (forall k :: k in ks ==> k in cache)
  }

  ghost function ItemsOf<K, V>(ks: seq<K>, cache: map<K, Cell<V>>): (l: Items<K, V>)
    requires forall k :: k in ks ==> k in cache
    ensures |l| == |ks|
  {
    seq(|ks|, i requires 0 <= i < |ks| => Entry(ks[i], cache[ks[i]]))
  }

  lemma PairedHas<K, V>(ks: seq<K>, cache: map<K, Cell<V>>, k: K)
    requires Paired(ks, cache)
    ensures DistinctKeys(ItemsOf(ks, cache))
    ensures k in cache <==> Has(ItemsOf(ks, cache), k)
    ensures |cache| == |ks|
  {
    DistinctSize(ks, cache.Keys);
    var l := ItemsOf(ks, cache);
    if k in cache {
      var i :| 0 <= i < |ks| && ks[i] == k;
      assert l[i].key == k;
    }
    if Has(l, k) {
      var i :| 0 <= i < |l| && l[i].key == k;
      assert ks[i] in ks;
    }
  }

  lemma PairedErase<K, V>(ks: seq<K>, cache: map<K, Cell<V>>, i: nat)
    requires Paired(ks, cache) && i < |ks|
    ensures Paired(ks[..i] + ks[i + 1..], cache - {ks[i]})
  {
    var rest := ks[..i] + ks[i + 1..];
    assert ks == ks[..i] + [ks[i]] + ks[i + 1..];
    assert forall k :: k in ks <==> k in rest || k == ks[i];
    assert ks[i] !in rest;
  }

  lemma ItemsErase<K, V>(ks: seq<K>, cache: map<K, Cell<V>>, i: nat)
    requires Paired(ks, cache) && i < |ks|
    requires Paired(ks[..i] + ks[i + 1..], cache - {ks[i]})
    ensures ItemsOf(ks[..i] + ks[i + 1..], cache - {ks[i]}) == Drop(ItemsOf(ks, cache), ks[i])
    ensures DistinctKeys(ItemsOf(ks, cache))
  {
    PairedHas(ks, cache, ks[i]);
    DropIsErase(ItemsOf(ks, cache), i);
    ItemsWithout(ks, cache, i);
  }

  lemma ItemsWithout<K, V>(ks: seq<K>, cache: map<K, Cell<V>>, i: nat)
    requires i < |ks| && forall k :: k in ks ==> k in cache
    requires forall k :: k in ks[..i] + ks[i + 1..] ==> k in cache - {ks[i]}
    ensures ItemsOf(ks[..i] + ks[i + 1..], cache - {ks[i]}) == ItemsOf(ks, cache)[..i] + ItemsOf(ks, cache)[i + 1..]
  {
    var rest := ks[..i] + ks[i + 1..];
    assert forall j :: 0 <= j < |rest| ==> rest[j] in rest && rest[j] == ks[if j < i then j else j + 1];
  }

  lemma PairedPush<K, V>(ks: seq<K>, cache: map<K, Cell<V>>, k: K, cell: Cell<V>)
    requires Paired(ks, cache) && k !in cache
    ensures Paired([k] + ks, cache[k := cell])
    ensures ItemsOf([k] + ks, cache[k := cell]) == [Entry(k, cell)] + ItemsOf(ks, cache)
  {
    assert forall other :: other in [k] + ks <==> other in ks || other == k;
    assert forall j :: 0 <= j < |ks| ==> ks[j] in ks;
  }

  /** Taking key ks[i] out and putting it back in front with a new cell. */
  lemma PairedSplice<K, V>(ks: seq<K>, cache: map<K, Cell<V>>, i: nat, cell: Cell<V>)
    requires Paired(ks, cache) && i < |ks|
    ensures Paired([ks[i]] + (ks[..i] + ks[i + 1..]), cache[ks[i] := cell])
    ensures ItemsOf([ks[i]] + (ks[..i] + ks[i + 1..]), cache[ks[i] := cell]) == Touch(ItemsOf(ks, cache), ks[i], cell)
  {
    PairedErase(ks, cache, i);
    ItemsErase(ks, cache, i);
    PairedPush(ks[..i] + ks[i + 1..], cache - {ks[i]}, ks[i], cell);
    assert (cache - {ks[i]})[ks[i] := cell] == cache[ks[i] := cell];
  }

  lemma {:induction false} MarkedIsMap<K, V>(ks: seq<K>, cache: map<K, Cell<V>>, k: K)
    requires Paired(ks, cache) && k in cache
    ensures Paired(ks, cache[k := cache[k].(dirty := true)])
    ensures ItemsOf(ks, cache[k := cache[k].(dirty := true)]) == Marked(ItemsOf(ks, cache), k)
  {
    var after := ItemsOf(ks, cache[k := cache[k].(dirty := true)]);
    forall i | 0 <= i < |ks|
      ensures after[i] == Marked(ItemsOf(ks, cache), k)[i]
    {
      MarkedAt(ItemsOf(ks, cache), k, i);
    }
  }

  lemma MarkedAbsent<K, V>(l: Items<K, V>, k: K)
    requires !Has(l, k)
    ensures Marked(l, k) == l
  {
    forall i | 0 <= i < |l|
      ensures Marked(l, k)[i] == l[i]
    {
      MarkedAt(l, k, i);
    }
  }

  lemma {:induction false} LastDirtyUnique<K, V>(l: Items<K, V>, p: int)
    requires -1 <= p < |l| && (p >= 0 ==> l[p].value.dirty)
    requires forall i :: p < i < |l| ==> !l[i].value.dirty
    ensures LastDirty(l) == p
  {
  }

  class LruCache<K(==), V(0)> {
    var capacity: nat
    var overflow: nat
    var lruList: seq<K>
    var cache: map<K, Cell<V>>

    ghost predicate Valid()
      reads this
    {
      Paired(lruList, cache)
    }

    ghost function Contents(): (l: Items<K, V>)
      requires Valid()
      reads this
    {
      ItemsOf(lruList, cache)
    }

    constructor (capacity: nat, overflow: nat)
      ensures Valid() && Contents() == []
      ensures this.capacity == capacity && this.overflow == overflow
    {
      this.capacity, this.overflow := capacity, overflow;
      lruList := [];
      cache := map[];
    }

    /** The position of the map's iterator for a key. */
    method IndexOf(key: K) returns (i: nat)
      requires key in lruList
      ensures i < |lruList| && lruList[i] == key
    {
      i :| 0 <= i < |lruList| && lruList[i] == key;
    }

    method Insert(key: K, value: V)
      requires Valid()
      modifies this`lruList, this`cache
      ensures Valid()
      ensures Contents() == Stored(old(Contents()), capacity, overflow, key, value)
    {
      BatchUpdateDirtyNodes();
      PairedHas(lruList, cache, key);
      if key in cache {
        var i := IndexOf(key);
        PairedSplice(lruList, cache, i, Cell(value, false));
        cache := cache[key := Cell(value, false)];
        lruList := [key] + (lruList[..i] + lruList[i + 1..]);
      } else {
        PairedPush(lruList, cache, key, Cell(value, false));
        lruList := [key] + lruList;
        cache := cache[key := Cell(value, false)];
        var count := PruneIfNeeded();
      }
    }

    /** Scans from the tail for a dirty key and moves the first one found to the front. */
    method BatchUpdateDirtyNodes()
      requires Valid()
      modifies this`lruList, this`cache
      ensures Valid()
      ensures Contents() == Promoted(old(Contents()))
    {
      var i := |lruList|;
      var hasDirty := false;
      while i > 0 && !hasDirty
        invariant 0 <= i <= |lruList|
        invariant forall j :: i <= j < |lruList| && (hasDirty ==> j > i) ==> !Contents()[j].value.dirty
        invariant hasDirty ==> i < |lruList| && Contents()[i].value.dirty
        decreases i, !hasDirty
      {
        i := i - 1;
        assert lruList[i] in lruList;
        if cache[lruList[i]].dirty {
          hasDirty := true;
        }
      }
      LastDirtyUnique(Contents(), if hasDirty then i else -1);
      if hasDirty {
        Promote(i);
      }
    }

    /** Clears the flag of the key at position i and moves it to the front. */
    method Promote(i: nat)
      requires Valid() && i < |lruList| && LastDirty(Contents()) == i
      modifies this`lruList, this`cache
      ensures Valid()
      ensures Contents() == Promoted(old(Contents()))
    {
      var key := lruList[i];
      assert key in lruList;
      PairedHas(lruList, cache, key);
      DropIsErase(Contents(), i);
      PairedSplice(lruList, cache, i, cache[key].(dirty := false));
      cache := cache[key := cache[key].(dirty := false)];
      lruList := [key] + (lruList[..i] + lruList[i + 1..]);
    }

    method PruneIfNeeded() returns (count: nat)
      requires Valid()
      modifies this`lruList, this`cache
      ensures Valid()
      ensures Contents() == Evicted(old(Contents()), capacity, overflow)
      ensures count == |old(lruList)| - |lruList|
    {
      count := 0;
      DistinctSize(lruList, cache.Keys);
      var maxAllowed := (capacity + overflow) % SIZE_T_RANGE;
      if capacity == 0 || |cache| <= maxAllowed {
        return;
      }
      while |cache| > capacity
        invariant Valid() && |cache| == |lruList| <= |old(lruList)|
        invariant Contents() == old(Contents())[..|lruList|]
        invariant count == |old(lruList)| - |lruList|
        invariant |lruList| >= capacity || count == 0
      {
        PopBack();
        count := count + 1;
      }
    }

    method PopBack()
      requires Valid() && lruList != []
      modifies this`lruList, this`cache
      ensures Valid() && |cache| == |lruList| == |old(lruList)| - 1
      ensures Contents() == old(Contents())[..|lruList|]
    {
      var last := |lruList| - 1;
      PairedErase(lruList, cache, last);
      assert lruList[..last] + lruList[last + 1..] == lruList[..last];
      assert forall j :: 0 <= j < last ==> lruList[..last][j] in lruList[..last];
      cache := cache - {lruList[last]};
      lruList := lruList[..last];
      DistinctSize(lruList, cache.Keys);
    }

    /** get for a default V: the default stands for the default-constructed value of a miss. */
    method Get(key: K, default: V) returns (r: V)
      requires Valid()
      modifies this`cache
      ensures Valid()
      ensures Contents() == Marked(old(Contents()), key)
      ensures var hit := Find(old(Contents()), key); r == if hit.Some? then hit.value.value else default
    {
      var hit := TryGet(key);
      return if hit.Some? then hit.value else default;
    }

    method TryGet(key: K) returns (r: Option<V>)
      requires Valid()
      modifies this`cache
      ensures Valid()
      ensures Contents() == Marked(old(Contents()), key)
      ensures var hit := Find(old(Contents()), key); r == if hit.Some? then Some(hit.value.value) else None
    {
      PairedHas(lruList, cache, key);
      if key !in cache {
        MarkedAbsent(Contents(), key);
        FindAbsent(Contents(), key);
        return None;
      }
      var i := IndexOf(key);
      FindAt(Contents(), i);
      MarkedIsMap(lruList, cache, key);
      cache := cache[key := cache[key].(dirty := true)];
      return Some(cache[key].value);
    }

    method Contains(key: K) returns (r: bool)
      requires Valid()
      ensures r <==> Has(Contents(), key)
    {
      PairedHas(lruList, cache, key);
      return key in cache;
    }

    method Remove(key: K) returns (removed: bool)
      requires Valid()
      modifies this`lruList, this`cache
      ensures Valid()
      ensures removed <==> Has(old(Contents()), key)
      ensures Contents() == Drop(old(Contents()), key)
    {
      PairedHas(lruList, cache, key);
      if key !in cache {
        DropAbsent(Contents(), key);
        return false;
      }
      var i := IndexOf(key);
      PairedErase(lruList, cache, i);
      ItemsErase(lruList, cache, i);
      lruList := lruList[..i] + lruList[i + 1..];
      cache := cache - {key};
      return true;
    }

    method Clear()
      modifies this`lruList, this`cache
      ensures Valid() && Contents() == []
    {
      cache := map[];
      lruList := [];
    }

    method Resize(n: nat)
      requires Valid()
      modifies this
      ensures Valid() && capacity == n && overflow == old(overflow)
      ensures Contents() == Evicted(old(Contents()), n, overflow)
    {
      capacity := n;
      var count := PruneIfNeeded();
    }

    method SetOverflow(n: nat)
      requires Valid()
      modifies this
      ensures Valid() && overflow == n && capacity == old(capacity)
      ensures Contents() == Evicted(old(Contents()), capacity, n)
    {
      overflow := n;
      var count := PruneIfNeeded();
    }
  }
}
