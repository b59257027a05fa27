/**
 * lru11::Cache: the object over its linked list and its map of iterators, and what its list
 * is after any history of calls.
 */
module Lru11Cache {
  import opened Common
  import opened RecencyList

  // ----- The list as a function of the history -----

  /** The size at which a prune starts; the sum wraps around like size_t. */
  function MaxAllowed(maxSize: nat, slack: nat): nat {
    (maxSize + slack) % SIZE_T_RANGE
  }

  function Pruned<K, V>(l: seq<Entry<K, V>>, maxSize: nat, elasticity: nat): seq<Entry<K, V>> {
    if maxSize == 0 || |l| < MaxAllowed(maxSize, elasticity) || |l| <= maxSize then l else l[..maxSize]
  }

  function Inserted<K(==), V>(l: seq<Entry<K, V>>, maxSize: nat, elasticity: nat, k: K, v: V): seq<Entry<K, V>> {
    if Has(l, k) then Touch(l, k, v) else Pruned([Entry(k, v)] + l, maxSize, elasticity)
  }

  function Refreshed<K(==), V>(l: seq<Entry<K, V>>, k: K): seq<Entry<K, V>> {
    if Find(l, k).Some? then Touch(l, k, Find(l, k).value) else l
  }

  datatype Step<K, V> = Insert(key: K, value: V) | Get(key: K) | Remove(key: K) | Clear

  /**
   * kept is the list of the cache. all is the list of a cache that never evicts and sees the
   * same touches; last is the map a program without evictions would hold.
   */
  datatype State<!K, V> = State(maxSize: nat, elasticity: nat, kept: seq<Entry<K, V>>, all: seq<Entry<K, V>>,
                                last: map<K, V>)

  function Initial<K, V>(maxSize: nat, elasticity: nat): State<K, V> {
    State(maxSize, elasticity, [], [], map[])
  }

  function Apply<K(==), V>(s: State<K, V>, step: Step<K, V>): State<K, V> {
    match step
    case Insert(k, v) =>
      s.(kept := Inserted(s.kept, s.maxSize, s.elasticity, k, v), all := Touch(s.all, k, v), last := s.last[k := v])
    case Get(k) =>
      if Has(s.kept, k) then s.(kept := Refreshed(s.kept, k), all := Refreshed(s.all, k)) else s
    case Remove(k) => s.(kept := Drop(s.kept, k), all := Drop(s.all, k), last := s.last - {k})
    case Clear => s.(kept := [], all := [], last := map[])
  }

  function Run<K(==), V>(s: State<K, V>, steps: seq<Step<K, V>>): State<K, V> {
    if steps == [] then s else Apply(Run(s, steps[..|steps| - 1]), steps[|steps| - 1])
  }

  ghost predicate WithinSize<K, V>(s: State<K, V>) {
    s.maxSize > 0 ==> |s.kept| <= s.maxSize + (if s.elasticity > 1 then s.elasticity else 1) - 1
  }

  /** The list without evictions holds exactly the entries of the map without evictions. */
  ghost predicate Mirrors<K, V>(all: seq<Entry<K, V>>, last: map<K, V>) {
    DistinctKeys(all) && Agrees(all, last) && forall k :: k in last ==> Has(all, k)
  }

  /** The list of the cache is the most recent part of the list without evictions. */
  ghost predicate Inv<K, V>(s: State<K, V>) {
    Mirrors(s.all, s.last) && s.kept <= s.all && WithinSize(s) && (s.maxSize == 0 ==> s.kept == s.all)
  }

  lemma HasInPrefix<K, V>(l: seq<Entry<K, V>>, all: seq<Entry<K, V>>, k: K)
    requires l <= all && DistinctKeys(all) && Has(l, k)
    ensures Find(l, k).Some? && Find(all, k) == Find(l, k)
    ensures |Drop(l, k)| == |l| - 1
  {
    var i :| 0 <= i < |l| && l[i].key == k;
    FindAt(all, i);
    FindAt(l, i);
    DropIsErase(l, i);
  }

  lemma TouchMirrors<K, V>(all: seq<Entry<K, V>>, last: map<K, V>, k: K, v: V)
    requires Mirrors(all, last)
    ensures Mirrors(Touch(all, k, v), last[k := v])
  {
    TouchKeepsDistinct(all, k, v);
    TouchAgrees(all, last, k, v);
    forall other | other in last[k := v]
      ensures Has(Touch(all, k, v), other)
    {
      if other == k {
        assert Touch(all, k, v)[0].key == k;
      } else {
        DropKeepsOthers(all, k, other);
        var j :| 0 <= j < |Drop(all, k)| && Drop(all, k)[j].key == other;
        assert Touch(all, k, v)[j + 1].key == other;
      }
    }
  }

  lemma DropMirrors<K, V>(all: seq<Entry<K, V>>, last: map<K, V>, k: K)
    requires Mirrors(all, last)
    ensures Mirrors(Drop(all, k), last - {k})
  {
    DropKeepsDistinct(all, k);
    DropAgrees(all, last, k);
    forall other | other in last - {k}
      ensures Has(Drop(all, k), other)
    {
      DropKeepsOthers(all, k, other);
    }
  }

  lemma InsertKeepsInv<K, V>(s: State<K, V>, k: K, v: V)
    requires Inv(s)
    ensures Inv(Apply(s, Insert(k, v)))
  {
    TouchMirrors(s.all, s.last, k, v);
    TouchKeepsPrefix(s.kept, s.all, k, v);
    if Has(s.kept, k) {
      HasInPrefix(s.kept, s.all, k);
    } else {
      DropAbsent(s.kept, k);
      PrunedIsPrefix(Touch(s.kept, k, v), s.maxSize, s.elasticity);
    }
  }

  lemma PrunedIsPrefix<K, V>(l: seq<Entry<K, V>>, maxSize: nat, elasticity: nat)
    ensures Pruned(l, maxSize, elasticity) <= l
    ensures maxSize > 0 ==>
              |Pruned(l, maxSize, elasticity)| <= maxSize + (if elasticity > 1 then elasticity else 1) - 1
    ensures maxSize == 0 ==> Pruned(l, maxSize, elasticity) == l
  {
  }

  lemma GetKeepsInv<K, V>(s: State<K, V>, k: K)
    requires Inv(s)
    ensures Inv(Apply(s, Get(k)))
  {
    if Has(s.kept, k) {
      HasInPrefix(s.kept, s.all, k);
      var v := Find(s.all, k).value;
      var i :| 0 <= i < |s.kept| && s.kept[i].key == k;
      FindAt(s.all, i);
      TouchMirrors(s.all, s.last, k, v);
      assert s.last[k := v] == s.last;
      TouchKeepsPrefix(s.kept, s.all, k, v);
    }
  }

  lemma RemoveKeepsInv<K, V>(s: State<K, V>, k: K)
    requires Inv(s)
    ensures Inv(Apply(s, Remove(k)))
  {
    DropMirrors(s.all, s.last, k);
    DropShortens(s.kept, k);
    assert s.all == s.kept + s.all[|s.kept|..];
    DropOfConcat(s.kept, s.all[|s.kept|..], k);
  }

  lemma {:induction false} DropShortens<K, V>(l: seq<Entry<K, V>>, k: K)
    ensures |Drop(l, k)| <= |l|
  {
    if l != [] {
      DropShortens(l[1..], k);
    }
  }

  /**
   * After any history the list is a prefix of the list of all keys, most recently touched
   * first, that a map without evictions would hold, with the same values; its size keeps
   * below the limit.
   */
  lemma {:induction false} KeepsMostRecentKeys<K, V>(maxSize: nat, elasticity: nat, steps: seq<Step<K, V>>)
    ensures Inv(Run(Initial(maxSize, elasticity), steps))
    ensures Run(Initial<K, V>(maxSize, elasticity), steps).maxSize == maxSize
    ensures Run(Initial<K, V>(maxSize, elasticity), steps).elasticity == elasticity
  {
    if steps != [] {
      var before := Run(Initial(maxSize, elasticity), steps[..|steps| - 1]);
      KeepsMostRecentKeys(maxSize, elasticity, steps[..|steps| - 1]);
      match steps[|steps| - 1]
      case Insert(k, v) => InsertKeepsInv(before, k, v);
      case Get(k) => GetKeepsInv(before, k);
      case Remove(k) => RemoveKeepsInv(before, k);
      case Clear =>
    }
  }

  /** After any history a hit returns the value inserted last; without a limit every stored key hits. */
  lemma HitsReturnLastInserted<K, V>(maxSize: nat, elasticity: nat, steps: seq<Step<K, V>>, k: K)
    ensures var s := Run(Initial(maxSize, elasticity), steps);
            && (Find(s.kept, k).Some? ==> k in s.last && s.last[k] == Find(s.kept, k).value)
            && (maxSize == 0 && k in s.last ==> Find(s.kept, k).Some?)
  {
    KeepsMostRecentKeys(maxSize, elasticity, steps);
    var s := Run(Initial(maxSize, elasticity), steps);
    PrefixOfDistinct(s.kept, s.all);
    FindPresent(s.kept, k);
    if Has(s.kept, k) {
      HasInPrefix(s.kept, s.all, k);
      var i :| 0 <= i < |s.all| && s.all[i].key == k;
      FindAt(s.all, i);
    }
  }

  /** An insertion that evicts leaves exactly the maxSize most recently touched keys. */
  lemma EvictionKeepsExactlyMaxSize<K, V>(s: State<K, V>, k: K, v: V)
    requires Inv(s)
    ensures var t := Apply(s, Insert(k, v));
            |t.kept| < |Touch(s.kept, k, v)| ==> 0 < s.maxSize <= |t.all| && t.kept == t.all[..s.maxSize]
  {
    TouchKeepsPrefix(s.kept, s.all, k, v);
    if !Has(s.kept, k) {
      DropAbsent(s.kept, k);
    }
  }

  predicate Evicts<K(==), V>(s: State<K, V>, k: K, v: V) {
    |Apply(s, Insert(k, v)).kept| < |Touch(s.kept, k, v)|
  }

  /** An insertion evicts exactly when a new key brings a bounded cache to its limit and above maxSize. */
  lemma InsertEvictsIff<K, V>(s: State<K, V>, k: K, v: V)
    requires Inv(s)
    ensures Evicts(s, k, v)
            <==> && !Has(s.kept, k) && s.maxSize > 0
                 && |s.kept| + 1 >= (s.maxSize + s.elasticity) % 0x1_0000_0000_0000_0000 && |s.kept| + 1 > s.maxSize
  {
    if Has(s.kept, k) {
      HasInPrefix(s.kept, s.all, k);
    } else {
      DropAbsent(s.kept, k);
    }
  }

  /**
   * The cache is said to grow up to maxSize + elasticity before it evicts. An insertion keeps
   * to this unless a new key brings the size above maxSize and into the gap between the limit
   * that is computed and maxSize + elasticity, both included.
   */
  lemma EvictsAsDocumentedIff<K, V>(s: State<K, V>, k: K, v: V)
    requires Inv(s)
    ensures var size := |s.kept| + 1;
            (Evicts(s, k, v) <==> !Has(s.kept, k) && s.maxSize > 0 && size > s.maxSize + s.elasticity)
            <==> !(&& !Has(s.kept, k) && s.maxSize > 0 && size > s.maxSize
                   && (s.maxSize + s.elasticity) % 0x1_0000_0000_0000_0000 <= size <= s.maxSize + s.elasticity)
  {
    InsertEvictsIff(s, k, v);
  }

  lemma RunAppend<K, V>(s: State<K, V>, steps: seq<Step<K, V>>, step: Step<K, V>)
    ensures Run(s, steps + [step]) == Apply(Run(s, steps), step)
  {
    assert (steps + [step])[..|steps|] == steps;
  }

  const THREE: seq<Step<int, string>> := [Insert(1, "one"), Insert(2, "two"), Insert(3, "three")]

  lemma ThreeKeys()
    ensures var s := Run(Initial(2, 2), THREE);
            && s.kept == [Entry(3, "three"), Entry(2, "two"), Entry(1, "one")]
            && s.maxSize == 2 && s.elasticity == 2
  {
    var s0 := Initial<int, string>(2, 2);
    var a, b, c := Insert(1, "one"), Insert(2, "two"), Insert(3, "three");
    var l1, l2 := [Entry(1, "one")], [Entry(2, "two"), Entry(1, "one")];
    InsertNew(s0, [], [a], [], 1, "one", l1);
    InsertNew(s0, [a], [a, b], l1, 2, "two", l2);
    InsertNew(s0, [a, b], THREE, l2, 3, "three", [Entry(3, "three"), Entry(2, "two"), Entry(1, "one")]);
  }

  /** With room for two keys and two more, the fourth key already evicts two. */
  lemma EvictsAtLimit()
    ensures |Run(Initial(2, 2), THREE).kept| == 3
    ensures Run(Initial(2, 2), THREE + [Insert(4, "four")]).kept == [Entry(4, "four"), Entry(3, "three")]
  {
    ThreeKeys();
    var l := [Entry(3, "three"), Entry(2, "two"), Entry(1, "one")];
    InsertNew(Initial(2, 2), THREE, THREE + [Insert(4, "four")], l, 4, "four", [Entry(4, "four")] + l);
  }

  lemma InsertNew<K, V>(s: State<K, V>, steps: seq<Step<K, V>>, more: seq<Step<K, V>>, l: seq<Entry<K, V>>, k: K, v: V,
                        longer: seq<Entry<K, V>>)
    requires Run(s, steps).kept == l && !Has(l, k)
    requires more == steps + [Insert(k, v)] && longer == [Entry(k, v)] + l
    ensures var t := Run(s, steps);
            && Run(s, more).kept == Pruned(longer, t.maxSize, t.elasticity)
            && Run(s, more).maxSize == t.maxSize && Run(s, more).elasticity == t.elasticity
  {
    RunAppend(s, steps, Insert(k, v));
  }

  // ----- The object -----

  class Node<K, V> {
    const key: K
    var value: V

    constructor (key: K, value: V)
      ensures this.key == key && this.value == value
    {
      this.key, this.value := key, value;
    }
  }

  ghost function EntriesOf<K, V>(nodes: seq<Node<K, V>>): (l: seq<Entry<K, V>>)
    reads nodes
    ensures |l| == |nodes|
  {
    seq(|nodes|, i requires 0 <= i < |nodes| reads nodes => Entry(nodes[i].key, nodes[i].value))
  }

  ghost predicate DistinctNodes<K, V>(nodes: seq<Node<K, V>>) {
    forall i, j :: 0 <= i < j < |nodes| ==> nodes[i].key != nodes[j].key
  }

  /** For each key of the list its own node, and nothing else. */
  ghost function IndexOfNodes<K, V>(nodes: seq<Node<K, V>>): map<K, Node<K, V>> {
    if nodes == [] then map[] else IndexOfNodes(nodes[1..])[nodes[0].key := nodes[0]]
  }

  lemma {:induction false} IndexContains<K, V>(nodes: seq<Node<K, V>>, k: K)
    requires DistinctNodes(nodes)
    ensures var index := IndexOfNodes(nodes);
            && (k in index <==> exists i :: 0 <= i < |nodes| && nodes[i].key == k)
            && (k in index ==> index[k] in nodes && index[k].key == k)
  {
    if nodes != [] {
      var rest := nodes[1..];
      assert forall i :: 0 <= i < |rest| ==> rest[i] == nodes[i + 1];
      IndexContains(rest, k);
    }
  }

  lemma TailIsDistinct<K, V>(nodes: seq<Node<K, V>>)
    requires DistinctNodes(nodes) && nodes != []
    ensures DistinctNodes(nodes[1..])
    ensures forall j :: 1 <= j < |nodes| ==> nodes[j].key != nodes[0].key
  {
    assert forall j :: 0 <= j < |nodes[1..]| ==> nodes[1..][j] == nodes[j + 1];
  }

  lemma EraseBehindFront<T>(l: seq<T>, i: nat)
    requires 0 < i < |l|
    ensures l[1..][i - 1] == l[i]
    ensures l[..i] + l[i + 1..] == [l[0]] + (l[1..][..i - 1] + l[1..][i..])
  {
  }

  lemma {:induction false} IndexErase<K, V>(nodes: seq<Node<K, V>>, i: nat)
    requires DistinctNodes(nodes) && i < |nodes|
    ensures IndexOfNodes(nodes[..i] + nodes[i + 1..]) == IndexOfNodes(nodes) - {nodes[i].key}
  {
    var rest := nodes[1..];
    TailIsDistinct(nodes);
    if i == 0 {
      IndexContains(rest, nodes[0].key);
      assert nodes[..0] + rest == rest;
      RemoveAdded(IndexOfNodes(rest), nodes[0].key, nodes[0]);
    } else {
      IndexErase(rest, i - 1);
      var shorter := rest[..i - 1] + rest[i..];
      EraseBehindFront(nodes, i);
      IndexPush(nodes[0], shorter);
      RemoveOther(IndexOfNodes(rest), nodes[i].key, nodes[0].key, nodes[0]);
    }
  }

  lemma IndexPush<K, V>(node: Node<K, V>, nodes: seq<Node<K, V>>)
    ensures IndexOfNodes([node] + nodes) == IndexOfNodes(nodes)[node.key := node]
  {
    assert ([node] + nodes)[1..] == nodes;
  }

  lemma RemoveAdded<A, B>(m: map<A, B>, a: A, b: B)
    requires a !in m
    ensures m[a := b] - {a} == m
  {
  }

  lemma RemoveOther<A, B>(m: map<A, B>, other: A, a: A, b: B)
    requires other != a
    ensures m[a := b] - {other} == (m - {other})[a := b]
  {
  }

  lemma {:induction false} IndexSize<K, V>(nodes: seq<Node<K, V>>)
    requires DistinctNodes(nodes)
    ensures |IndexOfNodes(nodes)| == |nodes|
  {
    if nodes != [] {
      var rest := nodes[1..];
      assert forall j :: 0 <= j < |rest| ==> rest[j] == nodes[j + 1];
      IndexSize(rest);
      IndexContains(rest, nodes[0].key);
      assert IndexOfNodes(nodes).Keys == IndexOfNodes(rest).Keys + {nodes[0].key};
    }
  }

  ghost predicate Linked<K, V>(cache: map<K, Node<K, V>>, nodes: seq<Node<K, V>>) {
    DistinctNodes(nodes) && cache == IndexOfNodes(nodes)
  }

  lemma LinkedErase<K, V>(cache: map<K, Node<K, V>>, nodes: seq<Node<K, V>>, i: nat)
    requires Linked(cache, nodes) && i < |nodes|
    ensures Linked(cache - {nodes[i].key}, nodes[..i] + nodes[i + 1..])
    ensures nodes[i].key in cache && cache[nodes[i].key] == nodes[i]
  {
    IndexErase(nodes, i);
    IndexContains(nodes, nodes[i].key);
  }

  lemma LinkedPush<K, V>(cache: map<K, Node<K, V>>, nodes: seq<Node<K, V>>, node: Node<K, V>)
    requires Linked(cache, nodes) && node.key !in cache
    ensures Linked(cache[node.key := node], [node] + nodes)
  {
    IndexContains(nodes, node.key);
    assert ([node] + nodes)[1..] == nodes;
  }

  lemma EntriesErase<K, V>(nodes: seq<Node<K, V>>, i: nat)
    requires i < |nodes| && DistinctNodes(nodes)
    ensures EntriesOf(nodes[..i] + nodes[i + 1..]) == Drop(EntriesOf(nodes), nodes[i].key)
  {
    DropIsErase(EntriesOf(nodes), i);
  }

  lemma LinkedSplice<K, V>(cache: map<K, Node<K, V>>, nodes: seq<Node<K, V>>, i: nat)
    requires Linked(cache, nodes) && i < |nodes|
    ensures Linked(cache, [nodes[i]] + (nodes[..i] + nodes[i + 1..]))
  {
    LinkedErase(cache, nodes, i);
    LinkedPush(cache - {nodes[i].key}, nodes[..i] + nodes[i + 1..], nodes[i]);
    assert (cache - {nodes[i].key})[nodes[i].key := nodes[i]] == cache;
  }

  lemma EntriesSplice<K, V>(nodes: seq<Node<K, V>>, i: nat)
    requires i < |nodes| && DistinctNodes(nodes)
    ensures EntriesOf([nodes[i]] + (nodes[..i] + nodes[i + 1..]))
            == Touch(EntriesOf(nodes), nodes[i].key, nodes[i].value)
  {
    EntriesErase(nodes, i);
  }

  lemma LinkedHas<K, V>(cache: map<K, Node<K, V>>, nodes: seq<Node<K, V>>, k: K)
    requires Linked(cache, nodes)
    ensures k in cache <==> Has(EntriesOf(nodes), k)
    ensures k in cache ==> cache[k] in nodes && cache[k].key == k
    ensures |cache| == |nodes|
  {
    IndexContains(nodes, k);
    IndexSize(nodes);
    if k in cache {
      var j :| 0 <= j < |nodes| && nodes[j].key == k;
      assert EntriesOf(nodes)[j].key == k;
    }
  }

  class Cache<K(==), V> {
    const maxSize: nat
    const elasticity: nat
    var cache: map<K, Node<K, V>>
    var keys: seq<Node<K, V>>

    ghost predicate Valid()
      reads this
    {
      Linked(cache, keys)
    }

    ghost function Contents(): (l: seq<Entry<K, V>>)
      reads this, keys
    {
      EntriesOf(keys)
    }

    constructor (maxSize: nat, elasticity: nat)
      ensures Valid() && Contents() == []
      ensures this.maxSize == maxSize && this.elasticity == elasticity
    {
      this.maxSize, this.elasticity := maxSize, elasticity;
      cache := map[];
      keys := [];
    }

    /** The position of an iterator. */
    method IndexOf(node: Node<K, V>) returns (i: nat)
      requires node in keys
      ensures i < |keys| && keys[i] == node
    {
      i :| 0 <= i < |keys| && keys[i] == node;
    }

    /** splice: the node moves to the front. */
    method SpliceToFront(node: Node<K, V>)
      requires Valid() && node.key in cache && cache[node.key] == node
      modifies this`keys
      ensures Valid() && Contents() == Touch(old(Contents()), node.key, node.value)
    {
      LinkedHas(cache, keys, node.key);
      var i := IndexOf(node);
      LinkedSplice(cache, keys, i);
      EntriesSplice(keys, i);
      keys := [node] + (keys[..i] + keys[i + 1..]);
    }

    method Insert(k: K, v: V)
      requires Valid()
      modifies this, keys
      ensures Valid()
      ensures Contents() == Inserted(old(Contents()), maxSize, elasticity, k, v)
    {
      LinkedHas(cache, keys, k);
      if k in cache {
        Update(cache[k], v);
        SpliceToFront(cache[k]);
      } else {
        var node := new Node(k, v);
        LinkedPush(cache, keys, node);
        assert EntriesOf([node] + keys) == [Entry(k, v)] + old(EntriesOf(keys));
        keys := [node] + keys;
        cache := cache[k := node];
        var count := Prune();
      }
    }

    /** Writes a value into a node; only the entry of its key changes. */
    method Update(node: Node<K, V>, v: V)
      requires Valid() && node.key in cache && cache[node.key] == node
      modifies node
      ensures Drop(Contents(), node.key) == Drop(old(Contents()), node.key)
      ensures node.value == v
    {
      LinkedHas(cache, keys, node.key);
      var i := IndexOf(node);
      ghost var before := Contents();
      DropIsErase(before, i);
      node.value := v;
      ghost var after := Contents();
      assert forall j :: 0 <= j < |keys| && j != i ==> keys[j] != node && after[j] == before[j];
      DropIsErase(after, i);
      assert after[..i] == before[..i] && after[i + 1..] == before[i + 1..];
    }

    method Prune() returns (count: nat)
      requires Valid()
      modifies this`cache, this`keys
      ensures Valid()
      ensures Contents() == Pruned(old(Contents()), maxSize, elasticity)
      ensures count == |old(keys)| - |keys|
    {
      count := 0;
      IndexSize(keys);
      var maxAllowed := (maxSize + elasticity) % SIZE_T_RANGE;
      if maxSize == 0 || |cache| < maxAllowed {
        return;
      }
      while |cache| > maxSize
        invariant Valid() && |cache| == |keys| && |keys| <= |old(keys)| && keys == old(keys)[..|keys|]
        invariant count == |old(keys)| - |keys|
        invariant |keys| >= maxSize || count == 0
      {
        PopBack();
        IndexSize(keys);
        count := count + 1;
      }
      assert Contents() == old(Contents())[..|keys|];
    }

    method PopBack()
      requires Valid() && keys != []
      modifies this`cache, this`keys
      ensures Valid() && keys == old(keys)[..|old(keys)| - 1]
    {
      var last := |keys| - 1;
      LinkedErase(cache, keys, last);
      assert keys[..last] + keys[last + 1..] == keys[..last];
      cache := cache - {keys[last].key};
      keys := keys[..last];
    }

    method TryGet(k: K) returns (r: Option<V>)
      requires Valid()
      modifies this`keys
      ensures Valid()
      ensures r == Find(old(Contents()), k)
      ensures Contents() == Refreshed(old(Contents()), k)
    {
      LinkedHas(cache, keys, k);
      FindPresent(Contents(), k);
      if k !in cache {
        return None;
      }
      var node := cache[k];
      var i := IndexOf(node);
      FindAt(Contents(), i);
      SpliceToFront(node);
      return Some(node.value);
    }

    method Remove(k: K) returns (removed: bool)
      requires Valid()
      modifies this`cache, this`keys
      ensures Valid()
      ensures removed <==> Has(old(Contents()), k)
      ensures Contents() == Drop(old(Contents()), k)
    {
      LinkedHas(cache, keys, k);
      if k !in cache {
        DropAbsent(Contents(), k);
        return false;
      }
      var i := IndexOf(cache[k]);
      LinkedErase(cache, keys, i);
      EntriesErase(keys, i);
      keys := keys[..i] + keys[i + 1..];
      cache := cache - {k};
      return true;
    }

    method Clear()
      modifies this`cache, this`keys
      ensures Valid() && Contents() == []
    {
      cache := map[];
      keys := [];
    }

    method Contains(k: K) returns (r: bool)
      requires Valid()
      ensures r <==> Has(Contents(), k)
    {
      LinkedHas(cache, keys, k);
      return k in cache;
    }

    method Size() returns (n: nat)
      requires Valid()
      ensures n == |Contents()|
    {
      IndexSize(keys);
      return |cache|;
    }
  }
}
