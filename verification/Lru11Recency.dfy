/** What "most recent" means in lru11::Cache, told from the history of calls alone. */
module Lru11Recency {
  import opened Common
  import opened RecencyList
  import opened Lru11Cache

  // ----- One call -----

  /** A hit moves the entry to the front as it is and keeps the order of all others; a miss changes nothing. */
  lemma HitMovesToFront<K, V>(s: State<K, V>, k: K)
    requires Inv(s)
    ensures forall i :: 0 <= i < |s.kept| && s.kept[i].key == k ==>
                          Apply(s, Get(k)).kept == [s.kept[i]] + (s.kept[..i] + s.kept[i + 1..])
    ensures (forall i :: 0 <= i < |s.kept| ==> s.kept[i].key != k) ==> Apply(s, Get(k)) == s
  {
    PrefixOfDistinct(s.kept, s.all);
    forall i | 0 <= i < |s.kept| && s.kept[i].key == k
      ensures Apply(s, Get(k)).kept == [s.kept[i]] + (s.kept[..i] + s.kept[i + 1..])
    {
      assert Has(s.kept, k);
      FindAt(s.kept, i);
      DropIsErase(s.kept, i);
    }
  }

  /** An insertion puts its key first with its value; the others keep their order, and only a new key evicts. */
  lemma InsertPutsFirst<K, V>(s: State<K, V>, k: K, v: V)
    requires Inv(s)
    ensures forall i :: 0 <= i < |s.kept| && s.kept[i].key == k ==>
                          Apply(s, Insert(k, v)).kept == [Entry(k, v)] + (s.kept[..i] + s.kept[i + 1..])
    ensures (forall i :: 0 <= i < |s.kept| ==> s.kept[i].key != k) ==>
              Apply(s, Insert(k, v)).kept != [] && Apply(s, Insert(k, v)).kept <= [Entry(k, v)] + s.kept
  {
    PrefixOfDistinct(s.kept, s.all);
    forall i | 0 <= i < |s.kept| && s.kept[i].key == k
      ensures Apply(s, Insert(k, v)).kept == [Entry(k, v)] + (s.kept[..i] + s.kept[i + 1..])
    {
      assert Has(s.kept, k);
      DropIsErase(s.kept, i);
    }
  }

  // ----- Histories -----

  /** Call n of the history inserts k, or gets k and hits. */
  predicate Touches<K(==), V>(start: State<K, V>, steps: seq<Step<K, V>>, n: nat, k: K)
    requires n < |steps|
  {
    && (steps[n].Insert? || steps[n].Get?) && steps[n].key == k
    && (steps[n].Get? ==> Find(Run(start, steps[..n]).kept, k).Some?)
  }

  lemma TouchesOfPrefix<K, V>(start: State<K, V>, steps: seq<Step<K, V>>, n: nat, k: K)
    requires n < |steps|
    ensures forall i :: 0 <= i < n ==> (Touches(start, steps[..n], i, k) <==> Touches(start, steps, i, k))
    ensures !Touches(start, steps, n, k) && n == |steps| - 1 ==>
              forall i :: n <= i < |steps| ==> !Touches(start, steps, i, k)
  {
    forall i | 0 <= i < n
      ensures Touches(start, steps[..n], i, k) <==> Touches(start, steps, i, k)
    {
      assert steps[..n][..i] == steps[..i];
    }
  }

  /** The number of the last call that touches k, or -1. */
  function LastTouch<K(==), V>(start: State<K, V>, steps: seq<Step<K, V>>, k: K): (r: int)
    ensures -1 <= r < |steps|
    ensures r >= 0 ==> Touches(start, steps, r, k)
    ensures forall n :: r < n < |steps| ==> !Touches(start, steps, n, k)
  {
    if steps == [] then -1
    else
      var n := |steps| - 1;
      if Touches(start, steps, n, k) then n
      else
        TouchesOfPrefix(start, steps, n, k);
        LastTouch(start, steps[..n], k)
  }

  ghost predicate Decreasing<K, V>(l: seq<Entry<K, V>>, rank: K -> int) {
    forall i, j :: 0 <= i < j < |l| ==> rank(l[i].key) > rank(l[j].key)
  }

  lemma EraseKeepsDecreasing<K, V>(l: seq<Entry<K, V>>, i: nat, rank: K -> int)
    requires i < |l| && Decreasing(l, rank)
    ensures Decreasing(l[..i] + l[i + 1..], rank)
  {
    var r := l[..i] + l[i + 1..];
    assert forall j :: 0 <= j < |r| ==> r[j] == l[if j < i then j else j + 1];
  }

  lemma PushKeepsDecreasing<K, V>(l: seq<Entry<K, V>>, e: Entry<K, V>, rank: K -> int)
    requires Decreasing(l, rank) && forall i :: 0 <= i < |l| ==> rank(l[i].key) < rank(e.key)
    ensures Decreasing([e] + l, rank)
  {
    var r := [e] + l;
    assert forall j :: 0 < j < |r| ==> r[j] == l[j - 1];
  }

  lemma RankOfOthers<K, V>(l: seq<Entry<K, V>>, k: K, rank: K -> int, newer: K -> int)
    requires Decreasing(l, rank) && forall i :: 0 <= i < |l| ==> l[i].key != k
    requires forall other :: other != k ==> newer(other) == rank(other)
    ensures Decreasing(l, newer)
  {
    assert forall i :: 0 <= i < |l| ==> newer(l[i].key) == rank(l[i].key);
  }

  lemma OlderThan<K, V>(l: seq<Entry<K, V>>, k: K, rank: K -> int, newer: K -> int)
    requires forall i :: 0 <= i < |l| ==> l[i].key != k
    requires forall other :: other != k ==> newer(other) == rank(other) < newer(k)
    ensures forall i :: 0 <= i < |l| ==> newer(l[i].key) < newer(k)
  {
    assert forall i :: 0 <= i < |l| ==> newer(l[i].key) == rank(l[i].key);
  }

  lemma DropKeepsDecreasing<K, V>(l: seq<Entry<K, V>>, k: K, rank: K -> int, newer: K -> int)
    requires DistinctKeys(l) && Decreasing(l, rank)
    requires forall other :: other != k ==> newer(other) == rank(other)
    ensures Decreasing(Drop(l, k), newer)
    ensures forall i :: 0 <= i < |Drop(l, k)| ==> Drop(l, k)[i].key != k
  {
    DropKeepsDistinct(l, k);
    if Has(l, k) {
      var i :| 0 <= i < |l| && l[i].key == k;
      DropIsErase(l, i);
      EraseKeepsDecreasing(l, i, rank);
    } else {
      DropAbsent(l, k);
    }
    RankOfOthers(Drop(l, k), k, rank, newer);
  }

  lemma TouchKeepsDecreasing<K, V>(l: seq<Entry<K, V>>, k: K, v: V, rank: K -> int, newer: K -> int)
    requires DistinctKeys(l) && Decreasing(l, rank)
    requires forall other :: other != k ==> newer(other) == rank(other) < newer(k)
    ensures Decreasing(Touch(l, k, v), newer)
  {
    DropKeepsDecreasing(l, k, rank, newer);
    OlderThan(Drop(l, k), k, rank, newer);
    PushKeepsDecreasing(Drop(l, k), Entry(k, v), newer);
  }

  lemma StepKeepsDecreasing<K, V>(start: State<K, V>, steps: seq<Step<K, V>>, step: Step<K, V>)
    requires Inv(Run(start, steps))
    requires Decreasing(Run(start, steps).all, k => LastTouch(start, steps, k))
    ensures Decreasing(Run(start, steps + [step]).all, k => LastTouch(start, steps + [step], k))
  {
    var s, more := Run(start, steps), steps + [step];
    var rank, newer := k => LastTouch(start, steps, k), k => LastTouch(start, more, k);
    assert more[..|steps|] == steps;
    RunAppend(start, steps, step);
    PrefixOfDistinct(s.kept, s.all);
    match step
    case Insert(k, v) => TouchKeepsDecreasing(s.all, k, v, rank, newer);
    case Get(k) =>
      FindPresent(s.kept, k);
      if Has(s.kept, k) {
        HasInPrefix(s.kept, s.all, k);
        TouchKeepsDecreasing(s.all, k, Find(s.all, k).value, rank, newer);
      }
    case Remove(k) => DropKeepsDecreasing(s.all, k, rank, newer);
    case Clear =>
  }

  /**
   * After any history the keys of the list stand in the order of their last touches, latest
   * first; of the keys that were inserted and not removed since, those that miss were last
   * touched before all of these.
   */
  lemma {:induction false} ListIsInOrderOfLastTouch<K, V>(maxSize: nat, elasticity: nat, steps: seq<Step<K, V>>)
    ensures var start := Initial<K, V>(maxSize, elasticity);
            var kept, last := Run(start, steps).kept, Run(start, steps).last;
            && (forall i, j :: 0 <= i < j < |kept| ==>
                  LastTouch(start, steps, kept[i].key) > LastTouch(start, steps, kept[j].key))
            && (forall i, k :: 0 <= i < |kept| && k in last && Find(kept, k).None? ==>
                  LastTouch(start, steps, kept[i].key) > LastTouch(start, steps, k))
  {
    var start := Initial<K, V>(maxSize, elasticity);
    var s := Run(start, steps);
    AllInOrder(maxSize, elasticity, steps);
    KeepsMostRecentKeys(maxSize, elasticity, steps);
    PrefixOfDistinct(s.kept, s.all);
    forall i, k | 0 <= i < |s.kept| && k in s.last && Find(s.kept, k).None?
      ensures LastTouch(start, steps, s.kept[i].key) > LastTouch(start, steps, k)
    {
      FindPresent(s.kept, k);
      assert Has(s.all, k);
      var j :| 0 <= j < |s.all| && s.all[j].key == k;
      assert forall n :: 0 <= n < |s.kept| ==> s.kept[n].key != k;
    }
  }

  lemma {:induction false} AllInOrder<K, V>(maxSize: nat, elasticity: nat, steps: seq<Step<K, V>>)
    ensures var start := Initial<K, V>(maxSize, elasticity);
            Decreasing(Run(start, steps).all, k => LastTouch(start, steps, k))
  {
    if steps != [] {
      var n := |steps| - 1;
      AllInOrder(maxSize, elasticity, steps[..n]);
      KeepsMostRecentKeys(maxSize, elasticity, steps[..n]);
      StepKeepsDecreasing(Initial(maxSize, elasticity), steps[..n], steps[n]);
      assert steps == steps[..n] + [steps[n]];
    }
  }
}
