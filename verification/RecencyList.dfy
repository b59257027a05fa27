/** Lists of distinct keys, most recently touched first: what both LRU caches are lists of. */
module RecencyList {
  import opened Common

  datatype Entry<+K, +V> = Entry(key: K, value: V)

  ghost predicate DistinctKeys<K, V>(l: seq<Entry<K, V>>) {
    forall i, j :: 0 <= i < j < |l| ==> l[i].key != l[j].key
  }

  predicate Has<K(==), V>(l: seq<Entry<K, V>>, k: K) {
    exists i :: 0 <= i < |l| && l[i].key == k
  }

  /** The list without key k. */
  function Drop<K(==), V>(l: seq<Entry<K, V>>, k: K): seq<Entry<K, V>> {
    if l == [] then []
    else if l[0].key == k then Drop(l[1..], k)
    else [l[0]] + Drop(l[1..], k)
  }

  /** k becomes the most recent key, with value v. */
  function Touch<K(==), V>(l: seq<Entry<K, V>>, k: K, v: V): seq<Entry<K, V>> {
    [Entry(k, v)] + Drop(l, k)
  }

  function Find<K(==), V>(l: seq<Entry<K, V>>, k: K): Option<V> {
    if l == [] then None
    else if l[0].key == k then Some(l[0].value)
    else Find(l[1..], k)
  }

  lemma Assoc<T>(a: seq<T>, b: seq<T>, c: seq<T>)
    ensures a + (b + c) == (a + b) + c
  {
  }

  lemma {:induction false} DropOfConcat<K, V>(a: seq<Entry<K, V>>, b: seq<Entry<K, V>>, k: K)
    ensures Drop(a + b, k) == Drop(a, k) + Drop(b, k)
  {
    if a == [] {
      assert a + b == b;
    } else {
      var head := if a[0].key == k then [] else [a[0]];
      assert (a + b)[0] == a[0] && (a + b)[1..] == a[1..] + b;
      DropOfConcat(a[1..], b, k);
      Assoc(head, Drop(a[1..], k), Drop(b, k));
    }
  }

  lemma {:induction false} DropAbsent<K, V>(l: seq<Entry<K, V>>, k: K)
    requires !Has(l, k)
    ensures Drop(l, k) == l
  {
    if l != [] {
      assert l[0].key != k;
      forall i | 0 <= i < |l[1..]|
        ensures l[1..][i].key != k
      {
        assert l[1..][i] == l[i + 1];
      }
      DropAbsent(l[1..], k);
    }
  }

  /** Dropping the key of an element takes out just that element. */
  lemma {:induction false} DropIsErase<K, V>(l: seq<Entry<K, V>>, i: nat)
    requires DistinctKeys(l) && i < |l|
    ensures Drop(l, l[i].key) == l[..i] + l[i + 1..]
  {
    var rest := l[1..];
    if i == 0 {
      assert forall j :: 0 <= j < |rest| ==> rest[j] == l[j + 1];
      DropAbsent(rest, l[0].key);
    } else {
      assert rest[i - 1] == l[i];
      DropIsErase(rest, i - 1);
      assert [l[0]] + rest[..i - 1] == l[..i];
      assert rest[i..] == l[i + 1..];
      Assoc([l[0]], rest[..i - 1], rest[i..]);
    }
  }

  lemma {:induction false} FindAt<K, V>(l: seq<Entry<K, V>>, i: nat)
    requires DistinctKeys(l) && i < |l|
    ensures Find(l, l[i].key) == Some(l[i].value)
  {
    if i > 0 {
      assert l[1..][i - 1] == l[i];
      FindAt(l[1..], i - 1);
    }
  }

  lemma {:induction false} FindAbsent<K, V>(l: seq<Entry<K, V>>, k: K)
    requires !Has(l, k)
    ensures Find(l, k) == None
  {
    if l != [] {
      assert l[0].key != k;
      forall i | 0 <= i < |l[1..]|
        ensures l[1..][i].key != k
      {
        assert l[1..][i] == l[i + 1];
      }
      FindAbsent(l[1..], k);
    }
  }

  lemma FindPresent<K, V>(l: seq<Entry<K, V>>, k: K)
    requires DistinctKeys(l)
    ensures Find(l, k).Some? <==> Has(l, k)
    ensures Has(l, k) ==> Entry(k, Find(l, k).value) in l
  {
    if Has(l, k) {
      var i :| 0 <= i < |l| && l[i].key == k;
      FindAt(l, i);
    } else {
      FindAbsent(l, k);
    }
  }

  lemma {:induction false} DropKeepsDistinct<K, V>(l: seq<Entry<K, V>>, k: K)
    requires DistinctKeys(l)
    ensures DistinctKeys(Drop(l, k)) && !Has(Drop(l, k), k)
    ensures forall e :: e in Drop(l, k) <==> e in l && e.key != k
  {
    if Has(l, k) {
      var i :| 0 <= i < |l| && l[i].key == k;
      DropIsErase(l, i);
      assert forall e :: e in l <==> e in l[..i] || e == l[i] || e in l[i + 1..];
      assert forall e :: e in l[..i] || e in l[i + 1..] ==> e.key != k;
    } else {
      DropAbsent(l, k);
      assert forall e :: e in l ==> e.key != k;
    }
  }

  lemma TouchKeepsDistinct<K, V>(l: seq<Entry<K, V>>, k: K, v: V)
    requires DistinctKeys(l)
    ensures DistinctKeys(Touch(l, k, v))
    ensures forall e :: e in Touch(l, k, v) <==> e == Entry(k, v) || (e in l && e.key != k)
  {
    DropKeepsDistinct(l, k);
    assert forall i :: 0 <= i < |Drop(l, k)| ==> Drop(l, k)[i].key != k;
  }

  /** A touch of a key in a prefix, or of a key in neither list, keeps the prefix a prefix. */
  lemma TouchKeepsPrefix<K, V>(l: seq<Entry<K, V>>, all: seq<Entry<K, V>>, k: K, v: V)
    requires l <= all
    ensures Touch(l, k, v) <= Touch(all, k, v)
    ensures Drop(l, k) <= Drop(all, k)
  {
    assert all == l + all[|l|..];
    DropOfConcat(l, all[|l|..], k);
  }

  lemma PrefixOfDistinct<K, V>(l: seq<Entry<K, V>>, all: seq<Entry<K, V>>)
    requires l <= all && DistinctKeys(all)
    ensures DistinctKeys(l)
    ensures forall e :: e in l ==> e in all
  {
  }

  /** Every entry carries the value that last has for its key. */
  ghost predicate Agrees<K, V>(l: seq<Entry<K, V>>, last: map<K, V>) {
    forall i :: 0 <= i < |l| ==> l[i].key in last && last[l[i].key] == l[i].value
  }

  lemma {:induction false} DropAgrees<K, V>(l: seq<Entry<K, V>>, last: map<K, V>, k: K)
    requires Agrees(l, last)
    ensures Agrees(Drop(l, k), last - {k})
  {
    if l != [] {
      DropAgrees(l[1..], last, k);
    }
  }

  lemma TouchAgrees<K, V>(l: seq<Entry<K, V>>, last: map<K, V>, k: K, v: V)
    requires Agrees(l, last)
    ensures Agrees(Touch(l, k, v), last[k := v])
  {
    DropAgrees(l, last, k);
  }

  lemma DropKeepsOthers<K, V>(l: seq<Entry<K, V>>, k: K, other: K)
    requires DistinctKeys(l) && Has(l, other) && other != k
    ensures Has(Drop(l, k), other)
  {
    DropKeepsDistinct(l, k);
    var i :| 0 <= i < |l| && l[i].key == other;
    var j :| 0 <= j < |Drop(l, k)| && Drop(l, k)[j] == l[i];
  }
}
