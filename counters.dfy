/** Python counting dictionaries (`d[k] = d.get(k, 0) + 1`) as insertion-ordered association
    lists: a key seen for the first time is appended, a known key has its count raised in place. */
module Counters {

  type Counter<K> = seq<(K, nat)>

  predicate KeysUnique<K(==)>(c: Counter<K>) {
    forall i, j :: 0 <= i < j < |c| ==> c[i].0 != c[j].0
  }

  function Keys<K>(c: Counter<K>): set<K> {
    set i | 0 <= i < |c| :: c[i].0
  }

  /** `d.get(k, 0)`. */
  function Get<K(==)>(c: Counter<K>, k: K): nat {
    if c == [] then 0 else if c[0].0 == k then c[0].1 else Get(c[1..], k)
  }

  /** The sum of all counts. */
  function Total<K>(c: Counter<K>): nat {
    if c == [] then 0 else c[0].1 + Total(c[1..])
  }

  function Find<K(==)>(c: Counter<K>, k: K): (i: nat)
    ensures i <= |c|
    ensures i < |c| ==> c[i].0 == k
    ensures forall j :: 0 <= j < i ==> c[j].0 != k
  {
    if c == [] then 0 else if c[0].0 == k then 0 else 1 + Find(c[1..], k)
  }

  /** `d[k] = d.get(k, 0) + 1`. */
  function Bump<K(==)>(c: Counter<K>, k: K): Counter<K> {
    var i := Find(c, k);
    if i < |c| then c[i := (k, c[i].1 + 1)] else c + [(k, 1)]
  }

  /** The number of times `k` occurs in `ks`. */
  function Occurrences<K(==)>(ks: seq<K>, k: K): nat {
    if ks == [] then 0 else Occurrences(ks[..|ks| - 1], k) + (if ks[|ks| - 1] == k then 1 else 0)
  }

  /** Counting every element of `ks` in turn, starting from an empty dictionary. */
  function CountAll<K(==)>(ks: seq<K>): Counter<K> {
    if ks == [] then [] else Bump(CountAll(ks[..|ks| - 1]), ks[|ks| - 1])
  }

  lemma {:induction false} GetAt<K>(c: Counter<K>, i: nat)
    requires KeysUnique(c) && i < |c|
    ensures Get(c, c[i].0) == c[i].1
  {
    if i > 0 { GetAt(c[1..], i - 1); }
  }

  lemma {:induction false} GetMissing<K>(c: Counter<K>, k: K)
    requires forall j :: 0 <= j < |c| ==> c[j].0 != k
    ensures Get(c, k) == 0
  {
    if c != [] { GetMissing(c[1..], k); }
  }

  lemma {:induction false} TotalAppend<K>(c: Counter<K>, x: (K, nat))
    ensures Total(c + [x]) == Total(c) + x.1
  {
    if c != [] {
      assert (c + [x])[1..] == c[1..] + [x];
      TotalAppend(c[1..], x);
    }
  }

  lemma {:induction false} TotalUpdate<K>(c: Counter<K>, i: nat, x: (K, nat))
    requires i < |c|
    ensures Total(c[i := x]) == Total(c) - c[i].1 + x.1
  {
    if i > 0 {
      assert c[i := x][1..] == c[1..][i - 1 := x];
      TotalUpdate(c[1..], i - 1, x);
    }
  }

  lemma {:induction false} GetUpdate<K>(c: Counter<K>, i: nat, n: nat, k: K)
    requires KeysUnique(c) && i < |c|
    ensures Get(c[i := (c[i].0, n)], k) == if k == c[i].0 then n else Get(c, k)
  {
    if i > 0 {
      assert c[i := (c[i].0, n)][1..] == c[1..][i - 1 := (c[i].0, n)];
      GetUpdate(c[1..], i - 1, n, k);
    }
  }

  lemma {:induction false} GetAppend<K>(c: Counter<K>, x: (K, nat), k: K)
    requires forall j :: 0 <= j < |c| ==> c[j].0 != x.0
    ensures Get(c + [x], k) == if k == x.0 then x.1 else Get(c, k)
  {
    if c != [] {
      assert (c + [x])[1..] == c[1..] + [x];
      GetAppend(c[1..], x, k);
    }
  }

  /** Counting one more key keeps the keys distinct, raises that key's count by one, leaves
      every other count alone and raises the total by one. */
  lemma BumpFacts<K>(c: Counter<K>, k: K)
    requires KeysUnique(c)
    ensures KeysUnique(Bump(c, k))
    ensures Keys(Bump(c, k)) == Keys(c) + {k}
    ensures forall k' :: Get(Bump(c, k), k') == Get(c, k') + (if k' == k then 1 else 0)
    ensures Total(Bump(c, k)) == Total(c) + 1
    ensures forall j :: 0 <= j < |Bump(c, k)| ==> Bump(c, k)[j].1 > 0 || (j < |c| && Bump(c, k)[j] == c[j])
  {
    var i := Find(c, k);
    if i < |c| {
      TotalUpdate(c, i, (k, c[i].1 + 1));
      forall k' ensures Get(Bump(c, k), k') == Get(c, k') + (if k' == k then 1 else 0) {
        GetUpdate(c, i, c[i].1 + 1, k');
        GetAt(c, i);
      }
      assert Keys(Bump(c, k)) == Keys(c) by {
        forall y | y in Keys(c) ensures y in Keys(Bump(c, k)) {
          var j :| 0 <= j < |c| && c[j].0 == y;
          assert Bump(c, k)[j].0 == y;
        }
      }
    } else {
      TotalAppend(c, (k, 1));
      forall k' ensures Get(Bump(c, k), k') == Get(c, k') + (if k' == k then 1 else 0) {
        GetAppend(c, (k, 1), k');
        if k' == k { GetMissing(c, k); }
      }
      assert Keys(Bump(c, k)) == Keys(c) + {k} by {
        assert Bump(c, k)[|c|].0 == k;
        forall y | y in Keys(c) ensures y in Keys(Bump(c, k)) {
          var j :| 0 <= j < |c| && c[j].0 == y;
          assert Bump(c, k)[j].0 == y;
        }
      }
    }
  }

  /** The counter built from `ks` has distinct keys, exactly the elements of `ks`, every count
      positive, the count of each key equal to its number of occurrences, and counts summing to
      `|ks|`. */
  lemma {:induction false} CountAllFacts<K>(ks: seq<K>)
    ensures KeysUnique(CountAll(ks))
    ensures Keys(CountAll(ks)) == set k | k in ks
    ensures forall k :: Get(CountAll(ks), k) == Occurrences(ks, k)
    ensures forall j :: 0 <= j < |CountAll(ks)| ==> CountAll(ks)[j].1 > 0
    ensures Total(CountAll(ks)) == |ks|
  {
    if ks != [] {
      var init := ks[..|ks| - 1];
      CountAllFacts(init);
      BumpFacts(CountAll(init), ks[|ks| - 1]);
      assert ks == init + [ks[|ks| - 1]];
      assert (set k | k in ks) == (set k | k in init) + {ks[|ks| - 1]};
    }
  }
}
