/** A `collections.defaultdict(int)` used as a counter: the keys in the
    order they were first counted, each with its count. */
module Tallies {

  type Tally<K> = seq<(K, nat)>

  /** `counts.get(k, 0)`. */
  function Get<K(==)>(t: Tally<K>, k: K): nat
  {
    if t == [] then 0 else if t[0].0 == k then t[0].1 else Get(t[1..], k)
  }

  /** `counts[k] += 1`: a new key goes to the end. */
  function Bump<K(==)>(t: Tally<K>, k: K): (r: Tally<K>)
    ensures |r| == |t| || |r| == |t| + 1
    ensures |r| >= 1
  {
    if t == [] then [(k, 1)]
    else if t[0].0 == k then [(k, t[0].1 + 1)] + t[1..]
    else [t[0]] + Bump(t[1..], k)
  }

  /** The counter after counting `ks` in order. */
  function TallyOf<K(==)>(ks: seq<K>): Tally<K>
  {
    if ks == [] then [] else Bump(TallyOf(ks[..|ks| - 1]), ks[|ks| - 1])
  }

  lemma TallyOfSnoc<K>(ks: seq<K>, k: K)
    ensures TallyOf(ks + [k]) == Bump(TallyOf(ks), k)
  {
    assert (ks + [k])[..|ks|] == ks;
  }

  function Occurrences<K(==)>(ks: seq<K>, k: K): nat
  {
    if ks == [] then 0 else Occurrences(ks[..|ks| - 1], k) + (if ks[|ks| - 1] == k then 1 else 0)
  }

  ghost predicate DistinctKeys<K>(t: Tally<K>)
  {
    forall i, j :: 0 <= i < j < |t| ==> t[i].0 != t[j].0
  }

  /** Sort key for `sorted(counts.items(), key = count, reverse = True)`. */
  function NegCount<K>(p: (K, nat)): real
  {
    -(p.1 as real)
  }

  /** Python's `max(counts.items(), key = count)`: the first entry with the
      largest count. */
  function FirstMax<K(==)>(t: Tally<K>): (m: (K, nat))
    requires t != []
    ensures m in t
    ensures forall p :: p in t ==> p.1 <= m.1
    ensures exists i :: 0 <= i < |t| && t[i] == m && forall j :: 0 <= j < i ==> t[j].1 < m.1
  {
    if |t| == 1 then t[0]
    else
      var init := t[..|t| - 1];
      var m := FirstMax(init);
      assert forall p :: p in t ==> p in init || p == t[|t| - 1];
      if t[|t| - 1].1 > m.1 then
        assert forall j :: 0 <= j < |t| - 1 ==> t[j] == init[j] && init[j] in init;
        t[|t| - 1]
      else
        var i :| 0 <= i < |init| && init[i] == m && forall j :: 0 <= j < i ==> init[j].1 < m.1;
        assert t[i] == m && forall j :: 0 <= j < i ==> t[j] == init[j];
        m
  }

  /** Where `FirstMax` sits in the counter. */
  lemma FirstMaxAt<K>(t: Tally<K>) returns (m: nat)
    requires t != []
    ensures m < |t| && t[m] == FirstMax(t)
    ensures forall j :: 0 <= j < m ==> t[j].1 < t[m].1
  {
    m :| 0 <= m < |t| && t[m] == FirstMax(t) && forall j :: 0 <= j < m ==> t[j].1 < FirstMax(t).1;
  }

  /** The position of the first `k` in `ks`. */
  function FirstIndex<K(==)>(ks: seq<K>, k: K): (i: nat)
    requires k in ks
    ensures i < |ks| && ks[i] == k && k !in ks[..i]
  {
    if ks[0] == k then 0
    else
      var i := FirstIndex(ks[1..], k);
      assert ks[..i + 1] == [ks[0]] + ks[1..][..i];
      i + 1
  }

  lemma FirstIndexUnique<K>(ks: seq<K>, k: K, i: nat)
    requires i < |ks| && ks[i] == k && k !in ks[..i]
    ensures FirstIndex(ks, k) == i
  {
    var f := FirstIndex(ks, k);
  }

  /** Appending to the counted keys keeps the first position of every key
      already there. */
  lemma FirstIndexSnoc<K>(ks: seq<K>, k: K, x: K)
    requires x in ks
    ensures FirstIndex(ks + [k], x) == FirstIndex(ks, x)
  {
    var f := FirstIndex(ks, x);
    assert (ks + [k])[..f] == ks[..f];
    FirstIndexUnique(ks + [k], x, f);
  }

  /** Counting a key already present keeps every key in place; counting a
      new one appends it with count 1. */
  lemma {:induction false} BumpShape<K>(t: Tally<K>, k: K)
    ensures (exists i :: 0 <= i < |t| && t[i].0 == k) ==>
      |Bump(t, k)| == |t| && forall i :: 0 <= i < |t| ==> Bump(t, k)[i].0 == t[i].0
    ensures (forall i :: 0 <= i < |t| ==> t[i].0 != k) ==> Bump(t, k) == t + [(k, 1)]
  {
    if t != [] && t[0].0 != k {
      BumpShape(t[1..], k);
      if exists i :: 0 <= i < |t| && t[i].0 == k {
        var i :| 0 <= i < |t| && t[i].0 == k;
        assert t[1..][i - 1].0 == k;
      } else {
        assert forall i :: 0 <= i < |t[1..]| ==> t[1..][i] == t[i + 1];
      }
    }
  }

  /** The counter keeps its keys in the order of their first occurrence. */
  lemma {:induction false} TallyOfOrder<K>(ks: seq<K>)
    ensures forall i :: 0 <= i < |TallyOf(ks)| ==> TallyOf(ks)[i].0 in ks
    ensures forall i, j :: 0 <= i < j < |TallyOf(ks)| ==>
      FirstIndex(ks, TallyOf(ks)[i].0) < FirstIndex(ks, TallyOf(ks)[j].0)
  {
    TallyOfSpec(ks);
    if ks != [] {
      var init, k := ks[..|ks| - 1], ks[|ks| - 1];
      assert ks == init + [k];
      TallyOfOrder(init);
      TallyOfSpec(init);
      BumpShape(TallyOf(init), k);
      if forall i :: 0 <= i < |TallyOf(init)| ==> TallyOf(init)[i].0 != k {
        OrderAfterNewKey(init, k);
      } else {
        OrderAfterOldKey(init, k);
      }
    }
  }

  lemma OrderAfterNewKey<K>(init: seq<K>, k: K)
    requires forall i :: 0 <= i < |TallyOf(init)| ==> TallyOf(init)[i].0 in init
    requires forall i, j :: 0 <= i < j < |TallyOf(init)| ==>
      FirstIndex(init, TallyOf(init)[i].0) < FirstIndex(init, TallyOf(init)[j].0)
    requires k !in init
    requires TallyOf(init + [k]) == TallyOf(init) + [(k, 1)]
    ensures forall i, j :: 0 <= i < j < |TallyOf(init + [k])| ==>
      FirstIndex(init + [k], TallyOf(init + [k])[i].0) < FirstIndex(init + [k], TallyOf(init + [k])[j].0)
  {
    var ks, t0, t := init + [k], TallyOf(init), TallyOf(init + [k]);
    assert ks[..|init|] == init;
    FirstIndexUnique(ks, k, |init|);
    forall i, j | 0 <= i < j < |t| ensures FirstIndex(ks, t[i].0) < FirstIndex(ks, t[j].0) {
      assert t[i] == t0[i];
      FirstIndexSnoc(init, k, t0[i].0);
      if j < |t0| {
        assert t[j] == t0[j];
        FirstIndexSnoc(init, k, t0[j].0);
      }
    }
  }

  lemma OrderAfterOldKey<K>(init: seq<K>, k: K)
    requires forall i :: 0 <= i < |TallyOf(init)| ==> TallyOf(init)[i].0 in init
    requires forall i, j :: 0 <= i < j < |TallyOf(init)| ==>
      FirstIndex(init, TallyOf(init)[i].0) < FirstIndex(init, TallyOf(init)[j].0)
    requires |TallyOf(init + [k])| == |TallyOf(init)|
    requires forall i :: 0 <= i < |TallyOf(init)| ==> TallyOf(init + [k])[i].0 == TallyOf(init)[i].0
    ensures forall i, j :: 0 <= i < j < |TallyOf(init + [k])| ==>
      FirstIndex(init + [k], TallyOf(init + [k])[i].0) < FirstIndex(init + [k], TallyOf(init + [k])[j].0)
  {
    var ks, t0, t := init + [k], TallyOf(init), TallyOf(init + [k]);
    forall i, j | 0 <= i < j < |t| ensures FirstIndex(ks, t[i].0) < FirstIndex(ks, t[j].0) {
      FirstIndexSnoc(init, k, t0[i].0);
      FirstIndexSnoc(init, k, t0[j].0);
    }
  }

  ghost function KeySet<K>(t: Tally<K>): set<K>
  {
    set i | 0 <= i < |t| :: t[i].0
  }

  /** Counting `k` adds one to its count and leaves every other count. */
  lemma {:induction false} BumpGet<K>(t: Tally<K>, k: K, j: K)
    ensures Get(Bump(t, k), j) == Get(t, j) + (if j == k then 1 else 0)
  {
    if t != [] && t[0].0 != k {
      BumpGet(t[1..], k, j);
    }
  }

  /** Counting `k` adds `k` to the keys and no other key. */
  lemma {:induction false} BumpKeys<K>(t: Tally<K>, k: K)
    ensures KeySet(Bump(t, k)) == KeySet(t) + {k}
  {
    var r := Bump(t, k);
    if t == [] {
      assert r[0].0 == k;
    } else if t[0].0 == k {
      forall x ensures x in KeySet(r) <==> x in KeySet(t) + {k} {
        if x in KeySet(t) {
          var i :| 0 <= i < |t| && t[i].0 == x;
          assert r[i].0 == x;
        }
        if x in KeySet(r) {
          var i :| 0 <= i < |r| && r[i].0 == x;
          assert i == 0 || r[i] == t[i];
        }
      }
    } else {
      var r' := Bump(t[1..], k);
      BumpKeys(t[1..], k);
      assert r == [t[0]] + r';
      forall x ensures x in KeySet(r) <==> x in KeySet(t) + {k} {
        if x in KeySet(t) && x != t[0].0 {
          var i :| 0 <= i < |t| && t[i].0 == x;
          assert t[1..][i - 1].0 == x;
          assert x in KeySet(t[1..]);
          assert x in KeySet(r');
          var i' :| 0 <= i' < |r'| && r'[i'].0 == x;
          assert r[i' + 1].0 == x;
        }
        if x == k {
          assert x in KeySet(r');
          var i' :| 0 <= i' < |r'| && r'[i'].0 == x;
          assert r[i' + 1].0 == x;
        }
        if x in KeySet(r) && x != t[0].0 {
          var i :| 0 <= i < |r| && r[i].0 == x;
          assert r'[i - 1].0 == x;
          assert x in KeySet(r');
          if x != k {
            assert x in KeySet(t[1..]);
            var m :| 0 <= m < |t[1..]| && t[1..][m].0 == x;
            assert t[m + 1].0 == x;
          }
        }
        if x == t[0].0 {
          assert r[0].0 == x;
          assert t[0].0 in KeySet(t);
        }
      }
      assert KeySet(r) == KeySet(t) + {k};
    }
  }

  /** Counting keeps every key once. */
  lemma {:induction false} BumpDistinct<K>(t: Tally<K>, k: K)
    requires DistinctKeys(t)
    ensures DistinctKeys(Bump(t, k))
  {
    if t != [] && t[0].0 != k {
      var r' := Bump(t[1..], k);
      assert DistinctKeys(t[1..]);
      BumpDistinct(t[1..], k);
      BumpKeys(t[1..], k);
      assert forall m :: 0 <= m < |t[1..]| ==> t[1..][m] == t[m + 1];
      assert t[0].0 !in KeySet(t[1..]);
      forall i | 0 <= i < |r'| ensures r'[i].0 != t[0].0 {
        assert r'[i].0 in KeySet(r');
      }
    }
  }

  /** The counter holds every counted key once, with its number of
      occurrences, and no other key. */
  lemma {:induction false} TallyOfSpec<K>(ks: seq<K>)
    ensures var t := TallyOf(ks);
      && DistinctKeys(t)
      && (forall k :: Get(t, k) == Occurrences(ks, k))
      && (forall i :: 0 <= i < |t| ==> t[i].0 in ks)
      && (forall k :: k in ks ==> exists i :: 0 <= i < |t| && t[i].0 == k)
  {
    TallyOfKeys(ks);
    TallyOfCounts(ks);
    var t := TallyOf(ks);
    forall i | 0 <= i < |t| ensures t[i].0 in ks {
      assert t[i].0 in KeySet(t);
    }
    forall k | k in ks ensures exists i :: 0 <= i < |t| && t[i].0 == k {
      assert k in KeySet(t);
    }
  }

  lemma {:induction false} TallyOfKeys<K>(ks: seq<K>)
    ensures DistinctKeys(TallyOf(ks))
    ensures KeySet(TallyOf(ks)) == set k | k in ks
  {
    if ks != [] {
      var init, k := ks[..|ks| - 1], ks[|ks| - 1];
      TallyOfKeys(init);
      BumpKeys(TallyOf(init), k);
      BumpDistinct(TallyOf(init), k);
      assert ks == init + [k];
    }
  }

  lemma {:induction false} TallyOfCounts<K>(ks: seq<K>)
    ensures forall k :: Get(TallyOf(ks), k) == Occurrences(ks, k)
  {
    if ks != [] {
      var init, k := ks[..|ks| - 1], ks[|ks| - 1];
      TallyOfCounts(init);
      forall j ensures Get(TallyOf(ks), j) == Occurrences(ks, j) {
        BumpGet(TallyOf(init), k, j);
      }
    }
  }

  lemma {:induction false} GetMissing<K>(t: Tally<K>, k: K)
    requires forall i :: 0 <= i < |t| ==> t[i].0 != k
    ensures Get(t, k) == 0
  {
    if t != [] {
      GetMissing(t[1..], k);
    }
  }

  lemma {:induction false} GetPresent<K>(t: Tally<K>, i: nat)
    requires DistinctKeys(t) && i < |t|
    ensures Get(t, t[i].0) == t[i].1
  {
    if i > 0 {
      assert DistinctKeys(t[1..]);
      assert t[i] == t[1..][i - 1];
      GetPresent(t[1..], i - 1);
    }
  }
}
