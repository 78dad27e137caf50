/** Removing duplicate rows before a unique index is built: three formulations from three migrations, and the backup
    with which the last of them is undone. */
module Dedupe {
  import opened Extremes
  import opened Wrappers

  // --- set-based formulations, over any rows and any nullable key ---

  /** Row `q` is another row with the same non-null key. */
  ghost predicate Twin<R, K>(t: map<nat, R>, key: R -> Option<K>, r: nat, q: nat) {
    r in t && q in t && r != q && key(t[r]).Some? && key(t[r]) == key(t[q])
  }

  /** 7e029912f153: DELETE the ids of a self-join on equal keys whose partner has a smaller id. */
  function SelfJoinDelete<R, K(==)>(t: map<nat, R>, key: R -> Option<K>): map<nat, R> {
    var doomed := set a, b | a in t && b in t && key(t[a]).Some? && key(t[a]) == key(t[b]) && a > b :: a;
    t - doomed
  }

  function IdsOf<R, K(==)>(t: map<nat, R>, key: R -> Option<K>, k: K): set<nat> {
    set r | r in t && key(t[r]) == Some(k)
  }

  function KeysOf<R, K(==)>(t: map<nat, R>, key: R -> Option<K>): set<K> {
    set r | r in t && key(t[r]).Some? :: key(t[r]).value
  }

  ghost predicate IsMin(ids: set<nat>, m: nat) {
    m in ids && forall i :: i in ids ==> m <= i
  }

  lemma {:induction false} MinExists(ids: set<nat>)
    requires |ids| > 0
    ensures exists m :: IsMin(ids, m)
  {
    var m := ExtremeOf(ids, false);
    assert IsMin(ids, m);
  }

  /** MIN(ID) of a group. */
  ghost function MinId(ids: set<nat>): (m: nat)
    requires |ids| > 0
    ensures IsMin(ids, m)
  {
    MinExists(ids);
    var m :| IsMin(ids, m);
    m
  }

  /** d8e9f0a1b2c4: the smallest id of every non-null key. */
  ghost function KeepIds<R, K>(t: map<nat, R>, key: R -> Option<K>): set<nat> {
    set k | k in KeysOf(t, key) :: (if |IdsOf(t, key, k)| > 0 then MinId(IdsOf(t, key, k)) else 0)
  }

  /** d8e9f0a1b2c4: DELETE WHERE ID NOT IN (kept ids) AND the key columns are not null. */
  ghost function GroupMinDelete<R, K>(t: map<nat, R>, key: R -> Option<K>): map<nat, R> {
    map r | r in t && (r in KeepIds(t, key) || key(t[r]).None?) :: t[r]
  }

  /** The rows whose id is extreme among their twins: smallest, or largest with `last`. */
  ghost predicate Keeps<R, K>(t: map<nat, R>, key: R -> Option<K>, last: bool, r: nat) {
    r in t && forall q: nat :: Twin(t, key, r, q) ==> if last then q < r else r < q
  }

  lemma MinIsKept<R, K>(t: map<nat, R>, key: R -> Option<K>, r: nat)
    requires r in t && key(t[r]).Some?
    ensures r in KeepIds(t, key) <==> Keeps(t, key, false, r)
  {
    var k := key(t[r]).value;
    var ids := IdsOf(t, key, k);
    assert r in ids && k in KeysOf(t, key);
    assert |ids| > 0;
    var m := MinId(ids);
    if Keeps(t, key, false, r) && m != r {
      assert Twin(t, key, r, m);
    }
    if r in KeepIds(t, key) {
      var j :| j in KeysOf(t, key) && r == (if |IdsOf(t, key, j)| > 0 then MinId(IdsOf(t, key, j)) else 0);
      var q :| q in t && key(t[q]) == Some(j);
      assert q in IdsOf(t, key, j);
      assert r in IdsOf(t, key, j);
      assert j == k;
      forall x | Twin(t, key, r, x)
        ensures r < x
      {
        assert x in ids;
      }
    }
  }

  lemma SelfJoinKeeps<R, K>(t: map<nat, R>, key: R -> Option<K>, r: nat)
    ensures r in SelfJoinDelete(t, key) <==> Keeps(t, key, false, r)
  {
    if r in SelfJoinDelete(t, key) {
      forall q | Twin(t, key, r, q)
        ensures r < q
      {
      }
    }
    if Keeps(t, key, false, r) {
      assert forall q :: q in t && key(t[r]).Some? && key(t[q]) == key(t[r]) && q != r ==> Twin(t, key, r, q);
    }
  }

  lemma GroupMinKeeps<R, K>(t: map<nat, R>, key: R -> Option<K>, r: nat)
    ensures r in GroupMinDelete(t, key) <==> Keeps(t, key, false, r)
  {
    if r in t && key(t[r]).Some? {
      MinIsKept(t, key, r);
    }
  }

  /** The self-join and the group-by delete the same rows: both keep, per key, the row with the smallest id. */
  lemma SelfJoinIsGroupMin<R, K>(t: map<nat, R>, key: R -> Option<K>)
    ensures SelfJoinDelete(t, key) == GroupMinDelete(t, key)
    ensures forall r :: r in SelfJoinDelete(t, key) <==> Keeps(t, key, false, r)
  {
    var a, b := SelfJoinDelete(t, key), GroupMinDelete(t, key);
    forall r
      ensures r in a <==> Keeps(t, key, false, r)
      ensures r in b <==> Keeps(t, key, false, r)
    {
      SelfJoinKeeps(t, key, r);
      GroupMinKeeps(t, key, r);
    }
    assert forall r :: r in a <==> r in b;
    assert forall r :: r in a ==> a[r] == t[r] == b[r];
  }

  /** Afterwards keys are pairwise distinct, no key is gone, and rows with a null key are all there. */
  ghost predicate Deduplicated<R, K>(before: map<nat, R>, after: map<nat, R>, key: R -> Option<K>) {
    && (forall r :: r in after ==> r in before && after[r] == before[r])
    && (forall r, q :: !Twin(after, key, r, q))
    && (forall r :: r in before && key(before[r]).None? ==> r in after)
    && (forall r :: r in before && key(before[r]).Some? ==> exists q :: q in after && key(after[q]) == key(before[r]))
  }

  /** Keeping the extreme row of every key deduplicates, and deduplicating again removes nothing. */
  lemma KeepingExtremes<R, K>(t: map<nat, R>, after: map<nat, R>, key: R -> Option<K>, last: bool)
    requires forall r :: r in after <==> Keeps(t, key, last, r)
    requires forall r :: r in after && r in t ==> after[r] == t[r]
    ensures Deduplicated(t, after, key)
    ensures forall r :: r in after ==> Keeps(after, key, last, r)
  {
    forall r, q
      ensures !Twin(after, key, r, q)
    {
      if Twin(after, key, r, q) {
        assert Twin(t, key, r, q) && Twin(t, key, q, r);
      }
    }
    forall r | r in t && key(t[r]).Some?
      ensures exists q :: q in after && key(after[q]) == key(t[r])
    {
      var k := key(t[r]).value;
      var ids := IdsOf(t, key, k);
      assert r in ids;
      var m := ExtremeOf(ids, last);
      forall q | Twin(t, key, m, q)
        ensures if last then q < m else m < q
      {
        assert q in ids;
      }
      assert m in after;
    }
  }

  function Flip(n: nat, q: nat): nat
    requires q <= n
  {
    n - q
  }

  /** The same rows with the order of the ids reversed, `n` bounding the ids. */
  function Mirror<R>(t: map<nat, R>, n: nat): map<nat, R> {
    map q: nat | q <= n && Flip(n, q) in t :: t[Flip(n, q)]
  }

  lemma MirrorRow<R>(t: map<nat, R>, n: nat, r: nat)
    requires r <= n
    ensures r in t <==> n - r in Mirror(t, n)
    ensures r in t ==> Mirror(t, n)[n - r] == t[r]
  {
    assert Flip(n, n - r) == r;
  }

  lemma MirrorTwin<R, K>(t: map<nat, R>, n: nat, key: R -> Option<K>, r: nat, q: nat)
    requires r <= n && q <= n
    ensures Twin(t, key, r, q) <==> Twin(Mirror(t, n), key, n - r, n - q)
  {
    MirrorRow(t, n, r);
    MirrorRow(t, n, q);
  }

  /** Keeping the largest id is keeping the smallest once the order of the ids is reversed. */
  lemma MirrorSwapsExtremes<R, K>(t: map<nat, R>, n: nat, key: R -> Option<K>, r: nat)
    requires (forall x :: x in t ==> x <= n) && r <= n
    ensures Keeps(t, key, true, r) <==> n - r in SelfJoinDelete(Mirror(t, n), key)
  {
    var m := Mirror(t, n);
    SelfJoinKeeps(m, key, n - r);
    MirrorRow(t, n, r);
    if Keeps(m, key, false, n - r) {
      forall q: nat | Twin(t, key, r, q)
        ensures q < r
      {
        MirrorTwin(t, n, key, r, q);
      }
    }
    if Keeps(t, key, true, r) {
      forall q: nat {:trigger Twin(m, key, n - r, q)} | Twin(m, key, n - r, q)
        ensures n - r < q
      {
        assert q <= n;
        MirrorTwin(t, n, key, r, n - q);
      }
    }
  }
}
