/** Python's insertion-ordered `dict`, modelled as a sequence of (key, value)
    pairs. Assigning to a present key replaces its value in the slot the key
    first occupied; assigning to a new key appends; `del` removes the slot. */
module OrderedMap {
  import opened Wrappers

  type OMap<K, V> = seq<(K, V)>

  function Keys<K, V>(m: OMap<K, V>): (ks: seq<K>)
    ensures |ks| == |m|
    ensures forall i :: 0 <= i < |m| ==> ks[i] == m[i].0
  {
    seq(|m|, i requires 0 <= i < |m| => m[i].0)
  }

  predicate UniqueKeys<K(==), V>(m: OMap<K, V>) {
    forall i, j :: 0 <= i < j < |m| ==> m[i].0 != m[j].0
  }

  /** The slot of the first pair holding `k`. */
  function IndexOf<K(==), V>(m: OMap<K, V>, k: K): (r: Option<nat>)
    ensures r.None? <==> k !in Keys(m)
    ensures r.Some? ==> r.value < |m| && m[r.value].0 == k
    ensures r.Some? ==> forall j :: 0 <= j < r.value ==> m[j].0 != k
    decreases |m|
  {
    if |m| == 0 then None
    else if m[0].0 == k then
      assert Keys(m)[0] == k;
      Some(0)
    else
      var rest := IndexOf(m[1..], k);
      assert Keys(m) == [m[0].0] + Keys(m[1..]);
      if rest.None? then None else Some(rest.value + 1)
  }

  /** `d.get(k)` */
  function Get<K(==), V>(m: OMap<K, V>, k: K): (r: Option<V>)
    ensures r.None? <==> k !in Keys(m)
    ensures UniqueKeys(m) ==> forall i :: 0 <= i < |m| && m[i].0 == k ==> r == Some(m[i].1)
  {
    match IndexOf(m, k)
    case None =>
      assert forall i :: 0 <= i < |m| ==> m[i].0 != k by {
        forall i | 0 <= i < |m| ensures m[i].0 != k {
          assert Keys(m)[i] == m[i].0;
        }
      }
      None
    case Some(i) => Some(m[i].1)
  }

  /** `d[k] = v` */
  function Put<K(==), V>(m: OMap<K, V>, k: K, v: V): (r: OMap<K, V>)
    ensures Keys(r) == if k in Keys(m) then Keys(m) else Keys(m) + [k]
    ensures Get(r, k) == Some(v)
    ensures UniqueKeys(m) ==> UniqueKeys(r)
  {
    match IndexOf(m, k)
    case None =>
      var r := m + [(k, v)];
      assert Keys(r) == Keys(m) + [k];
      assert forall i :: 0 <= i < |m| ==> m[i].0 != k by {
        forall i | 0 <= i < |m| ensures m[i].0 != k {
          assert Keys(m)[i] == m[i].0;
        }
      }
      r
    case Some(i) =>
      var r := m[i := (k, v)];
      assert Keys(r) == Keys(m);
      r
  }

  /** A new key is appended: `dict` keeps insertion order. */
  lemma PutNew<K, V>(m: OMap<K, V>, k: K, v: V)
    requires k !in Keys(m)
    ensures Put(m, k, v) == m + [(k, v)]
  {
    assert IndexOf(m, k).None?;
  }

  /** Assigning one key leaves every other key's lookup unchanged. */
  lemma PutGetOther<K, V>(m: OMap<K, V>, k: K, v: V, k': K)
    requires k' != k
    ensures Get(Put(m, k, v), k') == Get(m, k')
  {
    var r := Put(m, k, v);
    match IndexOf(m, k)
    case None =>
      assert r == m + [(k, v)];
      IndexOfExtend(m, k', (k, v));
      if IndexOf(m, k').Some? {
        assert r[IndexOf(m, k').value] == m[IndexOf(m, k').value];
      }
    case Some(i) =>
      assert r == m[i := (k, v)];
      IndexOfReplace(m, i, k', (k, v));
      if IndexOf(m, k').Some? {
        assert IndexOf(m, k').value != i;
        assert r[IndexOf(m, k').value] == m[IndexOf(m, k').value];
      }
  }

  /** Assigning one key keeps every other pair in its slot, and adds no pair
      other than the assigned one. */
  lemma PutPairs<K, V>(m: OMap<K, V>, k: K, v: V)
    ensures forall i :: 0 <= i < |m| && m[i].0 != k ==> Put(m, k, v)[i] == m[i]
    ensures forall i :: 0 <= i < |Put(m, k, v)| ==> Put(m, k, v)[i] == (k, v) || Put(m, k, v)[i] in m
  {
  }

  /** `del d[k]` on a present key; a missing key leaves the map as it is
      (the caller decides what a missing key means). */
  function Remove<K(==), V>(m: OMap<K, V>, k: K): (r: OMap<K, V>)
    ensures k !in Keys(m) ==> r == m
    ensures k in Keys(m) ==> |r| == |m| - 1
    ensures k in Keys(m) ==>
      exists i :: 0 <= i < |m| && m[i].0 == k && r == m[..i] + m[i + 1..]
  {
    match IndexOf(m, k)
    case None => m
    case Some(i) => m[..i] + m[i + 1..]
  }

  /** Removing a key that was just added restores the map. */
  lemma PutThenRemove<K, V>(m: OMap<K, V>, k: K, v: V)
    requires k !in Keys(m)
    ensures Remove(Put(m, k, v), k) == m
  {
    var r := m + [(k, v)];
    assert forall j :: 0 <= j < |m| ==> r[j].0 != k by {
      forall j | 0 <= j < |m| ensures r[j].0 != k {
        assert Keys(m)[j] == m[j].0;
      }
    }
    IndexOfFirst(r, k, |m|);
    assert r[..|m|] + r[|m| + 1..] == m;
  }

  lemma RemoveShift<K, V>(m: OMap<K, V>, i: nat, j: nat)
    requires i < |m| && j < |m| - 1
    ensures (m[..i] + m[i + 1..])[j] == if j < i then m[j] else m[j + 1]
  {
  }

  /** With unique keys, deleting a key removes exactly that key and keeps
      the others unique. */
  lemma RemoveUnique<K, V>(m: OMap<K, V>, k: K)
    requires UniqueKeys(m)
    ensures UniqueKeys(Remove(m, k))
    ensures k !in Keys(Remove(m, k))
  {
    var r := Remove(m, k);
    match IndexOf(m, k)
    case None =>
    case Some(i) =>
      forall a, b | 0 <= a < b < |r| ensures r[a].0 != r[b].0 {
        RemoveShift(m, i, a);
        RemoveShift(m, i, b);
      }
      forall j | 0 <= j < |r| ensures Keys(r)[j] != k {
        RemoveShift(m, i, j);
      }
  }

  /** With unique keys, deleting a key leaves every other key's lookup as it
      was. */
  lemma RemoveGetOther<K, V>(m: OMap<K, V>, k: K, k': K)
    requires UniqueKeys(m) && k' != k
    ensures Get(Remove(m, k), k') == Get(m, k')
  {
    var r := Remove(m, k);
    RemoveUnique(m, k);
    match IndexOf(m, k)
    case None =>
    case Some(i) =>
      if k' in Keys(m) {
        var j :| 0 <= j < |m| && Keys(m)[j] == k';
        assert j != i;
        var j' := if j < i then j else j - 1;
        RemoveShift(m, i, j');
        assert r[j'] == m[j];
      } else {
        forall j | 0 <= j < |r| ensures Keys(r)[j] != k' {
          RemoveShift(m, i, j);
          var t := if j < i then j else j + 1;
          assert Keys(m)[t] != k';
        }
      }
  }

  /** The first slot holding a key is the one `IndexOf` reports. */
  lemma IndexOfFirst<K, V>(m: OMap<K, V>, k: K, i: nat)
    requires i < |m| && m[i].0 == k
    requires forall j :: 0 <= j < i ==> m[j].0 != k
    ensures IndexOf(m, k) == Some(i)
  {
    assert Keys(m)[i] == k;
  }

  lemma IndexOfExtend<K, V>(m: OMap<K, V>, k: K, p: (K, V))
    requires p.0 != k
    ensures IndexOf(m + [p], k) == IndexOf(m, k)
  {
    var s := IndexOf(m, k);
    if s.Some? {
      IndexOfFirst(m + [p], k, s.value);
    } else {
      assert Keys(m + [p]) == Keys(m) + [p.0];
    }
  }

  lemma IndexOfReplace<K, V>(m: OMap<K, V>, i: nat, k: K, p: (K, V))
    requires i < |m| && p.0 == m[i].0
    ensures IndexOf(m[i := p], k) == IndexOf(m, k)
  {
    assert Keys(m[i := p]) == Keys(m);
    var s := IndexOf(m, k);
    if s.Some? {
      IndexOfFirst(m[i := p], k, s.value);
    }
  }

  /** Successive assignments `d[k] = v` for each pair, in order. */
  function PutAll<K(==), V>(m: OMap<K, V>, ps: seq<(K, V)>): OMap<K, V>
    decreases |ps|
  {
    if |ps| == 0 then m
    else
      var last := ps[|ps| - 1];
      Put(PutAll(m, ps[..|ps| - 1]), last.0, last.1)
  }

  /** Reference meaning of last-write-wins: the value of the last pair that
      names `k`. */
  function LastValue<K(==), V>(ps: seq<(K, V)>, k: K): (r: Option<V>)
    ensures r.None? <==> k !in Keys(ps)
    ensures r.Some? ==>
      exists i :: 0 <= i < |ps| && ps[i] == (k, r.value) && forall j :: i < j < |ps| ==> ps[j].0 != k
    decreases |ps|
  {
    if |ps| == 0 then None
    else
      var pre := ps[..|ps| - 1];
      assert Keys(ps) == Keys(pre) + [ps[|ps| - 1].0];
      if ps[|ps| - 1].0 == k then Some(ps[|ps| - 1].1)
      else
        var r := LastValue(pre, k);
        assert r.Some? ==>
          exists i :: 0 <= i < |ps| && ps[i] == (k, r.value) && forall j :: i < j < |ps| ==> ps[j].0 != k
        by {
          if r.Some? {
            var i :| 0 <= i < |pre| && pre[i] == (k, r.value) && forall j :: i < j < |pre| ==> pre[j].0 != k;
            assert ps[i] == pre[i];
          }
        }
        r
  }

  /** Lookup after a run of assignments: the last assignment to the key
      wins, and keys never assigned keep their old value. */
  lemma {:induction false} PutAllGet<K, V>(m: OMap<K, V>, ps: seq<(K, V)>, k: K)
    ensures Get(PutAll(m, ps), k) == if LastValue(ps, k).Some? then LastValue(ps, k) else Get(m, k)
    decreases |ps|
  {
    if |ps| > 0 {
      var pre := ps[..|ps| - 1];
      PutAllGet(m, pre, k);
      var last := ps[|ps| - 1];
      if last.0 != k {
        PutGetOther(PutAll(m, pre), last.0, last.1, k);
      }
    }
  }

  /** A run of assignments only adds keys, and the keys already present keep
      their slots (the old key sequence is a prefix of the new one). */
  lemma {:induction false} PutAllKeys<K, V>(m: OMap<K, V>, ps: seq<(K, V)>)
    ensures Keys(m) <= Keys(PutAll(m, ps))
    ensures |PutAll(m, ps)| <= |m| + |ps|
    decreases |ps|
  {
    if |ps| > 0 {
      PutAllKeys(m, ps[..|ps| - 1]);
    }
  }

  /** The keys after a run of assignments are the old keys and the assigned
      ones, nothing else. */
  lemma {:induction false} PutAllHasKey<K, V>(m: OMap<K, V>, ps: seq<(K, V)>, k: K)
    ensures k in Keys(PutAll(m, ps)) <==> k in Keys(m) || k in Keys(ps)
  {
    PutAllGet(m, ps, k);
  }

  lemma {:induction false} PutAllUnique<K, V>(m: OMap<K, V>, ps: seq<(K, V)>)
    requires UniqueKeys(m)
    ensures UniqueKeys(PutAll(m, ps))
    decreases |ps|
  {
    if |ps| > 0 {
      PutAllUnique(m, ps[..|ps| - 1]);
    }
  }

  /** Every pair of the result was in the map or among the assignments. */
  lemma {:induction false} PutAllPairs<K, V>(m: OMap<K, V>, ps: seq<(K, V)>)
    ensures forall i :: 0 <= i < |PutAll(m, ps)| ==> PutAll(m, ps)[i] in m || PutAll(m, ps)[i] in ps
    decreases |ps|
  {
    if |ps| > 0 {
      var pre, last := ps[..|ps| - 1], ps[|ps| - 1];
      assert ps == pre + [last];
      PutAllPairs(m, pre);
      assert PutAll(m, ps) == Put(PutAll(m, pre), last.0, last.1);
      PutPairsStep(m, PutAll(m, pre), pre, last, ps);
    }
  }

  lemma PutPairsStep<K, V>(m: OMap<K, V>, q: OMap<K, V>, pre: seq<(K, V)>, last: (K, V), ps: seq<(K, V)>)
    requires ps == pre + [last]
    requires forall i :: 0 <= i < |q| ==> q[i] in m || q[i] in pre
    ensures forall i :: 0 <= i < |Put(q, last.0, last.1)| ==>
      Put(q, last.0, last.1)[i] in m || Put(q, last.0, last.1)[i] in ps
  {
    PutPairs(q, last.0, last.1);
    var r := Put(q, last.0, last.1);
    forall i | 0 <= i < |r| ensures r[i] in m || r[i] in ps {
      if r[i] != last {
        var j :| 0 <= j < |q| && q[j] == r[i];
        if q[j] in pre {
          var t :| 0 <= t < |pre| && pre[t] == q[j];
          assert ps[t] == pre[t];
        }
      }
    }
  }

  /** Assignments split at any point compose: the loop body is applied
      pair by pair. */
  lemma {:induction false} PutAllAppend<K, V>(m: OMap<K, V>, a: seq<(K, V)>, b: seq<(K, V)>)
    ensures PutAll(m, a + b) == PutAll(PutAll(m, a), b)
    decreases |b|
  {
    if |b| == 0 {
      assert a + b == a;
    } else {
      PutAllAppend(m, a, b[..|b| - 1]);
      ConcatInitLast(a, b);
      PutAllLast(m, a + b);
      PutAllLast(PutAll(m, a), b);
    }
  }

  lemma ConcatInitLast<T>(a: seq<T>, b: seq<T>)
    requires |b| > 0
    ensures (a + b)[..|a + b| - 1] == a + b[..|b| - 1]
    ensures (a + b)[|a + b| - 1] == b[|b| - 1]
  {
  }

  lemma PutAllLast<K, V>(m: OMap<K, V>, ps: seq<(K, V)>)
    requires |ps| > 0
    ensures PutAll(m, ps) == Put(PutAll(m, ps[..|ps| - 1]), ps[|ps| - 1].0, ps[|ps| - 1].1)
  {
  }

  /** A sequence without repeated elements has as many distinct elements as
      entries. */
  lemma {:induction false} DistinctCard<T>(s: seq<T>)
    requires forall i, j :: 0 <= i < j < |s| ==> s[i] != s[j]
    ensures |set x | x in s| == |s|
    decreases |s|
  {
    if |s| > 0 {
      var pre := s[..|s| - 1];
      DistinctCard(pre);
      var last := s[|s| - 1];
      assert (set x | x in s) == (set x | x in pre) + {last};
      assert last !in (set x | x in pre);
    }
  }

  /** Building a dict from scratch leaves exactly one entry per distinct key. */
  lemma PutAllSize<K, V>(ps: seq<(K, V)>)
    ensures |PutAll([], ps)| == |set k | k in Keys(ps)|
  {
    var r := PutAll([], ps);
    PutAllUnique([], ps);
    DistinctCard(Keys(r));
    forall k ensures k in Keys(r) <==> k in Keys(ps) {
      PutAllHasKey([], ps, k);
    }
    SameElements(Keys(r), Keys(ps));
  }

  lemma SameElements<T>(a: seq<T>, b: seq<T>)
    requires forall x :: x in a <==> x in b
    ensures (set x | x in a) == (set x | x in b)
  {
  }
}
