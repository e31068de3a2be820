/** Insertion-ordered maps: the semantics JavaScript gives both to `Map` and to
    the own keys of a plain object.  A key keeps the slot of its first insertion;
    writing it again replaces the value in place. */
module OrderedMaps {
  import opened Base

  type OrderedMap<K, V> = seq<(K, V)>

  predicate HasKey<K(==), V>(m: OrderedMap<K, V>, k: K) {
    exists i :: 0 <= i < |m| && m[i].0 == k
  }

  /** No key occurs twice. */
  predicate Distinct<K(==), V>(m: OrderedMap<K, V>) {
    forall i, j :: 0 <= i < j < |m| ==> m[i].0 != m[j].0
  }

  /** The value stored under `k`; the latest entry wins. */
  function Get<K(==), V>(m: OrderedMap<K, V>, k: K): (r: Option<V>)
    ensures r.Some? <==> HasKey(m, k)
    ensures r.Some? ==> exists i :: 0 <= i < |m| && m[i] == (k, r.value)
  {
    if |m| == 0 then None
    else if m[|m| - 1].0 == k then Some(m[|m| - 1].1)
    else
      var r := Get(m[..|m| - 1], k);
      assert forall i :: 0 <= i < |m| - 1 ==> m[..|m| - 1][i] == m[i];
      r
  }

  /** An entry whose key occurs nowhere else is the value of that key. */
  lemma {:induction false} GetUnique<K, V>(m: OrderedMap<K, V>, i: nat)
    requires i < |m|
    requires forall j :: 0 <= j < |m| && j != i ==> m[j].0 != m[i].0
    ensures Get(m, m[i].0) == Some(m[i].1)
    decreases |m|
  {
    if i < |m| - 1 {
      var p := m[..|m| - 1];
      assert p[i] == m[i];
      forall j | 0 <= j < |p| && j != i
        ensures p[j].0 != p[i].0
      {
        assert p[j] == m[j];
      }
      GetUnique(p, i);
    }
  }

  /** The keys, in slot order. */
  function Keys<K, V>(m: OrderedMap<K, V>): (ks: seq<K>)
    ensures |ks| == |m|
    ensures forall i :: 0 <= i < |m| ==> ks[i] == m[i].0
  {
    if |m| == 0 then [] else Keys(m[..|m| - 1]) + [m[|m| - 1].0]
  }

  /** The values, in slot order (`Map.prototype.values`). */
  function Values<K, V>(m: OrderedMap<K, V>): (vs: seq<V>)
    ensures |vs| == |m|
    ensures forall i :: 0 <= i < |m| ==> vs[i] == m[i].1
  {
    if |m| == 0 then [] else Values(m[..|m| - 1]) + [m[|m| - 1].1]
  }

  /** Overwrite every entry whose key is `k`. */
  function Replace<K(==), V>(m: OrderedMap<K, V>, k: K, v: V): (r: OrderedMap<K, V>)
    ensures |r| == |m|
    ensures forall i :: 0 <= i < |m| ==> r[i] == (if m[i].0 == k then (k, v) else m[i])
  {
    if |m| == 0 then []
    else
      var last := m[|m| - 1];
      Replace(m[..|m| - 1], k, v) + [if last.0 == k then (k, v) else last]
  }

  /** `Map.prototype.set` and object property assignment. */
  function Set<K(==,!new), V>(m: OrderedMap<K, V>, k: K, v: V): (r: OrderedMap<K, V>)
    ensures Get(r, k) == Some(v)
    ensures forall k' :: k' != k ==> Get(r, k') == Get(m, k')
    ensures Keys(r) == if HasKey(m, k) then Keys(m) else Keys(m) + [k]
    ensures Distinct(m) ==> Distinct(r)
  {
    if HasKey(m, k) then
      var r := Replace(m, k, v);
      GetReplace(m, k, v);
      r
    else
      var r := m + [(k, v)];
      assert forall k' :: k' != k ==> Get(r, k') == Get(m, k') by {
        assert r[..|r| - 1] == m;
      }
      r
  }

  lemma {:induction false} GetReplace<K, V>(m: OrderedMap<K, V>, k: K, v: V)
    ensures Get(Replace(m, k, v), k) == (if HasKey(m, k) then Some(v) else None)
    ensures forall k' :: k' != k ==> Get(Replace(m, k, v), k') == Get(m, k')
  {
    if |m| > 0 {
      var p := m[..|m| - 1];
      GetReplace(p, k, v);
      assert Replace(m, k, v)[..|m| - 1] == Replace(p, k, v);
      HasKeySnoc(p, m[|m| - 1], k);
      assert m == p + [m[|m| - 1]];
    }
  }

  lemma HasKeySnoc<K, V>(p: OrderedMap<K, V>, x: (K, V), k: K)
    ensures HasKey(p + [x], k) <==> HasKey(p, k) || x.0 == k
  {
    var q := p + [x];
    if HasKey(p, k) {
      var i :| 0 <= i < |p| && p[i].0 == k;
      assert q[i].0 == k;
    }
    if HasKey(q, k) && x.0 != k {
      var i :| 0 <= i < |q| && q[i].0 == k;
      assert p[i].0 == k;
    }
    if x.0 == k {
      assert q[|p|].0 == k;
    }
  }

  /** Writes every entry of `src` into `m` in order: the object spread
      `{...m, ...src}` and the `Map` constructor over an entry list. */
  function SetAll<K(==,!new), V>(m: OrderedMap<K, V>, src: seq<(K, V)>): (r: OrderedMap<K, V>)
    ensures forall k :: Get(r, k) == (if HasKey(src, k) then Get(src, k) else Get(m, k))
    ensures Distinct(m) ==> Distinct(r)
  {
    if |src| == 0 then m
    else
      var p := src[..|src| - 1];
      var last := src[|src| - 1];
      var r := Set(SetAll(m, p), last.0, last.1);
      assert src == p + [last];
      assert forall k :: HasKey(src, k) <==> HasKey(p, k) || last.0 == k by {
        forall k ensures HasKey(src, k) <==> HasKey(p, k) || last.0 == k {
          HasKeySnoc(p, last, k);
        }
      }
      r
  }

  /** Writing entries never moves the existing slots. */
  lemma {:induction false} SetAllKeepsPrefix<K(!new), V>(m: OrderedMap<K, V>, src: seq<(K, V)>)
    ensures |SetAll(m, src)| >= |m|
    ensures Keys(SetAll(m, src))[..|m|] == Keys(m)
  {
    if |src| > 0 {
      var p := src[..|src| - 1];
      SetAllKeepsPrefix(m, p);
    }
  }

  /** The keys of `ks` that are not in `seen`, each once, in the order of
      their first occurrence. */
  function FreshKeys<K(==,!new)>(seen: seq<K>, ks: seq<K>): (fs: seq<K>)
    ensures forall k :: k in fs <==> k in ks && k !in seen
    ensures forall i, j :: 0 <= i < j < |fs| ==> fs[i] != fs[j]
  {
    if |ks| == 0 then []
    else
      var p := FreshKeys(seen, ks[..|ks| - 1]);
      var k := ks[|ks| - 1];
      assert forall x :: x in ks <==> x in ks[..|ks| - 1] || x == k by {
        assert ks == ks[..|ks| - 1] + [k];
      }
      if k in seen || k in p then p else p + [k]
  }

  /** A key is listed exactly when it is present. */
  lemma KeysListed<K, V>(m: OrderedMap<K, V>, k: K)
    ensures k in Keys(m) <==> HasKey(m, k)
  {
    if HasKey(m, k) {
      var i :| 0 <= i < |m| && m[i].0 == k;
      assert Keys(m)[i] == k;
    }
  }

  /** The key order after writing entries: the old keys, then each new key
      at its first write, as a JavaScript object or `Map` orders them. */
  lemma {:induction false} SetAllKeys<K(!new), V>(m: OrderedMap<K, V>, src: seq<(K, V)>)
    ensures Keys(SetAll(m, src)) == Keys(m) + FreshKeys(Keys(m), Keys(src))
  {
    if |src| > 0 {
      var p := src[..|src| - 1];
      var last := src[|src| - 1];
      var k := last.0;
      var q := SetAll(m, p);
      var fp := FreshKeys(Keys(m), Keys(p));
      assert Keys(q) == Keys(m) + fp by {
        SetAllKeys(m, p);
      }
      assert FreshKeys(Keys(m), Keys(src)) == if k in Keys(m) || k in fp then fp else fp + [k] by {
        assert Keys(src)[..|src| - 1] == Keys(p);
      }
      assert HasKey(q, k) <==> k in Keys(m) || k in fp by {
        KeysListed(q, k);
      }
      assert SetAll(m, src) == Set(q, k, last.1);
    }
  }

  /** Entries with new keys are appended. */
  lemma {:induction false} AppendFresh<K(!new), V>(m: OrderedMap<K, V>, src: OrderedMap<K, V>)
    requires Distinct(m + src)
    ensures SetAll(m, src) == m + src
  {
    if |src| > 0 {
      var p := src[..|src| - 1];
      var last := src[|src| - 1];
      assert m + src == (m + p) + [last];
      assert Distinct(m + p) by {
        forall i, j | 0 <= i < j < |m + p| ensures (m + p)[i].0 != (m + p)[j].0 {
          assert (m + p)[i] == (m + src)[i] && (m + p)[j] == (m + src)[j];
        }
      }
      AppendFresh(m, p);
      forall i | 0 <= i < |m + p| ensures (m + p)[i].0 != last.0 {
        assert (m + p)[i] == (m + src)[i];
        assert (m + src)[|m + p|] == last;
      }
      assert !HasKey(m + p, last.0);
      assert SetAll(m, src) == Set(m + p, last.0, last.1);
    }
  }
}
