/** Small value types and sequence/map helpers shared by the build modules. */
module Common {

  datatype Option<T> = None | Some(value: T)

  datatype Result<T, E> = Ok(value: T) | Err(error: E)

  predicate StartsWith(s: string, prefix: string) {
    |prefix| <= |s| && s[..|prefix|] == prefix
  }

  predicate EndsWith(s: string, suffix: string) {
    |suffix| <= |s| && s[|s| - |suffix|..] == suffix
  }

  /** The elements of `s` that satisfy `p`, in their original order (JavaScript's `Array.prototype.filter`). */
  function Filter<T(==)>(p: T -> bool, s: seq<T>): (r: seq<T>)
    ensures |r| <= |s|
    ensures forall i :: 0 <= i < |r| ==> r[i] in s && p(r[i])
    ensures forall i :: 0 <= i < |s| && p(s[i]) ==> s[i] in r
  {
    if s == [] then [] else (if p(s[0]) then [s[0]] else []) + Filter(p, s[1..])
  }

  /** Filtering distributes over concatenation, so the kept elements stay in their original order. */
  lemma {:induction false} FilterAppend<T>(p: T -> bool, a: seq<T>, b: seq<T>)
    ensures Filter(p, a + b) == Filter(p, a) + Filter(p, b)
  {
    if a != [] {
      assert (a + b)[1..] == a[1..] + b;
      FilterAppend(p, a[1..], b);
    } else {
      assert a + b == b;
    }
  }

  /** Filtering by `p` and then by `q` is filtering once by both. */
  lemma {:induction false} FilterFilter<T>(p: T -> bool, q: T -> bool, pq: T -> bool, s: seq<T>)
    requires forall i :: 0 <= i < |s| ==> pq(s[i]) == (p(s[i]) && q(s[i]))
    ensures Filter(q, Filter(p, s)) == Filter(pq, s)
  {
    if s != [] {
      assert forall i :: 1 <= i < |s| ==> s[1..][i - 1] == s[i];
      FilterFilter(p, q, pq, s[1..]);
      var head := if p(s[0]) then [s[0]] else [];
      FilterAppend(q, head, Filter(p, s[1..]));
      if p(s[0]) {
        assert Filter(q, [s[0]]) == (if q(s[0]) then [s[0]] else []) by {
          assert [s[0]][1..] == [];
        }
      }
    }
  }

  /**
   * Two filters with disjoint predicates together keep at most all elements, and
   * exactly all of them iff every element passes one of the two.
   */
  lemma {:induction false} DisjointFiltersCover<T>(p: T -> bool, q: T -> bool, s: seq<T>)
    requires forall i :: 0 <= i < |s| ==> !(p(s[i]) && q(s[i]))
    ensures |Filter(p, s)| + |Filter(q, s)| <= |s|
    ensures |Filter(p, s)| + |Filter(q, s)| == |s| <==> forall i :: 0 <= i < |s| ==> p(s[i]) || q(s[i])
  {
    if s != [] {
      assert forall i :: 1 <= i < |s| ==> s[1..][i - 1] == s[i];
      DisjointFiltersCover(p, q, s[1..]);
    }
  }

  /**
   * The map obtained by assigning each key/value pair of `kvs` to `m` in order, as a
   * sequence of `obj[key] = value` statements or file writes does: a later pair
   * for the same key replaces an earlier one.
   */
  function Overlay<K, V>(m: map<K, V>, kvs: seq<(K, V)>): map<K, V>
  {
    if kvs == [] then m else Overlay(m, kvs[..|kvs| - 1])[kvs[|kvs| - 1].0 := kvs[|kvs| - 1].1]
  }

  /** The index of the last pair of `kvs` whose key is `k`. */
  predicate IsLastWrite<K(==), V>(kvs: seq<(K, V)>, i: int, k: K) {
    0 <= i < |kvs| && kvs[i].0 == k && forall j :: i < j < |kvs| ==> kvs[j].0 != k
  }

  /** Overlay keeps every key of `m` and adds every key of `kvs`, and no other. */
  lemma {:induction false} OverlayKeys<K, V>(m: map<K, V>, kvs: seq<(K, V)>, k: K)
    ensures k in Overlay(m, kvs) <==> k in m || exists i :: 0 <= i < |kvs| && kvs[i].0 == k
  {
    if kvs != [] {
      var n := |kvs| - 1;
      OverlayKeys(m, kvs[..n], k);
      assert forall i :: 0 <= i < n ==> kvs[..n][i] == kvs[i];
    }
  }

  /** A key that no pair names keeps its value in `m`. */
  lemma {:induction false} OverlayUntouched<K, V>(m: map<K, V>, kvs: seq<(K, V)>, k: K)
    requires k in m && forall i :: 0 <= i < |kvs| ==> kvs[i].0 != k
    ensures k in Overlay(m, kvs) && Overlay(m, kvs)[k] == m[k]
  {
    if kvs != [] {
      var n := |kvs| - 1;
      assert forall i :: 0 <= i < n ==> kvs[..n][i] == kvs[i];
      OverlayUntouched(m, kvs[..n], k);
    }
  }

  /** A key that some pair names holds the value of its last pair. */
  lemma {:induction false} OverlayLast<K, V>(m: map<K, V>, kvs: seq<(K, V)>, k: K, i: int)
    requires IsLastWrite(kvs, i, k)
    ensures k in Overlay(m, kvs) && Overlay(m, kvs)[k] == kvs[i].1
  {
    var n := |kvs| - 1;
    if i < n {
      assert IsLastWrite(kvs[..n], i, k);
      OverlayLast(m, kvs[..n], k, i);
    }
  }

  /**
   * Overlay keeps every key of `m` and adds every key of `kvs`; a key that some pair
   * names holds the value of its last pair, any other key keeps its value in `m`.
   */
  lemma OverlayLastWins<K, V>(m: map<K, V>, kvs: seq<(K, V)>, k: K)
    ensures k in Overlay(m, kvs) <==> k in m || exists i :: 0 <= i < |kvs| && kvs[i].0 == k
    ensures (forall i :: 0 <= i < |kvs| ==> kvs[i].0 != k) && k in m ==> Overlay(m, kvs)[k] == m[k]
    ensures forall i :: IsLastWrite(kvs, i, k) ==> Overlay(m, kvs)[k] == kvs[i].1
  {
    OverlayKeys(m, kvs, k);
    if k in m && forall i :: 0 <= i < |kvs| ==> kvs[i].0 != k {
      OverlayUntouched(m, kvs, k);
    }
    forall i | IsLastWrite(kvs, i, k) ensures Overlay(m, kvs)[k] == kvs[i].1 {
      OverlayLast(m, kvs, k, i);
    }
  }
}
