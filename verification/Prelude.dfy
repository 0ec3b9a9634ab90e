/** Shared vocabulary: bytes, options, results and sums over finite maps. */
module Prelude {
  type byte = x: int | 0 <= x < 256
  type Bytes = seq<byte>

  datatype Option<+T> = None | Some(value: T)

  datatype Result<+T> = Ok(value: T) | Err(error: string)

  /** A content digest as the Remote Execution API names blobs: hash in hex, size in bytes. */
  datatype Digest = Digest(hash: string, size: int)

  /** The hash function is never looked into; every theorem holds for any function of this type. */
  type HashFunction = Bytes -> string

  ghost predicate NoCollision(sha: HashFunction, blobs: set<Bytes>) {
    forall a, b :: a in blobs && b in blobs && sha(a) == sha(b) ==> a == b
  }
}

/** The sum of a finite map, independent of the order in which its keys are taken. */
module MapSum {

  ghost function Pick<K(!new)>(keys: set<K>): K
    requires keys != {}
  {
    var k :| k in keys; k
  }

  ghost function Sum<K(!new)>(m: map<K, int>): int
    decreases |m|
  {
    if |m| == 0 then 0
    else
      var k := Pick(m.Keys);
      m[k] + Sum(m - {k})
  }

  lemma {:induction false} SumRemove<K(!new)>(m: map<K, int>, k: K)
    requires k in m
    ensures Sum(m) == m[k] + Sum(m - {k})
    decreases |m|
  {
    var p := Pick(m.Keys);
    if p == k {
    } else {
      SumRemove(m - {p}, k);
      SumRemove(m - {k}, p);
      assert m - {p} - {k} == m - {k} - {p};
    }
  }

  lemma SumPut<K(!new)>(m: map<K, int>, k: K, v: int)
    ensures Sum(m[k := v]) == v + Sum(m - {k})
  {
    SumRemove(m[k := v], k);
    assert m[k := v] - {k} == m - {k};
  }

  /** Dropping keys and lowering values cannot raise the sum of a non-negative map. */
  lemma {:induction false} SumMonotone<K(!new)>(small: map<K, int>, large: map<K, int>)
    requires forall k :: k in large ==> 0 <= large[k]
    requires forall k :: k in small ==> k in large && small[k] <= large[k]
    ensures Sum(small) <= Sum(large)
    decreases |large|
  {
    if |large| == 0 {
      assert small == map[];
    } else {
      var k := Pick(large.Keys);
      SumMonotone(small - {k}, large - {k});
      if k in small {
        SumRemove(small, k);
      } else {
        assert small - {k} == small;
      }
    }
  }
}
