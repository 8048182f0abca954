/** The least recently used key of a table, as `min_by_key` finds it; ties fall to any of them. */
module Oldest {
  method Find<K(==)>(seen: map<K, nat>) returns (oldest: K)
    requires seen != map[]
    ensures oldest in seen && forall k | k in seen :: seen[oldest] <= seen[k]
  {
    oldest :| oldest in seen;
    var left := seen.Keys - {oldest};
    while left != {}
      invariant left <= seen.Keys && oldest in seen
      invariant forall k | k in seen && k !in left :: seen[oldest] <= seen[k]
      decreases left
    {
      var k :| k in left;
      if seen[k] < seen[oldest] { oldest := k; }
      left := left - {k};
    }
  }
}
