/** get_items / get_orders: a table read in primary-key order, then cut by
    offset and limit. */
module Paging {
  import opened Records

  /** The rows of `m` whose keys lie in [lo, hi), in increasing key order. */
  function Listing<T>(m: map<Id, T>, lo: Id, hi: Id): (r: seq<(Id, T)>)
    ensures forall k :: 0 <= k < |r| ==> lo <= r[k].0 < hi && r[k].0 in m && m[r[k].0] == r[k].1
    ensures forall j, k :: 0 <= j < k < |r| ==> r[j].0 < r[k].0
    ensures forall id :: lo <= id < hi && id in m ==> (id, m[id]) in r
    decreases hi - lo
  {
    if hi <= lo then []
    else if lo in m then [(lo, m[lo])] + Listing(m, lo + 1, hi)
    else Listing(m, lo + 1, hi)
  }

  function Min(a: int, b: int): int
  {
    if a <= b then a else b
  }

  /** OFFSET skip LIMIT limit over `s`. */
  function Page<T>(s: seq<T>, skip: nat, limit: nat): (r: seq<T>)
    ensures |r| == if skip >= |s| then 0 else Min(limit, |s| - skip)
    ensures forall k :: 0 <= k < |r| ==> r[k] == s[skip + k]
  {
    if skip >= |s| then [] else s[skip..skip + Min(limit, |s| - skip)]
  }

  /** Reading page after page walks the listing without gaps or repeats:
      two consecutive pages are the page of their combined size. */
  lemma PagesConcatenate<T>(s: seq<T>, skip: nat, a: nat, b: nat)
    ensures Page(s, skip, a) + Page(s, skip + a, b) == Page(s, skip, a + b)
  {
    var whole := Page(s, skip, a + b);
    var left, right := Page(s, skip, a), Page(s, skip + a, b);
    assert |left + right| == |whole|;
    forall k | 0 <= k < |whole| ensures (left + right)[k] == whole[k] {
      if k >= |left| {
        assert (left + right)[k] == right[k - |left|];
      }
    }
  }
}
