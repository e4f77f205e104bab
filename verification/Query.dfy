/** Pages of an index list. */
module Query {
  import opened Host

  /** The elements with positions from `offset` up to `offset + limit`, as far as the list goes. */
  function Page(v: seq<u64>, offset: nat, limit: nat): seq<u64> {
    v[Min(offset, |v|)..Min(offset + limit, |v|)]
  }

  /** A page starts at `offset`, holds up to `limit` consecutive elements, and stops only where the list does. */
  lemma PageExactly(v: seq<u64>, offset: nat, limit: nat)
    ensures |Page(v, offset, limit)| == if offset >= |v| then 0 else Min(limit, |v| - offset)
    ensures forall i :: 0 <= i < |Page(v, offset, limit)| ==> Page(v, offset, limit)[i] == v[offset + i]
  {
  }

  method Paginate(v: seq<u64>, offset: u32, limit: u32) returns (result: seq<u64>)
    requires |v| <= U32_MAX
    ensures result == Page(v, offset, limit)
  {
    result := [];
    // A 32-bit saturating sum: it can only exceed the list, never wrap below it.
    var end: u32 := if offset + limit > U32_MAX then U32_MAX else offset + limit;
    var stop: u32 := if end < |v| then end else |v|;
    var i := offset;
    while i < stop
      invariant offset <= i
      invariant offset <= stop ==> i <= stop
      invariant result == if offset <= stop then v[offset..i] else []
    {
      result := result + [v[i]];
      i := i + 1;
    }
  }

  /** The first `pages` pages, end to end. */
  function Pages(v: seq<u64>, limit: nat, pages: nat): seq<u64> {
    if pages == 0 then [] else Pages(v, limit, pages - 1) + Page(v, limit * (pages - 1), limit)
  }

  lemma PageExtends(v: seq<u64>, offset: nat, limit: nat)
    ensures v[..Min(offset, |v|)] + Page(v, offset, limit) == v[..Min(offset + limit, |v|)]
  {
  }

  lemma {:induction false} PagesArePrefix(v: seq<u64>, limit: nat, pages: nat)
    ensures Pages(v, limit, pages) == v[..Min(limit * pages, |v|)]
  {
    if pages > 0 {
      PagesArePrefix(v, limit, pages - 1);
      assert limit * pages == limit * (pages - 1) + limit;
      PageExtends(v, limit * (pages - 1), limit);
    } else {
      assert limit * pages == 0;
    }
  }

  /** The number of pages is the least that covers the list. */
  lemma PageCount(n: nat, limit: nat, pages: nat)
    requires 0 < limit && pages == (n + limit - 1) / limit
    ensures n <= limit * pages < n + limit
  {
    var r := (n + limit - 1) % limit;
    assert n + limit - 1 == limit * pages + r;
  }

  /**
   Consecutive pages of any positive size tile the list: enough of them, concatenated, give it back
   whole, and every offset needed to ask for them is a u32.
   */
  lemma PagesTileTheIndex(v: seq<u64>, limit: u32, pages: nat)
    requires |v| <= U32_MAX && 0 < limit
    requires pages == (|v| + limit - 1) / limit
    ensures Pages(v, limit, pages) == v
    ensures forall k :: 0 <= k < pages ==> limit * k <= U32_MAX && Page(v, limit * k, limit) != []
  {
    PageCount(|v|, limit, pages);
    PagesArePrefix(v, limit, pages);
    forall k | 0 <= k < pages
      ensures limit * k <= U32_MAX && Page(v, limit * k, limit) != []
    {
      PageStarts(limit, pages, k);
    }
  }

  lemma PageStarts(limit: nat, pages: nat, k: nat)
    requires k < pages
    ensures 0 <= limit * k <= limit * pages - limit
  {
    MulMonotone(limit, 0, k);
    MulMonotone(limit, k + 1, pages);
    assert limit * (k + 1) == limit * k + limit;
  }
}
