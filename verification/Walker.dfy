/** The bounded TTL walker: eight ids a call, wrapping modulo the stream count. */
module Walker {
  import opened Host

  const BATCH_LIMIT: nat := 8

  function SaturatingAdd(x: u64, y: u64): u64 {
    if x + y > U64_MAX then U64_MAX else x + y
  }

  /** The `i`-th id one call visits. */
  function VisitedId(count: u64, cursor: u64, i: nat): (id: u64)
    requires count > 0 && i < BATCH_LIMIT
    ensures id < count
  {
    SaturatingAdd(SaturatingAdd(cursor, 1), i) % count
  }

  function Visited(count: u64, cursor: u64): (ids: seq<u64>)
    requires count > 0
  {
    seq(BATCH_LIMIT, i requires 0 <= i < BATCH_LIMIT => VisitedId(count, cursor, i))
  }

  /** Where one call leaves the cursor. */
  function NextCursor(count: u64, cursor: u64): (next: u64)
    requires count > 0
    ensures next < count
  {
    VisitedId(count, cursor, BATCH_LIMIT - 1)
  }

  /** What a call visits without wrapping, and what it wraps to. */
  lemma VisitedIdWithinTwo(count: u64, cursor: u64, i: nat)
    requires 0 < count && i < BATCH_LIMIT && cursor + 1 + i <= U64_MAX && cursor + 1 + i < 2 * count
    ensures VisitedId(count, cursor, i) == if cursor + 1 + i < count then cursor + 1 + i else cursor + 1 + i - count
  {
    ModWithinTwo(cursor + 1 + i, count);
  }

  /** One call visits the eight ids after the cursor, wrapping round the count, and stops at the last of them. */
  lemma CallVisitsNextEight(count: u64, cursor: u64)
    requires 0 < count && cursor <= U64_MAX - 8
    ensures |Visited(count, cursor)| == 8
    ensures forall i :: 0 <= i < 8 ==> Visited(count, cursor)[i] == (cursor + 1 + i) % count
    ensures NextCursor(count, cursor) == (cursor + 8) % count
  {
  }

  // ---- Modular arithmetic ----

  /** Quotient and remainder are the only pair that fits. */
  lemma DivModUnique(x: int, n: int, q: int, r: int)
    requires x == n * q + r && 0 <= r < n
    ensures x / n == q && x % n == r
  {
    var (p, s) := (x / n, x % n);
    assert n * (p - q) == r - s;
    if p - q >= 1 { MulMonotone(n, 1, p - q); }
    if p - q <= -1 { MulMonotone(n, p - q, -1); }
  }

  /** Going once round, or not at all. */
  lemma ModWithinTwo(x: nat, n: nat)
    requires x < 2 * n
    ensures x % n == if x < n then x else x - n
  {
    if x < n { DivModUnique(x, n, 0, x); } else { DivModUnique(x, n, 1, x - n); }
  }

  lemma ModAdd(a: nat, b: nat, n: nat)
    requires n > 0
    ensures (a % n + b) % n == (a + b) % n
  {
    var (q, r) := ((a % n + b) / n, (a % n + b) % n);
    assert a + b == n * (a / n) + n * q + r == n * (a / n + q) + r;
    DivModUnique(a + b, n, a / n + q, r);
  }

  /** Two offsets closer together than `n` never fall on the same id. */
  lemma ModInjective(a: nat, b: nat, n: nat)
    requires n > 0 && a < b < a + n
    ensures a % n != b % n
  {
    if a % n == b % n {
      var (p, q) := (a / n, b / n);
      assert b - a == n * q - n * p == n * (q - p);
      if q - p <= 0 { MulMonotone(n, q - p, 0); } else { MulMonotone(n, 1, q - p); }
    }
  }

  // ---- One call ----

  /**
   With at least eight streams a call visits eight different ids exactly when its additions do not
   saturate; with at most eight it visits every id.
   */
  lemma OneCallCovers(count: u64, cursor: u64)
    requires 0 < count && cursor < count
    ensures count >= BATCH_LIMIT ==>
              ((forall i, j :: 0 <= i < j < BATCH_LIMIT ==> Visited(count, cursor)[i] != Visited(count, cursor)[j])
                <==> cursor + BATCH_LIMIT <= U64_MAX)
    ensures count <= BATCH_LIMIT ==> forall id: u64 :: id < count ==> id in Visited(count, cursor)
  {
    if cursor + BATCH_LIMIT <= U64_MAX {
      if count >= BATCH_LIMIT {
        forall i, j | 0 <= i < j < BATCH_LIMIT
          ensures Visited(count, cursor)[i] != Visited(count, cursor)[j]
        {
          ModInjective(cursor + 1 + i, cursor + 1 + j, count);
        }
      }
    } else {
      assert Visited(count, cursor)[6] == Visited(count, cursor)[7];
    }
    if count <= BATCH_LIMIT {
      forall id: u64 | id < count
        ensures id in Visited(count, cursor)
      {
        var i := OffsetOf(count, cursor, id);
        assert Visited(count, cursor)[i] == id;
      }
    }
  }

  /** How far after the cursor an id comes, going round the ring. */
  function OffsetOf(count: u64, cursor: u64, id: u64): (x: nat)
    requires 0 < count && cursor < count && id < count
    ensures x < count && (cursor + 1 + x) % count == id
  {
    if id > cursor then
      ModWithinTwo(id, count);
      id - cursor - 1
    else
      ModWithinTwo(count + id, count);
      count - cursor - 1 + id
  }

  /** A call that does not reach the count visits exactly the eight ids ahead. */
  lemma VisitedWithoutWrap(count: u64, cursor: u64)
    requires cursor + BATCH_LIMIT < count
    ensures forall i :: 0 <= i < BATCH_LIMIT ==> Visited(count, cursor)[i] == cursor + 1 + i
    ensures NextCursor(count, cursor) == cursor + BATCH_LIMIT
  {
    forall i | 0 <= i < BATCH_LIMIT
      ensures VisitedId(count, cursor, i) == cursor + 1 + i
    {
      VisitedIdWithinTwo(count, cursor, i);
    }
  }

  // ---- Repeated calls, stable count ----

  function CursorAfter(count: u64, cursor: u64, calls: nat): (c: u64)
    requires 0 < count && cursor < count
    ensures c < count
  {
    if calls == 0 then cursor else NextCursor(count, CursorAfter(count, cursor, calls - 1))
  }

  lemma NextCursorIsMod(count: u64, cursor: u64)
    requires 0 < count && cursor + BATCH_LIMIT <= U64_MAX
    ensures NextCursor(count, cursor) == (cursor + BATCH_LIMIT) % count
  {
  }

  lemma {:induction false} CursorAdvances(count: u64, cursor: u64, calls: nat)
    requires 0 < count && cursor < count && count + BATCH_LIMIT - 1 <= U64_MAX
    ensures CursorAfter(count, cursor, calls) == (cursor + BATCH_LIMIT * calls) % count
  {
    if calls > 0 {
      CursorAdvances(count, cursor, calls - 1);
      ModAdd(cursor + BATCH_LIMIT * (calls - 1), BATCH_LIMIT, count);
      NextCursorIsMod(count, CursorAfter(count, cursor, calls - 1));
    } else {
      ModWithinTwo(cursor, count);
    }
  }

  /** With a stable count, k calls with 8k >= count visit every id. */
  lemma WalkerCoversEveryId(count: u64, cursor: u64, calls: nat, id: u64)
    requires 0 < count && cursor < count && count + BATCH_LIMIT - 1 <= U64_MAX
    requires BATCH_LIMIT * calls >= count && id < count
    ensures exists j :: 0 <= j < calls && id in Visited(count, CursorAfter(count, cursor, j))
  {
    var x := OffsetOf(count, cursor, id);
    var (j, i) := (x / BATCH_LIMIT, x % BATCH_LIMIT);
    CursorAdvances(count, cursor, j);
    ModAdd(cursor + BATCH_LIMIT * j, 1 + i, count);
    assert cursor + BATCH_LIMIT * j + (1 + i) == cursor + 1 + x;
    assert Visited(count, CursorAfter(count, cursor, j))[i] == id;
  }

  // ---- Repeated calls while streams are created ----

  /** Counts seen by successive calls: positive, never shrinking. */
  predicate Growing(counts: seq<u64>) {
    && (forall i :: 0 <= i < |counts| ==> 0 < counts[i])
    && (forall i, j :: 0 <= i <= j < |counts| ==> counts[i] <= counts[j])
  }

  function CursorThrough(counts: seq<u64>, cursor: u64): (c: u64)
    requires forall i :: 0 <= i < |counts| ==> 0 < counts[i]
    ensures |counts| > 0 ==> c < counts[|counts| - 1]
    ensures |counts| == 0 ==> c == cursor
  {
    if |counts| == 0 then cursor
    else NextCursor(counts[|counts| - 1], CursorThrough(counts[..|counts| - 1], cursor))
  }

  /** Below a bound no call has yet reached, the cursor moves by exactly eight a call, without wrapping. */
  lemma {:induction false} NoWrapBelow(counts: seq<u64>, cursor: u64)
    requires Growing(counts)
    requires forall j :: 0 <= j < |counts| ==> cursor + BATCH_LIMIT * (j + 1) < counts[j]
    ensures CursorThrough(counts, cursor) == cursor + BATCH_LIMIT * |counts|
  {
    if |counts| > 0 {
      var n := |counts| - 1;
      NoWrapBelow(counts[..n], cursor);
      VisitedWithoutWrap(counts[n], cursor + BATCH_LIMIT * n);
    }
  }

  /** An id `ahead` of the cursor is visited within ceil(ahead / 8) calls, whatever is created in between. */
  lemma AheadIsVisitedInTime(counts: seq<u64>, cursor: u64, ahead: nat)
    requires Growing(counts) && 1 <= ahead
    requires |counts| == (ahead + BATCH_LIMIT - 1) / BATCH_LIMIT
    requires cursor + ahead < counts[0]
    ensures cursor + ahead in Visited(counts[|counts| - 1], CursorThrough(counts[..|counts| - 1], cursor))
  {
    var n := |counts| - 1;
    NoWrapBelow(counts[..n], cursor);
    VisitedIdWithinTwo(counts[n], cursor + BATCH_LIMIT * n, ahead - BATCH_LIMIT * n - 1);
    assert Visited(counts[n], cursor + BATCH_LIMIT * n)[ahead - BATCH_LIMIT * n - 1] == cursor + ahead;
  }

  /**
   Growth can starve the ids behind the cursor: while every call finds more than eight new ids ahead,
   none of them is ever visited, for any number of calls.
   */
  lemma GrowthStarvesTheBehind(counts: seq<u64>, cursor: u64)
    requires Growing(counts)
    requires forall j :: 0 <= j < |counts| ==> cursor + BATCH_LIMIT * (j + 1) < counts[j]
    ensures forall j, id :: 0 <= j < |counts| && id in Visited(counts[j], CursorThrough(counts[..j], cursor)) ==>
              id > cursor
  {
    forall j, id | 0 <= j < |counts| && id in Visited(counts[j], CursorThrough(counts[..j], cursor))
      ensures id > cursor
    {
      NoWrapBelow(counts[..j], cursor);
      var i :| 0 <= i < BATCH_LIMIT && Visited(counts[j], CursorThrough(counts[..j], cursor))[i] == id;
      VisitedWithoutWrap(counts[j], cursor + BATCH_LIMIT * j);
    }
  }

  /** Whether call number `j` visits `id`. */
  predicate VisitsId(counts: seq<u64>, cursor: u64, id: u64, j: nat)
    requires Growing(counts) && j < |counts|
  {
    id in Visited(counts[j], CursorThrough(counts[..j], cursor))
  }

  predicate VisitedWithin(counts: seq<u64>, cursor: u64, id: u64)
    requires Growing(counts)
  {
    exists j :: 0 <= j < |counts| && VisitsId(counts, cursor, id, j)
  }

  /** Call number `j` is the first to come back round to id 0. */
  predicate FirstWrap(counts: seq<u64>, cursor: u64, j: nat) {
    && j < |counts|
    && counts[j] <= cursor + BATCH_LIMIT * (j + 1)
    && forall k :: 0 <= k < j ==> cursor + BATCH_LIMIT * (k + 1) < counts[k]
  }

  /** Whenever some call has the count within eight ids a call of the start, there is a first one. */
  lemma {:induction false} FirstWrapExists(counts: seq<u64>, cursor: u64, j: nat) returns (first: nat)
    requires j < |counts| && counts[j] <= cursor + BATCH_LIMIT * (j + 1)
    ensures first <= j && FirstWrap(counts, cursor, first)
  {
    if k :| 0 <= k < j && counts[k] <= cursor + BATCH_LIMIT * (k + 1) {
      first := FirstWrapExists(counts, cursor, k);
    } else {
      first := j;
    }
  }

  /** Walking on is walking from where the earlier calls left the cursor. */
  lemma {:induction false} CursorThroughConcat(first: seq<u64>, second: seq<u64>, cursor: u64)
    requires forall i :: 0 <= i < |first + second| ==> 0 < (first + second)[i]
    ensures (forall i :: 0 <= i < |first| ==> 0 < first[i]) && (forall i :: 0 <= i < |second| ==> 0 < second[i])
    ensures CursorThrough(first + second, cursor) == CursorThrough(second, CursorThrough(first, cursor))
  {
    forall i | 0 <= i < |first| ensures 0 < first[i] { assert (first + second)[i] == first[i]; }
    forall i | 0 <= i < |second| ensures 0 < second[i] { assert (first + second)[|first| + i] == second[i]; }
    if |second| == 0 {
      assert first + second == first;
    } else {
      var n := |second| - 1;
      assert (first + second)[..|first| + n] == first + second[..n];
      CursorThroughConcat(first, second[..n], cursor);
    }
  }

  /** A later call visits what it would visit if the walk had started after the first `m` calls. */
  lemma VisitsIdAfter(counts: seq<u64>, cursor: u64, id: u64, m: nat, j: nat)
    requires Growing(counts) && m <= j < |counts|
    ensures Growing(counts[m..])
    ensures VisitsId(counts, cursor, id, j)
       <==> VisitsId(counts[m..], CursorThrough(counts[..m], cursor), id, j - m)
  {
    assert counts[..j] == counts[..m] + counts[m..][..j - m];
    CursorThroughConcat(counts[..m], counts[m..][..j - m], cursor);
  }

  /** What the calls after the first `m` visit, the calls visit. */
  lemma VisitedAfter(counts: seq<u64>, cursor: u64, id: u64, m: nat)
    requires Growing(counts) && m <= |counts|
    ensures Growing(counts[m..])
    ensures VisitedWithin(counts, cursor, id) <==>
              || VisitedWithin(counts[m..], CursorThrough(counts[..m], cursor), id)
              || (exists j :: 0 <= j < m && VisitsId(counts, cursor, id, j))
  {
    var c := CursorThrough(counts[..m], cursor);
    forall j | m <= j < |counts|
      ensures VisitsId(counts, cursor, id, j) <==> VisitsId(counts[m..], c, id, j - m)
    {
      VisitsIdAfter(counts, cursor, id, m, j);
    }
    if j :| 0 <= j < |counts[m..]| && VisitsId(counts[m..], c, id, j) {
      assert VisitsId(counts, cursor, id, m + j);
    }
  }

  /** An id ahead is visited exactly once there have been enough calls to get there. */
  lemma AheadVisitedExactly(counts: seq<u64>, cursor: u64, id: u64)
    requires Growing(counts) && cursor < id
    requires |counts| > 0 ==> id < counts[0]
    ensures VisitedWithin(counts, cursor, id) <==> id <= cursor + BATCH_LIMIT * |counts|
  {
    if id <= cursor + BATCH_LIMIT * |counts| {
      var calls := (id - cursor + BATCH_LIMIT - 1) / BATCH_LIMIT;
      AheadIsVisitedInTime(counts[..calls], cursor, id - cursor);
      assert counts[..calls][..calls - 1] == counts[..calls - 1];
      assert VisitsId(counts, cursor, id, calls - 1);
    } else {
      forall j | 0 <= j < |counts|
        ensures !VisitsId(counts, cursor, id, j)
      {
        NoWrapBelow(counts[..j], cursor);
        VisitedWithoutWrap(counts[j], cursor + BATCH_LIMIT * j);
      }
    }
  }

  /** The first wrapping call visits, of the ids behind its starting point, exactly those up to where it stops. */
  lemma WrapVisitsExactly(count: u64, cursor: u64, id: u64)
    requires BATCH_LIMIT <= count && cursor < count <= cursor + BATCH_LIMIT && count + BATCH_LIMIT - 1 <= U64_MAX
    requires id <= cursor
    ensures NextCursor(count, cursor) == cursor + BATCH_LIMIT - count < BATCH_LIMIT
    ensures id in Visited(count, cursor) <==> id <= NextCursor(count, cursor)
  {
    VisitedIdWithinTwo(count, cursor, BATCH_LIMIT - 1);
    if id <= cursor + BATCH_LIMIT - count {
      VisitedIdWithinTwo(count, cursor, count - cursor - 1 + id);
      assert Visited(count, cursor)[count - cursor - 1 + id] == id;
    } else if i :| 0 <= i < BATCH_LIMIT && Visited(count, cursor)[i] == id {
      VisitedIdWithinTwo(count, cursor, i);
    }
  }

  /** Where the first wrapping call leaves the cursor, and which of the ids behind it visits. */
  lemma FirstWrapVisitsExactly(counts: seq<u64>, cursor: u64, id: u64, j: nat)
    requires Growing(counts) && FirstWrap(counts, cursor, j) && id <= cursor < counts[0]
    requires BATCH_LIMIT <= counts[0] && counts[j] + BATCH_LIMIT - 1 <= U64_MAX
    ensures CursorThrough(counts[..j + 1], cursor) == cursor + BATCH_LIMIT * (j + 1) - counts[j]
    ensures VisitsId(counts, cursor, id, j) <==> id <= CursorThrough(counts[..j + 1], cursor)
  {
    NoWrapBelow(counts[..j], cursor);
    WrapVisitsExactly(counts[j], cursor + BATCH_LIMIT * j, id);
    assert counts[..j + 1][..j] == counts[..j];
  }

  /** From the first wrap on, the walk comes round to the ids behind as to ids ahead of its new cursor. */
  lemma BehindVisitedAfterWrap(counts: seq<u64>, cursor: u64, id: u64, j: nat)
    requires Growing(counts) && FirstWrap(counts, cursor, j) && id <= cursor < counts[0]
    requires BATCH_LIMIT <= counts[0] && counts[j] + BATCH_LIMIT - 1 <= U64_MAX
    ensures VisitedWithin(counts, cursor, id) <==> counts[j] + id <= cursor + BATCH_LIMIT * |counts|
  {
    FirstWrapVisitsExactly(counts, cursor, id, j);
    if VisitsId(counts, cursor, id, j) {
      assert VisitedWithin(counts, cursor, id);
    } else {
      var c := CursorThrough(counts[..j + 1], cursor);
      VisitedAfter(counts, cursor, id, j + 1);
      NothingBehindBefore(counts, cursor, id, j);
      AheadVisitedExactly(counts[j + 1..], c, id);
    }
  }

  lemma NothingBehindBefore(counts: seq<u64>, cursor: u64, id: u64, j: nat)
    requires Growing(counts) && j <= |counts| && id <= cursor
    requires forall k :: 0 <= k < j ==> cursor + BATCH_LIMIT * (k + 1) < counts[k]
    ensures forall k :: 0 <= k < j ==> !VisitsId(counts, cursor, id, k)
  {
    GrowthStarvesTheBehind(counts[..j], cursor);
    forall k | 0 <= k < j
      ensures !VisitsId(counts, cursor, id, k)
    {
      assert counts[..j][k] == counts[k] && counts[..j][..k] == counts[..k];
    }
  }

  /** Enough calls: to get to an id ahead; or to catch up with the count, go round it and on to an id behind. */
  predicate InReach(counts: seq<u64>, cursor: u64, id: u64) {
    if id > cursor then id <= cursor + BATCH_LIMIT * |counts|
    else
      exists j :: 0 <= j < |counts| && counts[j] <= cursor + BATCH_LIMIT * (j + 1)
                  && counts[j] + id <= cursor + BATCH_LIMIT * |counts|
  }

  /**
   The walk's whole reach, while streams are created in any numbers between the calls. An id ahead of the
   cursor is visited exactly once there have been enough calls to get there. An id at or behind it is
   visited exactly if some call finds the count no more than eight ids a call ahead of where the cursor
   started, and the calls suffice to go round that count and on to the id.
   */
  lemma VisitedExactly(counts: seq<u64>, cursor: u64, id: u64)
    requires Growing(counts)
    requires |counts| > 0 ==> cursor < counts[0] && id < counts[0]
    requires forall j :: 0 <= j < |counts| ==> counts[j] + BATCH_LIMIT - 1 <= U64_MAX
    ensures VisitedWithin(counts, cursor, id) <==> InReach(counts, cursor, id)
  {
    if id > cursor {
      AheadVisitedExactly(counts, cursor, id);
    } else if |counts| > 0 && counts[0] < BATCH_LIMIT {
      OneCallCovers(counts[0], cursor);
      assert VisitsId(counts, cursor, id, 0);
      assert counts[0] <= cursor + BATCH_LIMIT * (0 + 1);
    } else if j :| 0 <= j < |counts| && counts[j] <= cursor + BATCH_LIMIT * (j + 1) {
      var first := FirstWrapExists(counts, cursor, j);
      BehindVisitedAfterWrap(counts, cursor, id, first);
    } else {
      NothingBehindBefore(counts, cursor, id, |counts|);
    }
  }

  /**
   So id 0, first to be left behind, is visited within these calls if and only if at one of them the
   count is no more than eight ids a call ahead of where the cursor started.
   */
  lemma ZeroVisitedExactly(counts: seq<u64>, cursor: u64)
    requires Growing(counts) && |counts| > 0 && cursor < counts[0]
    requires forall j :: 0 <= j < |counts| ==> counts[j] + BATCH_LIMIT - 1 <= U64_MAX
    ensures VisitedWithin(counts, cursor, 0)
       <==> (exists j :: 0 <= j < |counts| && counts[j] <= cursor + BATCH_LIMIT * (j + 1))
  {
    VisitedExactly(counts, cursor, 0);
    if j :| 0 <= j < |counts| && counts[j] <= cursor + BATCH_LIMIT * (j + 1) {
      assert counts[j] + 0 <= cursor + BATCH_LIMIT * |counts|;
    }
  }

  /**
   The promise holds while creation is slower than the walk: with at most `growth` new streams between
   two calls, n calls with 8n >= count + growth x (n - 1) visit every id there was at the first of them.
   */
  lemma SlowGrowthCoversEveryId(counts: seq<u64>, cursor: u64, id: u64, growth: nat)
    requires Growing(counts) && |counts| > 0 && cursor < counts[0] && id < counts[0]
    requires forall j :: 0 <= j < |counts| ==> counts[j] + BATCH_LIMIT - 1 <= U64_MAX
    requires forall j :: 0 < j < |counts| ==> counts[j] <= counts[j - 1] + growth
    requires BATCH_LIMIT * |counts| >= counts[0] + growth * (|counts| - 1)
    ensures VisitedWithin(counts, cursor, id)
  {
    var n := |counts| - 1;
    GrowthAddsUp(counts, growth, n);
    MulMonotone(growth, 0, n);
    VisitedExactly(counts, cursor, id);
    if id <= cursor {
      assert counts[n] <= cursor + BATCH_LIMIT * (n + 1) && counts[n] + id <= cursor + BATCH_LIMIT * |counts|;
    }
  }

  lemma {:induction false} GrowthAddsUp(counts: seq<u64>, growth: nat, n: nat)
    requires n < |counts|
    requires forall j :: 0 < j < |counts| ==> counts[j] <= counts[j - 1] + growth
    ensures counts[n] <= counts[0] + growth * n
  {
    if n > 0 { GrowthAddsUp(counts, growth, n - 1); }
  }
}
