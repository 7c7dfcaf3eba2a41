// Setting pages aside for groups, and allocating pages at a given address.
module Reserves {
  import opened Common
  import opened Align
  import opened Arenas
  import opened FreeRun
  import opened Pmm

  // Only how many pages are set aside changes.
  ghost predicate OnlyReserves(x: seq<Arena>, y: seq<Arena>) {
    |x| == |y| && forall a :: 0 <= a < |x| ==> y[a] == x[a].(reservedCount := y[a].reservedCount)
  }

  function Minimum(a: nat, b: nat): nat {
    if a <= b then a else b
  }

  // check_available_pages: goes through the arenas and, if asked to, sets pages
  // aside in each.
  method CheckAvailable(x: seq<Arena>, count0: nat, reserve: bool) returns (y: seq<Arena>, count: nat)
    requires AllOk(x)
    ensures AllOk(y) && OnlyReserves(x, y)
    ensures count == if count0 <= SumFree(x, |x|) then 0 else count0 - SumFree(x, |x|)
    ensures SumReserved(y) == SumReserved(x) + (if reserve then count0 - count else 0)
    ensures !reserve ==> y == x
    ensures reserve ==> forall b, c :: 0 <= b < c < |x| && y[c] != x[c] ==> y[b].reservedCount == y[b].freeCount
  {
    hide *;
    y, count := x, count0;
    var a := 0;
    FilledStart(x, count);
    ReservedStart(x, count0, reserve);
    while a < |x|
      invariant 0 <= a <= |x| == |y| && count <= count0
      invariant ReservedSoFar(x, y, a, count0, count, reserve)
      invariant reserve ==> Filled(x, y, a, count)
    {
      ReservedNext(x, y, a, count0, count, reserve);
      if reserve {
        FilledNext(x, y, a, count);
      }
      var n := Minimum(count, y[a].freeCount - y[a].reservedCount);
      MinimumAtMost(count, y[a].freeCount - y[a].reservedCount);
      count := count - n;
      if reserve {
        y := y[a := y[a].(reservedCount := y[a].reservedCount + n)];
      }
      a := a + 1;
      if count == 0 {
        break;
      }
    }
    ReservedEnd(x, y, a, count0, count, reserve);
    if reserve {
      FilledEnd(x, y, a, count);
    }
  }

  // An arena is only touched once all before it are exhausted, as all below a are
  // while there is more to do.
  ghost predicate Filled(x: seq<Arena>, y: seq<Arena>, a: nat, count: nat) {
    && |x| == |y|
    && (forall b, c :: 0 <= b < c < |x| && y[c] != x[c] ==> y[b].reservedCount == y[b].freeCount)
    && (forall b :: 0 <= b < a && b < |y| && count > 0 ==> y[b].reservedCount == y[b].freeCount)
    && (forall b :: a <= b < |x| ==> y[b] == x[b])
  }

  lemma FilledStart(x: seq<Arena>, count: nat)
    ensures Filled(x, x, 0, count)
  {
  }

  lemma FilledNext(x: seq<Arena>, y: seq<Arena>, a: nat, count: nat)
    requires Filled(x, y, a, count) && a < |y| && y[a].freeCount >= y[a].reservedCount
    ensures var n := Minimum(count, y[a].freeCount - y[a].reservedCount);
      Filled(x, y[a := y[a].(reservedCount := y[a].reservedCount + n)], a + 1, count - n)
  {
  }

  lemma FilledEnd(x: seq<Arena>, y: seq<Arena>, a: nat, count: nat)
    requires Filled(x, y, a, count)
    ensures |x| == |y| && forall b, c :: 0 <= b < c < |x| && y[c] != x[c] ==> y[b].reservedCount == y[b].freeCount
  {
  }

  lemma MinimumAtMost(a: nat, b: nat)
    ensures Minimum(a, b) <= a && Minimum(a, b) <= b
  {
  }

  lemma ReservedStart(x: seq<Arena>, count: nat, reserve: bool)
    requires AllOk(x)
    ensures ReservedSoFar(x, x, 0, count, count, reserve)
  {
  }

  lemma ReservedEnd(x: seq<Arena>, y: seq<Arena>, a: nat, count0: nat, count: nat, reserve: bool)
    requires ReservedSoFar(x, y, a, count0, count, reserve) && (a == |x| || count == 0)
    ensures AllOk(y) && OnlyReserves(x, y) && (!reserve ==> y == x)
    ensures count == if count0 <= SumFree(x, |x|) then 0 else count0 - SumFree(x, |x|)
    ensures SumReserved(y) == SumReserved(x) + (if reserve then count0 - count else 0)
  {
    SumFreeMonotone(x, a);
  }

  // Taking in turn from two sources is taking from both.
  lemma MinimumSum(count: nat, s: nat, t: nat)
    ensures Minimum(count, s) <= count && Minimum(count - Minimum(count, s), t) <= count - Minimum(count, s)
    ensures Minimum(count, s + t) == Minimum(count, s) + Minimum(count - Minimum(count, s), t)
    ensures Minimum(count - Minimum(count, s), t) <= t
  {
  }

  ghost predicate ReservedSoFar(x: seq<Arena>, y: seq<Arena>, a: nat, count0: nat, count: nat, reserve: bool) {
    && a <= |x| == |y| && count <= count0 && AllOk(y) && OnlyReserves(x, y) && (!reserve ==> y == x)
    && (forall b :: a <= b < |x| ==> y[b] == x[b])
    && count == count0 - Minimum(count0, SumFree(x, a))
    && SumReserved(y) == SumReserved(x) + (if reserve then count0 - count else 0)
  }

  lemma ArenaAt(y: seq<Arena>, a: nat)
    requires AllOk(y) && a < |y|
    ensures y[a].freeCount >= y[a].reservedCount
  {
    assert ArenaOk(y[a]);
  }

  lemma FreeNext(x: seq<Arena>, a: nat)
    requires a < |x|
    ensures SumFree(x, a + 1) == SumFree(x, a) + (if x[a].freeCount >= x[a].reservedCount then x[a].freeCount - x[a].reservedCount else 0)
  {
  }

  lemma OnlyReservesNext(x: seq<Arena>, y: seq<Arena>, a: nat, n: nat)
    requires OnlyReserves(x, y) && a < |y|
    ensures OnlyReserves(x, y[a := y[a].(reservedCount := n)])
  {
  }

  lemma ReservedNext(x: seq<Arena>, y: seq<Arena>, a: nat, count0: nat, count: nat, reserve: bool)
    requires ReservedSoFar(x, y, a, count0, count, reserve) && a < |x|
    ensures y[a].freeCount >= y[a].reservedCount
    ensures var n := Minimum(count, y[a].freeCount - y[a].reservedCount);
      ReservedSoFar(x, if reserve then y[a := y[a].(reservedCount := y[a].reservedCount + n)] else y, a + 1, count0, count - n, reserve)
  {
    hide AllOk, SumReserved, OnlyReserves, ArenaOk, Minimum, SumFree;
    ArenaAt(y, a);
    var n := Minimum(count, y[a].freeCount - y[a].reservedCount);
    FreeNext(x, a);
    MinimumSum(count0, SumFree(x, a), y[a].freeCount - y[a].reservedCount);
    if reserve {
      ReserveMore(y, a, n);
      OnlyReservesNext(x, y, a, y[a].reservedCount + n);
    }
  }

  lemma {:induction false} SumFreeMonotone(x: seq<Arena>, k: nat)
    requires k <= |x|
    ensures SumFree(x, k) <= SumFree(x, |x|)
    decreases |x| - k
  {
    if k < |x| {
      SumFreeMonotone(x, k + 1);
    }
  }

  lemma ReserveMore(y: seq<Arena>, a: nat, n: int)
    requires AllOk(y) && a < |y| && 0 <= y[a].reservedCount + n <= y[a].freeCount
    ensures var v := y[a].(reservedCount := y[a].reservedCount + n);
      AllOk(y[a := v]) && SumReserved(y[a := v]) == SumReserved(y) + n
  {
    SumUpdate(y, a, y[a].(reservedCount := y[a].reservedCount + n));
  }

  // pmm_reserve_pages: all or nothing.
  method ReservePages(x: seq<Arena>, count: nat) returns (ok: bool, y: seq<Arena>)
    requires AllOk(x)
    ensures AllOk(y) && OnlyReserves(x, y)
    ensures ok <==> count <= SumFree(x, |x|)
    ensures ok ==> SumReserved(y) == SumReserved(x) + count
    ensures !ok ==> y == x
    ensures forall b, c :: 0 <= b < c < |x| && y[c] != x[c] ==> y[b].reservedCount == y[b].freeCount
  {
    var remaining;
    y, remaining := CheckAvailable(x, count, false);
    ok := remaining == 0;
    if ok {
      y, remaining := CheckAvailable(x, count, true);
    }
  }

  // pmm_unreserve_pages: the kernel asserts that left is 0.
  method UnreservePages(x: seq<Arena>, count: nat) returns (y: seq<Arena>, left: nat)
    requires AllOk(x)
    ensures AllOk(y) && OnlyReserves(x, y)
    ensures left == if count <= SumReserved(x) then 0 else count - SumReserved(x)
    ensures SumReserved(y) == SumReserved(x) - (count - left)
    ensures forall b, c :: 0 <= b < c < |x| && y[c] != x[c] ==> y[b].reservedCount == 0
  {
    hide *;
    y, left := x, count;
    var a := 0;
    ReturnedStart(x, count);
    EmptiedStart(x, count);
    while a < |x|
      invariant 0 <= a <= |x| == |y| && left <= count
      invariant ReturnedSoFar(x, y, a, count, left)
      invariant Emptied(x, y, a, left)
    {
      var n := Minimum(left, y[a].reservedCount);
      MinimumAtMost(left, y[a].reservedCount);
      ReturnedNext(x, y, a, count, left);
      EmptiedNext(x, y, a, left);
      y := y[a := y[a].(reservedCount := y[a].reservedCount - n)];
      left := left - n;
      a := a + 1;
      if left == 0 {
        break;
      }
    }
    ReturnedEnd(x, y, a, count, left);
    EmptiedEnd(x, y, a, left);
  }

  ghost predicate Emptied(x: seq<Arena>, y: seq<Arena>, a: nat, left: nat) {
    && |x| == |y|
    && (forall b, c :: 0 <= b < c < |x| && y[c] != x[c] ==> y[b].reservedCount == 0)
    && (forall b :: 0 <= b < a && b < |y| && left > 0 ==> y[b].reservedCount == 0)
    && (forall b :: a <= b < |x| ==> y[b] == x[b])
  }

  lemma EmptiedStart(x: seq<Arena>, left: nat)
    ensures Emptied(x, x, 0, left)
  {
  }

  lemma EmptiedNext(x: seq<Arena>, y: seq<Arena>, a: nat, left: nat)
    requires Emptied(x, y, a, left) && a < |y|
    ensures var n := Minimum(left, y[a].reservedCount);
      n <= left && n <= y[a].reservedCount && Emptied(x, y[a := y[a].(reservedCount := y[a].reservedCount - n)], a + 1, left - n)
  {
  }

  lemma EmptiedEnd(x: seq<Arena>, y: seq<Arena>, a: nat, left: nat)
    requires Emptied(x, y, a, left)
    ensures |x| == |y| && forall b, c :: 0 <= b < c < |x| && y[c] != x[c] ==> y[b].reservedCount == 0
  {
  }

  lemma ReturnedStart(x: seq<Arena>, count: nat)
    requires AllOk(x)
    ensures ReturnedSoFar(x, x, 0, count, count)
  {
    assert x[..0] == [];
  }

  lemma ReturnedEnd(x: seq<Arena>, y: seq<Arena>, a: nat, count: nat, left: nat)
    requires ReturnedSoFar(x, y, a, count, left) && (a == |x| || left == 0)
    ensures AllOk(y) && OnlyReserves(x, y)
    ensures left == if count <= SumReserved(x) then 0 else count - SumReserved(x)
    ensures SumReserved(y) == SumReserved(x) - (count - left)
  {
    SumPrefix(x, a);
    assert x[..|x|] == x;
  }

  ghost predicate ReturnedSoFar(x: seq<Arena>, y: seq<Arena>, a: nat, count: nat, left: nat) {
    && a <= |x| == |y| && left <= count && AllOk(y) && OnlyReserves(x, y)
    && (forall b :: a <= b < |x| ==> y[b] == x[b])
    && left == count - Minimum(count, SumReserved(x[..a]))
    && SumReserved(y) == SumReserved(x) - (count - left)
  }

  lemma ReturnedNext(x: seq<Arena>, y: seq<Arena>, a: nat, count: nat, left: nat)
    requires ReturnedSoFar(x, y, a, count, left) && a < |x|
    ensures var n := Minimum(left, y[a].reservedCount);
      ReturnedSoFar(x, y[a := y[a].(reservedCount := y[a].reservedCount - n)], a + 1, count, left - n)
  {
    hide AllOk, OnlyReserves, Minimum;
    ArenaAt(y, a);
    var n: int := Minimum(left, y[a].reservedCount);
    MinimumSum(count, SumReserved(x[..a]), y[a].reservedCount);
    SumSnoc(x[..a], x[a]);
    assert x[..a + 1] == x[..a] + [x[a]];
    hide SumReserved;
    ReserveMore(y, a, -n);
    OnlyReservesNext(x, y, a, y[a].reservedCount - n);
  }

  lemma {:induction false} SumPrefix(x: seq<Arena>, k: nat)
    requires k <= |x|
    ensures SumReserved(x[..k]) <= SumReserved(x)
    decreases |x| - k
  {
    if k < |x| {
      SumSnoc(x[..k], x[k]);
      assert x[..k + 1] == x[..k] + [x[k]];
      SumPrefix(x, k + 1);
    } else {
      assert x[..k] == x;
    }
  }

  // ---------- pmm_alloc_range ----------

  predicate AddressIn(page: nat, a: Arena, address: nat) {
    a.base <= address && address + 1 <= a.base + a.Pages() * page
  }

  // The pages lie one after the other from an address on.
  ghost predicate InRow(page: nat, x: seq<Arena>, ps: seq<Page>, from: nat) {
    forall k :: 0 <= k < |ps| ==> PageIn(x, ps[k]) && x[ps[k].a].base + ps[k].i * page == from + k * page
  }

  // Takes the pages from an address on, one after the other, as far as they
  // are free, not needed for a reserve, and in this or a later arena. It only
  // stops short if no arena from there on can give the next page.
  method AllocRange(page: nat, x: seq<Arena>, address0: nat, count: nat) returns (y: seq<Arena>, ps: seq<Page>)
    requires AllOk(x) && page > 0 && forall a :: 0 <= a < |x| ==> Aligned(x[a].base, page)
    ensures AllOk(y) && Held(x, y, ps, false) && |ps| <= count
    ensures SumReserved(y) == SumReserved(x)
    ensures InRow(page, x, ps, RoundDown(address0, page))
    ensures |y| == |x| && (ps != [] ==> ps[|ps| - 1].a < |x|)
    ensures |ps| < count ==> StopsFrom(page, y, ps, |x|, RoundDown(address0, page) + |ps| * page)
  {
    hide StopsFrom, Stops, Held, InRow, AllOk, SumReserved, RoundDown, Aligned, ArenaOk;
    y, ps := x, [];
    HeldNone(x, false);
    NoRow(page, x, RoundDown(address0, page));
    if count == 0 {
      return;
    }
    var address := RoundDown(address0, page);
    RoundedDown(address0, page);
    var a := 0;
    NoneStops(page, y, ps, address);
    while a < |x|
      invariant 0 <= a <= |x| == |y| && |ps| < count
      invariant AllOk(y) && Held(x, y, ps, false) && SumReserved(y) == SumReserved(x)
      invariant Aligned(address, page) && address == RoundDown(address0, page) + |ps| * page
      invariant InRow(page, x, ps, RoundDown(address0, page))
      invariant (ps != [] ==> ps[|ps| - 1].a < a) && StopsFrom(page, y, ps, a, address)
    {
      ghost var y1, ps1, address1 := y, ps, address;
      y, ps, address := RangeIn(page, x, y, ps, a, address, count, RoundDown(address0, page));
      if |ps| == count {
        return;
      }
      StopsNext(page, y1, ps1, address1, y, ps, a, address);
      a := a + 1;
    }
  }

  // Why no page at an address can be taken from an arena.
  ghost predicate Stops(page: nat, a: Arena, address: int) {
    || !(a.base <= address < a.base + |a.nonfree| * page) || a.freeCount <= a.reservedCount
    || exists i :: 0 <= i < a.Pages() && address == a.base + i * page && a.nonfree[i]
  }

  // No arena below n, from that of the last page on, can give the next page.
  ghost predicate StopsFrom(page: nat, y: seq<Arena>, ps: seq<Page>, n: nat, address: int) {
    n <= |y| && forall b :: (if ps == [] then 0 else ps[|ps| - 1].a) <= b < n ==> Stops(page, y[b], address)
  }

  lemma NoRow(page: nat, x: seq<Arena>, from: nat)
    ensures InRow(page, x, [], from)
  {
  }

  lemma NoneStops(page: nat, y: seq<Arena>, ps: seq<Page>, address: nat)
    ensures StopsFrom(page, y, ps, 0, address)
  {
  }

  lemma StopsNext(page: nat, y: seq<Arena>, ps: seq<Page>, address: nat, y': seq<Arena>, ps': seq<Page>, a: nat, address': nat)
    requires StopsFrom(page, y, ps, a, address) && a < |y'| && Stops(page, y'[a], address')
    requires if ps' == ps then y' == y && address' == address else ps' != [] && ps'[|ps'| - 1].a == a
    ensures StopsFrom(page, y', ps', a + 1, address')
  {
  }

  lemma PageIndex(page: nat, a: Arena, address: nat)
    requires page > 0 && Aligned(a.base, page) && Aligned(address, page) && AddressIn(page, a, address)
    ensures var i := (address - a.base) / page;
      i < a.Pages() && address == a.base + i * page && Aligned(address + page, page)
  {
    AlignedDifference(a.base, address, page);
    var i := Quotient(address - a.base, page);
    Order(a.Pages(), i, page);
    SelfAligned(page);
    AlignedSum(address, page, page);
  }

  lemma StopsAt(page: nat, a: Arena, address: nat, i: nat)
    requires i < |a.nonfree| && i < a.Pages() && address == a.base + i * page && (a.freeCount <= a.reservedCount || a.nonfree[i])
    ensures Stops(page, a, address)
  {
  }

  lemma StopsOutside(page: nat, a: Arena, address: nat)
    requires !AddressIn(page, a, address)
    ensures Stops(page, a, address)
  {
  }

  lemma HeldSizes(x: seq<Arena>, y: seq<Arena>, ps: seq<Page>, a: nat)
    requires AllOk(y) && Held(x, y, ps, false) && a < |y|
    ensures |x| == |y| && y[a].base == x[a].base && y[a].Pages() == |y[a].nonfree| == x[a].Pages()
    ensures forall i :: 0 <= i < y[a].Pages() ==> PageIn(x, Page(a, i))
  {
    assert ArenaOk(y[a]);
  }

  method RangeIn(page: nat, ghost x: seq<Arena>, y0: seq<Arena>, ps0: seq<Page>, a: nat, address0: nat, count: nat, ghost from: nat)
    returns (y: seq<Arena>, ps: seq<Page>, address: nat)
    requires AllOk(y0) && Held(x, y0, ps0, false) && a < |y0| && |ps0| <= count && page > 0
    requires Aligned(x[a].base, page) && Aligned(address0, page) && address0 == from + |ps0| * page
    requires InRow(page, x, ps0, from)
    ensures AllOk(y) && Held(x, y, ps, false) && |ps| <= count && SumReserved(y) == SumReserved(y0)
    ensures Aligned(address, page) && address == from + |ps| * page
    ensures InRow(page, x, ps, from)
    ensures |y| == |y0| && (|ps| == count || Stops(page, y[a], address))
    ensures if ps == ps0 then y == y0 && address == address0 else ps != [] && ps[|ps| - 1].a == a
  {
    hide *;
    y, ps, address := y0, ps0, address0;
    RangedStart(page, x, y, ps, a, address, from);
    var more := true;
    while more && |ps| < count && AddressIn(page, y[a], address)
      invariant |y| == |y0| && |ps0| <= |ps| <= count && SumReserved(y) == SumReserved(y0)
      invariant Ranged(page, x, y, ps, a, address, from)
      invariant !more ==> Stops(page, y[a], address)
      invariant if ps == ps0 then y == y0 && address == address0 else ps != [] && ps[|ps| - 1].a == a
      decreases count - |ps|, more
    {
      more, y, ps, address := TakeAt(page, x, y, ps, a, address, from);
    }
    if !AddressIn(page, y[a], address) {
      StopsOutside(page, y[a], address);
    }
    RangedEnd(page, x, y, ps, a, address, from);
  }

  ghost predicate Ranged(page: nat, x: seq<Arena>, y: seq<Arena>, ps: seq<Page>, a: nat, address: nat, from: nat) {
    && AllOk(y) && Held(x, y, ps, false) && a < |y| == |x| && page > 0
    && Aligned(x[a].base, page) && Aligned(address, page) && address == from + |ps| * page && InRow(page, x, ps, from)
  }

  lemma RangedStart(page: nat, x: seq<Arena>, y: seq<Arena>, ps: seq<Page>, a: nat, address: nat, from: nat)
    requires AllOk(y) && Held(x, y, ps, false) && a < |y| && page > 0
    requires Aligned(x[a].base, page) && Aligned(address, page) && address == from + |ps| * page && InRow(page, x, ps, from)
    ensures Ranged(page, x, y, ps, a, address, from)
  {
  }

  lemma RangedEnd(page: nat, x: seq<Arena>, y: seq<Arena>, ps: seq<Page>, a: nat, address: nat, from: nat)
    requires Ranged(page, x, y, ps, a, address, from)
    ensures AllOk(y) && Held(x, y, ps, false) && Aligned(address, page) && address == from + |ps| * page && InRow(page, x, ps, from)
  {
  }

  // Takes the page at an address of an arena, if it can be taken.
  method TakeAt(page: nat, ghost x: seq<Arena>, y0: seq<Arena>, ps0: seq<Page>, a: nat, address0: nat, ghost from: nat)
    returns (taken: bool, y: seq<Arena>, ps: seq<Page>, address: nat)
    requires a < |y0| && Ranged(page, x, y0, ps0, a, address0, from) && AddressIn(page, y0[a], address0)
    ensures |y| == |y0| && Ranged(page, x, y, ps, a, address, from) && SumReserved(y) == SumReserved(y0)
    ensures taken ==> |ps| == |ps0| + 1 && ps[|ps| - 1].a == a
    ensures !taken ==> y == y0 && ps == ps0 && address == address0 && Stops(page, y[a], address)
  {
    hide Held, AllOk, SumReserved, InRow, Aligned, ArenaOk, Stops;
    HeldSizes(x, y0, ps0, a);
    PageIndex(page, y0[a], address0);
    var index := (address0 - y0[a].base) / page;
    y, ps, address := y0, ps0, address0;
    if y[a].freeCount <= y[a].reservedCount || y[a].nonfree[index] {
      StopsAt(page, y[a], address, index);
      return false, y, ps, address;
    }
    TakeStep(x, y, ps, false, a, index);
    RangeStep(page, x, y, ps, from, a, index);
    y := y[a := y[a].Take(index, false)];
    ps := ps + [Page(a, index)];
    address := address + page;
    taken := true;
  }

  lemma RangeStep(page: nat, x: seq<Arena>, y: seq<Arena>, ps: seq<Page>, from: nat, a: nat, i: nat)
    requires a < |x| && InRow(page, x, ps, from) && PageIn(x, Page(a, i)) && x[a].base + i * page == from + |ps| * page
    ensures from + (|ps| + 1) * page == from + |ps| * page + page
    ensures InRow(page, x, ps + [Page(a, i)], from)
  {
  }
}
