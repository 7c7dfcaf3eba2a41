// The physical page allocator over several arenas.
module Pmm {
  import opened Common
  import opened Lists
  import opened Arenas
  import opened FreeRun

  // A page by its arena and its number in it.
  datatype Page = Page(a: nat, i: nat)

  ghost predicate PageIn(x: seq<Arena>, p: Page) {
    p.a < |x| && p.i < x[p.a].Pages() && p.i < |x[p.a].reserved|
  }

  ghost predicate AllOk(x: seq<Arena>) {
    forall a :: 0 <= a < |x| ==> ArenaOk(x[a])
  }

  ghost predicate DistinctPages(ps: seq<Page>) {
    forall j, k :: 0 <= j < k < |ps| ==> ps[j] != ps[k]
  }

  // The same place and size, and as many pages set aside for groups.
  ghost predicate SameArena(a: Arena, b: Arena) {
    && a.base == b.base && a.kmap == b.kmap && |a.nonfree| == |b.nonfree| && |a.reserved| == |b.reserved|
    && Ledger(a) == Ledger(b)
  }

  ghost predicate SameArenas(x: seq<Arena>, y: seq<Arena>) {
    |x| == |y| && forall a :: 0 <= a < |x| ==> SameArena(x[a], y[a])
  }

  // From x to y exactly the pages of ps, free before, have been taken.
  ghost predicate Held(x: seq<Arena>, y: seq<Arena>, ps: seq<Page>, r: bool) {
    && SameArenas(x, y) && DistinctPages(ps)
    && (forall k :: 0 <= k < |ps| ==> PageIn(x, ps[k]) && !x[ps[k].a].nonfree[ps[k].i])
    && (forall a, i {:trigger y[a].nonfree[i]} {:trigger y[a].reserved[i]} :: 0 <= a < |x| && 0 <= i < |x[a].nonfree| && i < |x[a].reserved| ==>
          && y[a].nonfree[i] == (x[a].nonfree[i] || Page(a, i) in ps)
          && y[a].reserved[i] == (x[a].reserved[i] || (r && Page(a, i) in ps)))
  }

  // From x to y exactly the pages of ps have been returned.
  ghost predicate Freed(x: seq<Arena>, y: seq<Arena>, ps: seq<Page>) {
    && SameArenas(x, y)
    && (forall a, i {:trigger y[a].nonfree[i]} {:trigger y[a].reserved[i]} :: 0 <= a < |x| && 0 <= i < |x[a].nonfree| && i < |x[a].reserved| ==>
          && y[a].nonfree[i] == (x[a].nonfree[i] && Page(a, i) !in ps)
          && y[a].reserved[i] == (x[a].reserved[i] && Page(a, i) !in ps))
  }

  // The same pages are free and the counters agree; only the order of the free
  // lists may differ.
  ghost predicate Restored(x: seq<Arena>, y: seq<Arena>) {
    |x| == |y| && forall a :: 0 <= a < |x| ==>
      && x[a].(free := y[a].free) == y[a]
      && (forall i :: i in y[a].free <==> i in x[a].free)
  }

  lemma SameFlags(a: Arena, b: Arena)
    requires ArenaOk(a) && ArenaOk(b) && SameArena(a, b)
    requires a.nonfree == b.nonfree && a.reserved == b.reserved
    ensures a.(free := b.free) == b && forall i :: i in b.free <==> i in a.free
  {
  }

  // Returning what was taken restores flags and counters.
  lemma HeldFreed(x: seq<Arena>, y: seq<Arena>, z: seq<Arena>, ps: seq<Page>, r: bool)
    requires AllOk(x) && AllOk(z) && Held(x, y, ps, r) && Freed(y, z, ps)
    ensures Restored(x, z)
  {
    forall a | 0 <= a < |x|
      ensures x[a].(free := z[a].free) == z[a] && forall i :: i in z[a].free <==> i in x[a].free
    {
      forall i | 0 <= i < |x[a].nonfree|
        ensures z[a].nonfree[i] == x[a].nonfree[i] && z[a].reserved[i] == x[a].reserved[i]
      {
        assert y[a].nonfree[i] == (x[a].nonfree[i] || Page(a, i) in ps);
        if Page(a, i) in ps {
          var k :| 0 <= k < |ps| && ps[k] == Page(a, i);
          assert !x[a].nonfree[i];
        }
      }
      SameFlags(x[a], z[a]);
    }
  }

  lemma HeldNone(x: seq<Arena>, r: bool)
    ensures Held(x, x, [], r)
  {
  }

  lemma NotHeldYet(x: seq<Arena>, y: seq<Arena>, ps: seq<Page>, r: bool, a: nat, i: nat)
    requires AllOk(y) && Held(x, y, ps, r) && a < |y| && i < y[a].Pages() && !y[a].nonfree[i]
    ensures |x| == |y| && PageIn(x, Page(a, i)) && !x[a].nonfree[i] && Page(a, i) !in ps
  {
    assert ArenaOk(y[a]);
  }

  lemma TakenFlags(y: Arena, i: nat, r: bool)
    requires ArenaOk(y) && i < y.Pages() && y.freeCount > 0 && (r ==> y.reservedCount > 0)
    ensures i < |y.nonfree| && i < |y.reserved|
    ensures var v := y.Take(i, r);
      && v.nonfree == y.nonfree[i := true] && v.reserved == (if r then y.reserved[i := true] else y.reserved)
      && v.base == y.base && v.kmap == y.kmap
  {
  }

  lemma TakenAllOk(y: seq<Arena>, a: nat, v: Arena)
    requires AllOk(y) && a < |y| && ArenaOk(v)
    ensures AllOk(y[a := v])
  {
    hide ArenaOk;
  }

  lemma HeldOneMore(x: seq<Arena>, y: seq<Arena>, ps: seq<Page>, r: bool, a: nat, i: nat, v: Arena)
    requires Held(x, y, ps, r) && a < |y| == |x| && PageIn(x, Page(a, i)) && !x[a].nonfree[i] && Page(a, i) !in ps
    requires i < |y[a].nonfree| && i < |y[a].reserved| && Ledger(v) == Ledger(y[a]) && v.base == y[a].base && v.kmap == y[a].kmap
    requires v.nonfree == y[a].nonfree[i := true] && v.reserved == (if r then y[a].reserved[i := true] else y[a].reserved)
    ensures Held(x, y[a := v], ps + [Page(a, i)], r)
  {
    hide Ledger;
    var y', qs := y[a := v], ps + [Page(a, i)];
    assert SameArenas(x, y');
    forall b, k | 0 <= b < |x| && 0 <= k < |x[b].nonfree| && k < |x[b].reserved|
      ensures k < |y'[b].nonfree| && k < |y'[b].reserved|
      ensures y'[b].nonfree[k] == (x[b].nonfree[k] || Page(b, k) in qs)
      ensures y'[b].reserved[k] == (x[b].reserved[k] || (r && Page(b, k) in qs))
    {
      assert Page(b, k) in qs <==> Page(b, k) in ps || (b == a && k == i);
      assert SameArena(x[b], y[b]);
    }
  }

  lemma HeldTake(x: seq<Arena>, y: seq<Arena>, ps: seq<Page>, r: bool, a: nat, i: nat)
    requires AllOk(y) && Held(x, y, ps, r) && a < |y| && i < y[a].Pages() && !y[a].nonfree[i] && y[a].Available(r) > 0
    ensures y[a].freeCount > 0 && i < |y[a].reserved|
    ensures AllOk(y[a := y[a].Take(i, r)])
    ensures Held(x, y[a := y[a].Take(i, r)], ps + [Page(a, i)], r)
  {
    TakeOk(y[a], i, r);
    NotHeldYet(x, y, ps, r, a, i);
    TakenFlags(y[a], i, r);
    hide ArenaOk, Held, Arena.Take;
    TakenAllOk(y, a, y[a].Take(i, r));
    HeldOneMore(x, y, ps, r, a, i, y[a].Take(i, r));
  }

  lemma FreedPut(x: seq<Arena>, y: seq<Arena>, ps: seq<Page>, p: Page)
    requires AllOk(y) && Freed(x, y, ps) && PageIn(y, p) && y[p.a].nonfree[p.i]
    ensures AllOk(y[p.a := y[p.a].Put(p.i)])
    ensures Freed(x, y[p.a := y[p.a].Put(p.i)], ps + [p])
  {
    PutOk(y[p.a], p.i);
  }

  // ---------- totals ----------

  function SumReserved(x: seq<Arena>): nat {
    if x == [] then 0 else x[0].reservedCount + SumReserved(x[1..])
  }

  lemma {:induction false} SumUpdate(x: seq<Arena>, a: nat, v: Arena)
    requires a < |x|
    ensures SumReserved(x[a := v]) == SumReserved(x) - x[a].reservedCount + v.reservedCount
  {
    if a > 0 {
      SumUpdate(x[1..], a - 1, v);
      assert x[a := v][1..] == x[1..][a - 1 := v];
    }
  }

  // How many pages a request may take: the reserved ones, or the free ones that
  // are not needed for the reserve.
  ghost function Stock(a: Arena, r: bool): nat {
    if r then a.reservedCount else if a.freeCount >= a.reservedCount then a.freeCount - a.reservedCount else 0
  }

  lemma StockAvailable(a: Arena, r: bool)
    ensures a.Available(r) == Stock(a, r)
  {
  }

  // What the first k arenas can give to a request for count pages: each its
  // stock, but only if it is mapped where mapped pages are asked for, and only if
  // it has a run where one is asked for.
  ghost function SumGive(page: nat, x: seq<Arena>, k: nat, align: nat, count: nat, useRun: bool, kmap: bool, r: bool): nat
    requires k <= |x|
  {
    if k == 0 then 0
    else
      SumGive(page, x, k - 1, align, count, useRun, kmap, r) +
      if (kmap ==> x[k - 1].kmap) && (useRun ==> !NoRun(page, x[k - 1], align, count)) then Stock(x[k - 1], r) else 0
  }

  // The free pages of the first k arenas that are not set aside.
  ghost function SumFree(x: seq<Arena>, k: nat): nat
    requires k <= |x|
  {
    if k == 0 then 0
    else SumFree(x, k - 1) + if x[k - 1].freeCount >= x[k - 1].reservedCount then x[k - 1].freeCount - x[k - 1].reservedCount else 0
  }

  // All reserved pages, or all free ones that are not reserved, can be given to a
  // request that any page will serve.
  lemma {:induction false} GiveAny(page: nat, x: seq<Arena>, k: nat, align: nat, count: nat, r: bool)
    requires k <= |x| && forall a :: 0 <= a < |x| ==> x[a].reservedCount <= x[a].freeCount
    ensures SumGive(page, x, k, align, count, false, false, r) == if r then SumReserved(x[..k]) else SumFree(x, k)
  {
    if k > 0 {
      GiveAny(page, x, k - 1, align, count, r);
      SumSnoc(x[..k - 1], x[k - 1]);
      assert x[..k] == x[..k - 1] + [x[k - 1]];
    }
  }

  // A request gets nothing if no arena that may serve it has anything to give.
  lemma {:induction false} GiveNothing(page: nat, x: seq<Arena>, k: nat, align: nat, count: nat, useRun: bool, kmap: bool, r: bool)
    requires k <= |x|
    requires forall a :: 0 <= a < |x| && (kmap ==> x[a].kmap) ==> if r then x[a].reservedCount == 0 else x[a].freeCount <= x[a].reservedCount
    ensures SumGive(page, x, k, align, count, useRun, kmap, r) == 0
  {
    if k > 0 {
      GiveNothing(page, x, k - 1, align, count, useRun, kmap, r);
    }
  }

  lemma {:induction false} SumSnoc(x: seq<Arena>, v: Arena)
    ensures SumReserved(x + [v]) == SumReserved(x) + v.reservedCount
  {
    if x == [] {
      assert (x + [v])[1..] == [];
    } else {
      SumSnoc(x[1..], v);
      assert (x + [v])[1..] == x[1..] + [v];
    }
  }

  // ---------- pmm_free_locked ----------

  // Whether all the pages came from a reserve, or none of them did.
  ghost predicate AllReserved(x: seq<Arena>, ps: seq<Page>, r: bool) {
    forall k :: 0 <= k < |ps| ==> PageIn(x, ps[k]) && x[ps[k].a].reserved[ps[k].i] == r
  }

  ghost predicate InUse(x: seq<Arena>, ps: seq<Page>) {
    DistinctPages(ps) && forall k :: 0 <= k < |ps| ==> PageIn(x, ps[k]) && x[ps[k].a].nonfree[ps[k].i]
  }

  lemma FreeStep(x: seq<Arena>, y: seq<Arena>, ps: seq<Page>, n: nat)
    requires InUse(x, ps) && n < |ps| && AllOk(y) && Freed(x, y, ps[..n])
    ensures var p := ps[n];
      && PageIn(y, p) && y[p.a].nonfree[p.i]
      && AllOk(y[p.a := y[p.a].Put(p.i)]) && Freed(x, y[p.a := y[p.a].Put(p.i)], ps[..n + 1])
    ensures forall r :: AllReserved(x, ps, r) ==>
      SumReserved(y[ps[n].a := y[ps[n].a].Put(ps[n].i)]) == SumReserved(y) + (if r then 1 else 0)
  {
    var p := ps[n];
    assert p !in ps[..n];
    assert PageIn(x, p) && x[p.a].nonfree[p.i];
    assert y[p.a].nonfree[p.i] && y[p.a].reserved[p.i] == x[p.a].reserved[p.i];
    assert ps[..n + 1] == ps[..n] + [p];
    FreedPut(x, y, ps[..n], p);
    SumUpdate(y, p.a, y[p.a].Put(p.i));
  }

  method FreeLocked(x: seq<Arena>, ps: seq<Page>) returns (y: seq<Arena>, count: nat)
    requires AllOk(x) && InUse(x, ps)
    ensures AllOk(y) && Freed(x, y, ps) && count == |ps|
    ensures forall r :: AllReserved(x, ps, r) ==> SumReserved(y) == SumReserved(x) + (if r then |ps| else 0)
  {
    y, count := x, 0;
    assert ps[..0] == [];
    while count < |ps|
      invariant 0 <= count <= |ps|
      invariant AllOk(y) && Freed(x, y, ps[..count])
      invariant forall r :: AllReserved(x, ps, r) ==> SumReserved(y) == SumReserved(x) + (if r then count else 0)
    {
      var p := ps[count];
      FreeStep(x, y, ps, count);
      hide *;
      y := y[p.a := y[p.a].Put(p.i)];
      count := count + 1;
    }
    assert ps[..|ps|] == ps;
  }

  // ---------- pmm_alloc_pages_locked ----------

  ghost predicate InArena(ps: seq<Page>, from: nat, a: nat) {
    forall k :: from <= k < |ps| ==> ps[k].a == a
  }

  lemma TakeStep(x: seq<Arena>, y: seq<Arena>, ps: seq<Page>, r: bool, a: nat, i: nat)
    requires AllOk(y) && Held(x, y, ps, r) && a < |y| && i < y[a].Pages() && !y[a].nonfree[i] && y[a].Available(r) > 0
    ensures y[a].freeCount > 0 && i < |y[a].nonfree| && i < |y[a].reserved| && (r ==> y[a].reservedCount > 0)
    ensures AllOk(y[a := y[a].Take(i, r)])
    ensures Held(x, y[a := y[a].Take(i, r)], ps + [Page(a, i)], r)
    ensures SumReserved(y[a := y[a].Take(i, r)]) == SumReserved(y) - (if r then 1 else 0)
    ensures y[a].Take(i, r).Available(r) == y[a].Available(r) - 1
  {
    HeldTake(x, y, ps, r, a, i);
    SumUpdate(y, a, y[a].Take(i, r));
    TakeOk(y[a], i, r);
  }

  lemma RunLeft(y: seq<Arena>, a: nat, s: nat, r: bool, n: nat)
    requires a < |y| && s < |y[a].nonfree| && s < |y[a].reserved| && y[a].freeCount > 0 && (r ==> y[a].reservedCount > 0)
    ensures FreeFrom(y[a], s, n) && 0 < n ==> FreeFrom(y[a].Take(s, r), s + 1, n - 1)
  {
  }

  lemma NextFree(y: seq<Arena>, a: nat, r: bool, start: Option<nat>, n: nat, want: nat)
    requires AllOk(y) && a < |y| && y[a].Available(r) > 0 && n < want
    requires start.Some? ==> FreeFrom(y[a], start.value + n, want - n)
    ensures start == None ==> |y[a].free| > 0
    ensures var i := if start.Some? then start.value + n else y[a].free[0];
      i < y[a].Pages() && !y[a].nonfree[i]
    ensures start == None && y[a].freeCount > 0 ==> Without(y[a].free, y[a].free[0]) == y[a].free[1..]
  {
    HeadFree(y[a]);
  }

  lemma TakenFree(y: Arena, i: nat, r: bool)
    requires i < |y.nonfree| && i < |y.reserved| && y.freeCount > 0 && (r ==> y.reservedCount > 0)
    ensures y.Take(i, r).free == Without(y.free, i)
  {
  }

  lemma InArenaNone(ps: seq<Page>, a: nat)
    ensures InArena(ps, |ps|, a)
  {
  }

  lemma AddPage(ps0: seq<Page>, ps: seq<Page>, a: nat, i: nat)
    requires ps0 <= ps && InArena(ps, |ps0|, a)
    ensures ps0 <= ps + [Page(a, i)] && InArena(ps + [Page(a, i)], |ps0|, a)
  {
  }

  // Takes pages of arena a until want of them are there or it can give no more:
  // those from start on, or the head of the free list.
  method TakeFrom(ghost x: seq<Arena>, y0: seq<Arena>, ps0: seq<Page>, r: bool, a: nat, want: nat, start: Option<nat>)
    returns (y: seq<Arena>, ps: seq<Page>)
    requires AllOk(y0) && Held(x, y0, ps0, r) && a < |y0|
    requires start.Some? ==> FreeFrom(y0[a], start.value, want)
    ensures AllOk(y) && Held(x, y, ps, r) && ps0 <= ps && InArena(ps, |ps0|, a)
    ensures |ps| - |ps0| == if want <= y0[a].Available(r) then want else y0[a].Available(r)
    ensures |y| == |y0| && forall b :: 0 <= b < |y| && b != a ==> y[b] == y0[b]
    ensures SumReserved(y) == SumReserved(y0) - (if r then |ps| - |ps0| else 0)
    ensures start.Some? ==> forall k :: |ps0| <= k < |ps| ==> ps[k].i == start.value + k - |ps0|
    ensures start == None ==> |ps| - |ps0| <= |y0[a].free| && forall k :: |ps0| <= k < |ps| ==> ps[k].i == y0[a].free[k - |ps0|]
  {
    y, ps := y0, ps0;
    var n := 0;
    hide *;
    InArenaNone(ps0, a);
    while n < want
      invariant 0 <= n <= want && |ps| == |ps0| + n && ps0 <= ps && InArena(ps, |ps0|, a)
      invariant AllOk(y) && Held(x, y, ps, r) && |y| == |y0|
      invariant y[a].Available(r) == y0[a].Available(r) - n
      invariant forall b :: 0 <= b < |y| && b != a ==> y[b] == y0[b]
      invariant SumReserved(y) == SumReserved(y0) - (if r then n else 0)
      invariant start.Some? ==> FreeFrom(y[a], start.value + n, want - n)
      invariant start.Some? ==> forall k :: |ps0| <= k < |ps| ==> ps[k].i == start.value + k - |ps0|
      invariant start == None ==> n <= |y0[a].free| && y[a].free == y0[a].free[n..]
      invariant start == None ==> forall k :: |ps0| <= k < |ps| ==> ps[k].i == y0[a].free[k - |ps0|]
    {
      if y[a].Available(r) == 0 {
        break;
      }
      NextFree(y, a, r, start, n, want);
      var i := if start.Some? then start.value + n else y[a].free[0];
      TakeStep(x, y, ps, r, a, i);
      RunLeft(y, a, i, r, want - n);
      TakenFree(y[a], i, r);
      AddPage(ps0, ps, a, i);
      y := y[a := y[a].Take(i, r)];
      ps := ps + [Page(a, i)];
      n := n + 1;
    }
  }

  // Arena a can serve at least one page of the run asked for.
  ghost predicate Server(page: nat, x: seq<Arena>, align: nat, count: nat, kmap: bool, r: bool, a: nat)
    requires a < |x|
  {
    (kmap ==> x[a].kmap) && Stock(x[a], r) > 0 && !NoRun(page, x[a], align, count)
  }

  ghost predicate FirstServer(page: nat, x: seq<Arena>, align: nat, count: nat, kmap: bool, r: bool, a: nat)
    requires a < |x|
  {
    Server(page, x, align, count, kmap, r, a) && forall b :: 0 <= b < a ==> !Server(page, x, align, count, kmap, r, b)
  }

  // The first arena that can serve any of the request can serve all of it.
  ghost predicate ServesAll(page: nat, x: seq<Arena>, align: nat, count: nat, kmap: bool, r: bool, a: nat)
    requires a < |x|
  {
    FirstServer(page, x, align, count, kmap, r, a) && Stock(x[a], r) >= count
  }

  // The pages are the lowest run of arena a, in order.
  ghost predicate RunPages(page: nat, x: seq<Arena>, align: nat, count: nat, ps: seq<Page>, a: nat)
    requires a < |x|
  {
    exists s: nat :: LowestRun(page, x[a], align, count, s) && forall k: nat :: k < |ps| ==> ps[k] == Page(a, s + k)
  }

  // How far a request for a run has got after the first a arenas. It is served
  // by the first arena that can give any of it. Should that arena run short,
  // the rest comes from others, so that the pages are not a run.
  ghost predicate Progress(page: nat, x: seq<Arena>, align: nat, count: nat, kmap: bool, r: bool, ps: seq<Page>, a: nat)
    requires a <= |x|
  {
    if |ps| == 0 then forall b :: 0 <= b < a ==> !Server(page, x, align, count, kmap, r, b)
    else
      && ps[0].a < a && FirstServer(page, x, align, count, kmap, r, ps[0].a)
      && (if Stock(x[ps[0].a], r) >= count then |ps| == count && RunPages(page, x, align, count, ps, ps[0].a)
          else |ps| >= Stock(x[ps[0].a], r) && forall k :: Stock(x[ps[0].a], r) <= k < |ps| ==> ps[k].a > ps[0].a)
  }

  lemma ProgressSkip(page: nat, x: seq<Arena>, align: nat, count: nat, kmap: bool, r: bool, ps: seq<Page>, a: nat)
    requires a < |x| && Progress(page, x, align, count, kmap, r, ps, a)
    requires |ps| == 0 ==> !Server(page, x, align, count, kmap, r, a)
    ensures Progress(page, x, align, count, kmap, r, ps, a + 1)
  {
  }

  lemma ProgressTake(page: nat, x: seq<Arena>, align: nat, count: nat, kmap: bool, r: bool, ps: seq<Page>, a: nat, ps': seq<Page>, s: nat)
    requires a < |x| && Progress(page, x, align, count, kmap, r, ps, a) && |ps| <= count && 0 < count
    requires (kmap ==> x[a].kmap) && LowestRun(page, x[a], align, count, s)
    requires ps <= ps' && InArena(ps', |ps|, a)
    requires |ps'| - |ps| == if count - |ps| <= Stock(x[a], r) then count - |ps| else Stock(x[a], r)
    requires forall k :: |ps| <= k < |ps'| ==> ps'[k].i == s + k - |ps|
    ensures Progress(page, x, align, count, kmap, r, ps', a + 1)
  {
    assert IsRun(page, x[a], align, count, s);
    if |ps| == 0 && |ps'| > 0 {
      assert FirstServer(page, x, align, count, kmap, r, a);
      forall k: nat | k < |ps'|
        ensures ps'[k] == Page(a, s + k)
      {
      }
    }
  }

  // Pages for a request that asks for mapped ones.
  ghost predicate MappedFor(x: seq<Arena>, ps: seq<Page>, kmap: bool) {
    kmap ==> forall k :: 0 <= k < |ps| ==> ps[k].a < |x| && x[ps[k].a].kmap
  }

  lemma MappedMore(x: seq<Arena>, ps: seq<Page>, ps': seq<Page>, a: nat, kmap: bool)
    requires MappedFor(x, ps, kmap) && ps <= ps' && InArena(ps', |ps|, a) && a < |x| && (kmap ==> x[a].kmap)
    ensures MappedFor(x, ps', kmap)
  {
    forall k | kmap && 0 <= k < |ps'|
      ensures ps'[k].a < |x| && x[ps'[k].a].kmap
    {
      assert k < |ps| ==> ps'[k] == ps[k];
    }
  }

  // What has been allocated after the first a arenas.
  ghost predicate SoFar(x: seq<Arena>, y: seq<Arena>, ps: seq<Page>, r: bool, a: nat) {
    && AllOk(y) && Held(x, y, ps, r) && |x| == |y|
    && SumReserved(y) == SumReserved(x) - (if r then |ps| else 0)
    && forall b :: a <= b < |x| ==> y[b] == x[b]
  }

  lemma GiveStep(page: nat, x: seq<Arena>, a: nat, align: nat, count: nat, useRun: bool, kmap: bool, r: bool)
    requires a < |x|
    ensures SumGive(page, x, a + 1, align, count, useRun, kmap, r) - SumGive(page, x, a, align, count, useRun, kmap, r) ==
      if (kmap ==> x[a].kmap) && (useRun ==> !NoRun(page, x[a], align, count)) then Stock(x[a], r) else 0
  {
  }

  lemma RunStart(page: nat, a: Arena, align: nat, count: nat, s: nat)
    requires LowestRun(page, a, align, count, s)
    ensures IsRun(page, a, align, count, s) && FreeFrom(a, s, count) && !NoRun(page, a, align, count)
  {
    assert IsRun(page, a, align, count, s);
  }

  // One arena's part in an allocation.
  method TryArena(page: nat, ghost x: seq<Arena>, y0: seq<Arena>, ps0: seq<Page>, a: nat,
                  count: nat, useRun: bool, kmap: bool, r: bool, alignment: nat)
    returns (y: seq<Arena>, ps: seq<Page>)
    requires SoFar(x, y0, ps0, r, a) && a < |x| && |ps0| <= count && Placed(page, x[a], alignment) && MappedFor(x, ps0, kmap)
    requires useRun && 0 < count ==> Progress(page, x, alignment, count, kmap, r, ps0, a)
    ensures SoFar(x, y, ps, r, a + 1) && |ps0| <= |ps| <= count && MappedFor(x, ps, kmap)
    ensures var n := SumGive(page, x, a + 1, alignment, count, useRun, kmap, r) -
                     SumGive(page, x, a, alignment, count, useRun, kmap, r);
      |ps| == if count <= |ps0| + n then count else |ps0| + n
    ensures useRun && 0 < count ==> Progress(page, x, alignment, count, kmap, r, ps, a + 1)
  {
    hide Held, AllOk, Progress, NoRun, IsRun, Placed, Stock, MappedFor, InArena;
    StockAvailable(x[a], r);
    GiveStep(page, x, a, alignment, count, useRun, kmap, r);
    hide SumGive;
    y, ps := y0, ps0;
    var start := None;
    if kmap && !y[a].kmap {
      if useRun && 0 < count {
        ProgressSkip(page, x, alignment, count, kmap, r, ps, a);
      }
      return;
    }
    if useRun {
      start := FindFreeRun(page, y[a], count, alignment);
      if start.Some? {
        RunStart(page, x[a], alignment, count, start.value);
      } else {
        if 0 < count {
          ProgressSkip(page, x, alignment, count, kmap, r, ps, a);
        }
        return;
      }
    }
    y, ps := TakeFrom(x, y0, ps0, r, a, count - |ps0|, start);
    MappedMore(x, ps0, ps, a, kmap);
    if useRun && 0 < count {
      ProgressTake(page, x, alignment, count, kmap, r, ps0, a, ps, start.value);
    }
  }

  // pmm_alloc_pages_locked: allocates count pages, or changes nothing but the
  // order of free lists.
  method AllocLocked(page: nat, x: seq<Arena>, count: nat, contiguous: bool, kmap: bool, r: bool, alignment: nat)
    returns (ok: bool, y: seq<Arena>, ps: seq<Page>)
    requires AllOk(x) && (alignment > 1 ==> contiguous)
    requires forall a :: 0 <= a < |x| ==> Placed(page, x[a], alignment)
    ensures AllOk(y)
    ensures ok ==> Held(x, y, ps, r) && |ps| == count && SumReserved(y) == SumReserved(x) - (if r then count else 0)
    ensures ok && kmap ==> forall k :: 0 <= k < |ps| ==> ps[k].a < |x| && x[ps[k].a].kmap
    ensures !ok ==> Restored(x, y)
    ensures (forall a :: 0 <= a < |x| && (kmap ==> x[a].kmap) ==> if r then x[a].reservedCount == 0 else x[a].freeCount <= x[a].reservedCount) ==>
      (ok <==> count == 0)
    ensures !kmap && !(contiguous && (count != 1 || alignment > page)) ==>
      (ok <==> count <= if r then SumReserved(x) else SumFree(x, |x|))
    ensures ok <==> count <= SumGive(page, x, |x|, alignment, count, AsRun(page, count, contiguous, alignment), kmap, r)
    ensures AsRun(page, count, contiguous, alignment) && 0 < count ==>
      ((exists a :: 0 <= a < |x| && ServesAll(page, x, alignment, count, kmap, r, a)) <==>
       ok && exists a :: 0 <= a < |x| && RunPages(page, x, alignment, count, ps, a))
  {
    var useRun := contiguous && !(count == 1 && alignment <= page);
    ghost var align := alignment;
    y, ps := Gather(page, x, count, useRun, kmap, r, alignment);
    ok := |ps| == count;
    hide *;
    GiveMeaning(page, x, align, count, useRun, kmap, r);
    MappedPages(x, ps, kmap);
    if useRun && 0 < count {
      RunIffOneArena(page, x, align, count, kmap, r, ps);
    }
    if !ok {
      y := GiveBack(x, y, ps, r);
    }
  }

  function Capped(count: nat, n: nat): nat {
    if count <= n then count else n
  }

  lemma CappedNext(count: nat, g: nat, g': nat, n: nat, n': nat)
    requires n == Capped(count, g) && n <= n' <= count && n' == if count <= n + (g' - g) then count else n + (g' - g)
    ensures n' == Capped(count, g')
  {
  }

  // The arenas before a have been tried.
  ghost predicate Gathered(page: nat, x: seq<Arena>, y: seq<Arena>, ps: seq<Page>, a: nat, count: nat, useRun: bool, kmap: bool, r: bool, align: nat) {
    && a <= |x| && SoFar(x, y, ps, r, a) && MappedFor(x, ps, kmap)
    && |ps| == Capped(count, SumGive(page, x, a, align, count, useRun, kmap, r))
    && (useRun && 0 < count ==> Progress(page, x, align, count, kmap, r, ps, a))
  }

  lemma GatherStart(page: nat, x: seq<Arena>, align: nat, count: nat, useRun: bool, kmap: bool, r: bool)
    requires AllOk(x)
    ensures Gathered(page, x, x, [], 0, count, useRun, kmap, r, align)
  {
    HeldNone(x, r);
  }

  lemma GatherEnd(page: nat, x: seq<Arena>, y: seq<Arena>, ps: seq<Page>, count: nat, useRun: bool, kmap: bool, r: bool, align: nat)
    requires Gathered(page, x, y, ps, |x|, count, useRun, kmap, r, align)
    ensures AllOk(y) && Held(x, y, ps, r) && MappedFor(x, ps, kmap)
    ensures SumReserved(y) == SumReserved(x) - (if r then |ps| else 0)
    ensures |ps| == Capped(count, SumGive(page, x, |x|, align, count, useRun, kmap, r))
    ensures useRun && 0 < count ==> Progress(page, x, align, count, kmap, r, ps, |x|)
  {
    hide AllOk, Held, SumReserved, SumGive, Progress, MappedFor;
  }

  method NextArena(page: nat, ghost x: seq<Arena>, y0: seq<Arena>, ps0: seq<Page>, a: nat,
                   count: nat, useRun: bool, kmap: bool, r: bool, alignment: nat)
    returns (y: seq<Arena>, ps: seq<Page>)
    requires a < |x| && Placed(page, x[a], alignment)
    requires |ps0| <= count && Gathered(page, x, y0, ps0, a, count, useRun, kmap, r, alignment)
    ensures |ps| <= count && Gathered(page, x, y, ps, a + 1, count, useRun, kmap, r, alignment)
  {
    hide SoFar, SumGive, Progress, Placed, MappedFor;
    ghost var align := alignment;
    y, ps := TryArena(page, x, y0, ps0, a, count, useRun, kmap, r, alignment);
    CappedNext(count, SumGive(page, x, a, align, count, useRun, kmap, r), SumGive(page, x, a + 1, align, count, useRun, kmap, r), |ps0|, |ps|);
  }

  method Gather(page: nat, x: seq<Arena>, count: nat, useRun: bool, kmap: bool, r: bool, alignment: nat)
    returns (y: seq<Arena>, ps: seq<Page>)
    requires AllOk(x) && forall a :: 0 <= a < |x| ==> Placed(page, x[a], alignment)
    ensures AllOk(y) && Held(x, y, ps, r) && MappedFor(x, ps, kmap)
    ensures SumReserved(y) == SumReserved(x) - (if r then |ps| else 0)
    ensures |ps| == Capped(count, SumGive(page, x, |x|, alignment, count, useRun, kmap, r))
    ensures useRun && 0 < count ==> Progress(page, x, alignment, count, kmap, r, ps, |x|)
  {
    y, ps := x, [];
    ghost var align := alignment;
    GatherStart(page, x, align, count, useRun, kmap, r);
    hide Gathered, AllOk, Held, SumReserved, SumGive, Progress, Placed;
    var a := 0;
    while a < |x|
      invariant 0 <= a <= |x| && |ps| <= count
      invariant Gathered(page, x, y, ps, a, count, useRun, kmap, r, align)
    {
      y, ps := NextArena(page, x, y, ps, a, count, useRun, kmap, r, alignment);
      a := a + 1;
    }
    GatherEnd(page, x, y, ps, count, useRun, kmap, r, align);
  }

  lemma MappedPages(x: seq<Arena>, ps: seq<Page>, kmap: bool)
    requires MappedFor(x, ps, kmap)
    ensures kmap ==> forall k :: 0 <= k < |ps| ==> ps[k].a < |x| && x[ps[k].a].kmap
  {
  }

  lemma GiveMeaning(page: nat, x: seq<Arena>, align: nat, count: nat, useRun: bool, kmap: bool, r: bool)
    requires AllOk(x)
    ensures (forall a :: 0 <= a < |x| && (kmap ==> x[a].kmap) ==> if r then x[a].reservedCount == 0 else x[a].freeCount <= x[a].reservedCount) ==>
      SumGive(page, x, |x|, align, count, useRun, kmap, r) == 0
    ensures SumGive(page, x, |x|, align, count, false, false, r) == if r then SumReserved(x) else SumFree(x, |x|)
  {
    hide SumGive, SumReserved, SumFree, NoRun, Stock;
    forall a | 0 <= a < |x|
      ensures x[a].reservedCount <= x[a].freeCount
    {
      assert ArenaOk(x[a]);
    }
    if forall a :: 0 <= a < |x| && (kmap ==> x[a].kmap) ==> if r then x[a].reservedCount == 0 else x[a].freeCount <= x[a].reservedCount {
      GiveNothing(page, x, |x|, align, count, useRun, kmap, r);
    }
    GiveAny(page, x, |x|, align, count, r);
    assert x[..|x|] == x;
  }

  method GiveBack(ghost x: seq<Arena>, y: seq<Arena>, ps: seq<Page>, r: bool) returns (z: seq<Arena>)
    requires AllOk(x) && AllOk(y) && Held(x, y, ps, r)
    ensures AllOk(z) && Restored(x, z)
  {
    HeldInUse(x, y, ps, r);
    var freed;
    z, freed := FreeLocked(y, ps);
    HeldFreed(x, y, z, ps, r);
  }

  // A single page on page alignment is taken from the head of a free list.
  predicate AsRun(page: nat, count: nat, contiguous: bool, alignment: nat) {
    contiguous && !(count == 1 && alignment <= page)
  }

  // A request for a run succeeds with a run if and only if the first arena that
  // can serve any of it can serve all of it.
  lemma RunIffOneArena(page: nat, x: seq<Arena>, align: nat, count: nat, kmap: bool, r: bool, ps: seq<Page>)
    requires 0 < count && Progress(page, x, align, count, kmap, r, ps, |x|)
    ensures (exists a :: 0 <= a < |x| && ServesAll(page, x, align, count, kmap, r, a)) <==>
            |ps| == count && exists a :: 0 <= a < |x| && RunPages(page, x, align, count, ps, a)
  {
    if a :| 0 <= a < |x| && ServesAll(page, x, align, count, kmap, r, a) {
      ServerUnique(page, x, align, count, kmap, r, ps, a);
    }
    if |ps| == count {
      var f := ps[0].a;
      if Stock(x[f], r) >= count {
        assert ServesAll(page, x, align, count, kmap, r, f);
      }
      if a :| 0 <= a < |x| && RunPages(page, x, align, count, ps, a) {
        assert ps[0].a == a && ps[count - 1].a == a;
      }
    }
  }

  lemma OneFirst(page: nat, x: seq<Arena>, align: nat, count: nat, kmap: bool, r: bool, a: nat, b: nat)
    requires a < |x| && FirstServer(page, x, align, count, kmap, r, a)
    requires b < |x| && FirstServer(page, x, align, count, kmap, r, b)
    ensures a == b
  {
  }

  lemma ServerUnique(page: nat, x: seq<Arena>, align: nat, count: nat, kmap: bool, r: bool, ps: seq<Page>, a: nat)
    requires 0 < count && Progress(page, x, align, count, kmap, r, ps, |x|)
    requires a < |x| && FirstServer(page, x, align, count, kmap, r, a)
    ensures |ps| > 0 && ps[0].a == a
  {
    assert Server(page, x, align, count, kmap, r, a);
    if |ps| > 0 {
      OneFirst(page, x, align, count, kmap, r, ps[0].a, a);
    }
  }

  lemma HeldInUse(x: seq<Arena>, y: seq<Arena>, ps: seq<Page>, r: bool)
    requires AllOk(y) && Held(x, y, ps, r)
    ensures InUse(y, ps) && (r ==> AllReserved(y, ps, true))
  {
    forall k | 0 <= k < |ps|
      ensures PageIn(y, ps[k]) && y[ps[k].a].nonfree[ps[k].i] && (r ==> y[ps[k].a].reserved[ps[k].i])
    {
      assert Page(ps[k].a, ps[k].i) in ps;
    }
  }

  function TwoPages(base: nat, reservedCount: nat): Arena {
    Arena(base, false, [false, false], [false, false], [0, 1], 2, reservedCount)
  }

  lemma TwoPagesOk(base: nat, reservedCount: nat)
    requires base == 4096 || base == 40960
    requires reservedCount <= 2
    ensures ArenaOk(TwoPages(base, reservedCount)) && Placed(4096, TwoPages(base, reservedCount), 4096)
    ensures !NoRun(4096, TwoPages(base, reservedCount), 4096, 2)
    ensures Stock(TwoPages(base, reservedCount), false) == 2 - reservedCount
  {
    var f := [false, false];
    CountNone(f);
    assert IsRun(4096, TwoPages(base, reservedCount), 4096, 2, 0);
  }

  const SHORT: seq<Arena> := [TwoPages(4096, 1), TwoPages(40960, 0)]

  // Two arenas of two free pages each; one page of the first is reserved.
  lemma ShortOk()
    ensures |SHORT| == 2 && ArenaOk(SHORT[0]) && ArenaOk(SHORT[1])
    ensures Placed(4096, SHORT[0], 4096) && Placed(4096, SHORT[1], 4096)
    ensures !NoRun(4096, SHORT[0], 4096, 2) && !NoRun(4096, SHORT[1], 4096, 2)
    ensures Stock(SHORT[0], false) == 1 && Stock(SHORT[1], false) == 2
  {
    hide ArenaOk, Placed, NoRun;
    TwoPagesOk(4096, 1);
    TwoPagesOk(40960, 0);
  }

  // There, a request for two pages in a row succeeds with pages of both.
  lemma RunAcrossArenas()
    ensures 2 <= SumGive(4096, SHORT, |SHORT|, 4096, 2, true, false, false)
    ensures !exists a :: 0 <= a < |SHORT| && ServesAll(4096, SHORT, 4096, 2, false, false, a)
  {
    hide *;
    ShortOk();
    ShortServer(4096, SHORT, 4096, 2);
  }

  lemma ShortServer(page: nat, x: seq<Arena>, align: nat, count: nat)
    requires |x| == 2 && !NoRun(page, x[0], align, count) && !NoRun(page, x[1], align, count)
    requires 0 < Stock(x[0], false) < count <= Stock(x[0], false) + Stock(x[1], false)
    ensures count <= SumGive(page, x, 2, align, count, true, false, false)
    ensures !exists a :: 0 <= a < |x| && ServesAll(page, x, align, count, false, false, a)
  {
    assert SumGive(page, x, 1, align, count, true, false, false) == Stock(x[0], false);
    assert Server(page, x, align, count, false, false, 0);
  }
}
