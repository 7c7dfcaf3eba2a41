// Arenas of physical pages: flags, free list and counters.
module Arenas {
  import opened Lists

  function CountTrue(s: seq<bool>): nat {
    if s == [] then 0 else (if s[0] then 1 else 0) + CountTrue(s[1..])
  }

  lemma {:induction false} CountUpdate(s: seq<bool>, i: nat, b: bool)
    requires i < |s|
    ensures CountTrue(s[i := b]) == CountTrue(s) - (if s[i] then 1 else 0) + (if b then 1 else 0)
  {
    if i > 0 {
      CountUpdate(s[1..], i - 1, b);
      assert s[i := b][1..] == s[1..][i - 1 := b];
    }
  }

  lemma {:induction false} CountNone(s: seq<bool>)
    requires forall i :: 0 <= i < |s| ==> !s[i]
    ensures CountTrue(s) == 0
  {
    if s != [] {
      CountNone(s[1..]);
    }
  }

  datatype Arena = Arena(base: nat, kmap: bool, nonfree: seq<bool>, reserved: seq<bool>,
                         free: seq<nat>, freeCount: nat, reservedCount: nat) {

    function Pages(): nat {
      |nonfree|
    }

    // Takes page i off the free list.
    function Take(i: nat, fromReserved: bool): Arena
      requires i < |nonfree| && i < |reserved| && freeCount > 0 && (fromReserved ==> reservedCount > 0)
    {
      this.(nonfree := nonfree[i := true],
            reserved := if fromReserved then reserved[i := true] else reserved,
            free := Without(free, i),
            freeCount := freeCount - 1,
            reservedCount := if fromReserved then reservedCount - 1 else reservedCount)
    }

    // Puts page i back at the head of the free list, into the reserve that it
    // came from.
    function Put(i: nat): Arena
      requires i < |nonfree| && i < |reserved|
    {
      this.(nonfree := nonfree[i := false],
            reserved := reserved[i := false],
            free := [i] + free,
            freeCount := freeCount + 1,
            reservedCount := if reserved[i] then reservedCount + 1 else reservedCount)
    }

    // What is left for a request.
    function Available(fromReserved: bool): nat {
      if fromReserved then reservedCount else if freeCount >= reservedCount then freeCount - reservedCount else 0
    }
  }

  ghost predicate FreeListOk(a: Arena) {
    && Distinct(a.free)
    && (forall i :: i in a.free ==> i < |a.nonfree|)
    && (forall i :: 0 <= i < |a.nonfree| ==> (i in a.free <==> !a.nonfree[i]))
  }

  // The free count is the length of the free list and the number of pages that
  // are not in use, and covers what is reserved.
  ghost predicate ArenaOk(a: Arena) {
    && |a.nonfree| == |a.reserved|
    && FreeListOk(a)
    && a.freeCount == |a.free|
    && a.freeCount + CountTrue(a.nonfree) == |a.nonfree|
    && (forall i :: 0 <= i < |a.nonfree| && a.reserved[i] ==> a.nonfree[i])
    && a.reservedCount <= a.freeCount
  }

  // Pages set aside for groups, whether free or in use.
  function Ledger(a: Arena): nat {
    a.reservedCount + CountTrue(a.reserved)
  }

  // From a to b page i has been taken.
  ghost predicate TakenPage(a: Arena, b: Arena, i: nat, fromReserved: bool)
    requires i < |a.nonfree| == |a.reserved|
  {
    && b.base == a.base && b.kmap == a.kmap && b.nonfree == a.nonfree[i := true] && TakenOut(a.free, b.free, i)
    && b.reserved == (if fromReserved then a.reserved[i := true] else a.reserved)
    && b.freeCount == a.freeCount - 1 && b.reservedCount == a.reservedCount - (if fromReserved then 1 else 0)
  }

  lemma TakeCells(a: Arena, i: nat, fromReserved: bool)
    requires ArenaOk(a) && i < a.Pages() && !a.nonfree[i] && a.Available(fromReserved) > 0
    ensures a.freeCount > 0 && TakenPage(a, a.Take(i, fromReserved), i, fromReserved)
  {
    WithoutSplits(a.free, i);
    hide TakenOut;
  }

  lemma TakeKeeps(a: Arena, i: nat, fromReserved: bool)
    requires ArenaOk(a) && i < a.Pages() && !a.nonfree[i] && a.Available(fromReserved) > 0
    ensures a.freeCount > 0 && ArenaOk(a.Take(i, fromReserved)) && Ledger(a.Take(i, fromReserved)) == Ledger(a)
    ensures a.Take(i, fromReserved).Available(fromReserved) == a.Available(fromReserved) - 1
  {
    WithoutMeaning(a.free, i);
    CountUpdate(a.nonfree, i, true);
    CountUpdate(a.reserved, i, true);
  }

  lemma TakeOk(a: Arena, i: nat, fromReserved: bool)
    requires ArenaOk(a) && i < a.Pages() && !a.nonfree[i] && a.Available(fromReserved) > 0
    ensures a.freeCount > 0 && ArenaOk(a.Take(i, fromReserved)) && Ledger(a.Take(i, fromReserved)) == Ledger(a)
    ensures a.Take(i, fromReserved).Available(fromReserved) == a.Available(fromReserved) - 1
    ensures TakenPage(a, a.Take(i, fromReserved), i, fromReserved)
  {
    hide TakenPage, FreeListOk, Ledger;
    TakeCells(a, i, fromReserved);
    TakeKeeps(a, i, fromReserved);
  }

  lemma PutOk(a: Arena, i: nat)
    requires ArenaOk(a) && i < a.Pages() && a.nonfree[i]
    ensures ArenaOk(a.Put(i)) && Ledger(a.Put(i)) == Ledger(a)
    ensures var b := a.Put(i);
      && b.base == a.base && b.kmap == a.kmap && b.nonfree == a.nonfree[i := false] && b.reserved == a.reserved[i := false]
      && b.free == [i] + a.free && b.freeCount == a.freeCount + 1
      && b.reservedCount == a.reservedCount + (if a.reserved[i] then 1 else 0)
  {
    CountUpdate(a.nonfree, i, false);
    CountUpdate(a.reserved, i, false);
  }

  lemma HeadFree(a: Arena)
    requires ArenaOk(a) && a.freeCount > 0
    ensures a.free[0] < a.Pages() && !a.nonfree[a.free[0]] && Without(a.free, a.free[0]) == a.free[1..]
  {
    assert a.free[0] in a.free;
  }

  // init_page_array: the pages between the two reserved stretches are free.
  method InitPageArray(base: nat, kmap: bool, pageCount: nat, atStart: nat, atEnd: nat) returns (a: Arena)
    requires atStart < pageCount && atEnd <= pageCount
    ensures ArenaOk(a) && a.base == base && a.kmap == kmap && a.Pages() == pageCount && a.reservedCount == 0
    ensures forall i :: 0 <= i < pageCount ==> !a.reserved[i] && (a.nonfree[i] <==> i < atStart || i >= pageCount - atEnd)
    ensures forall j, k :: 0 <= j < k < |a.free| ==> a.free[j] < a.free[k]
  {
    var nonfree := seq(pageCount, _ => false);
    var free: seq<nat>, count: nat := [], 0;
    var i: nat := 0;
    CountNone(nonfree);
    while i < pageCount
      invariant 0 <= i <= pageCount && |nonfree| == pageCount && count == |free|
      invariant forall j :: 0 <= j < pageCount ==> (nonfree[j] <==> j < i && (j < atStart || j >= pageCount - atEnd))
      invariant forall j :: j in free <==> j < i && !(j < atStart || j >= pageCount - atEnd)
      invariant forall j, k :: 0 <= j < k < |free| ==> free[j] < free[k]
      invariant count + CountTrue(nonfree) == i
    {
      if i < atStart || i >= pageCount - atEnd {
        CountUpdate(nonfree, i, true);
        nonfree := nonfree[i := true];
      } else {
        forall k | 0 <= k < |free|
          ensures free[k] < i
        {
          assert free[k] in free;
        }
        free := free + [i];
        count := count + 1;
      }
      i := i + 1;
    }
    a := Arena(base, kmap, nonfree, seq(pageCount, _ => false), free, count, 0);
  }
}
