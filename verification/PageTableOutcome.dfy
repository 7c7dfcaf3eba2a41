// When a mapping succeeds, in terms of translations, tables and free pages.
module PageTableOutcome {
  import opened Common
  import opened Align
  import opened PageFlags
  import opened PageTables
  import opened PageTableSteps
  import opened PageTableLean
  import opened PageTableRoom
  import opened PageTableMap
  import opened PageTableMapper

  // ---------- what stands in the way ----------

  // Some chunk that a descriptor of its level can map has a table instead.
  ghost predicate Barred(g: Granule, m: Mem, t: Option<nat>, l: nat, v: nat, pa: nat, k: nat)
    requires g.Ok()
    decreases l, 1, k
  {
    k > 0 &&
    (var c := ChunkOf(g, l, v, k);
     || BarredEntry(g, m, EntryIn(m, t, Index(g, l, v)), l, Off(g, l, v), pa, c)
     || Barred(g, m, t, l, v + c, pa + c, k - c))
  }

  ghost predicate BarredEntry(g: Granule, m: Mem, e: Pte, l: nat, rem: nat, pa: nat, k: nat)
    requires g.Ok()
    decreases l, 0
  {
    l > 0 && e.desc == TABLE && (ByBlock(g, l, rem, pa, k) || Barred(g, m, Some(e.addr), l - 1, rem, pa, k))
  }

  // Some of k bytes from rem on of an entry are translated.
  ghost predicate Used(g: Granule, m: Mem, e: Pte, l: nat, rem: nat, k: nat) {
    g.Ok() && exists u: nat :: rem <= u < rem + k && WalkEntry(g, m, e, l, u).Some?
  }

  lemma OccupiedChunk(g: Granule, m: Mem, a: nat, l: nat, v: nat, k: nat)
    requires g.Ok() && a in m.tables && 0 < k
    ensures var c := ChunkOf(g, l, v, k);
      Occupied(g, m, a, l, v, k) <==>
        Used(g, m, EntryIn(m, Some(a), Index(g, l, v)), l, Off(g, l, v), c) || Occupied(g, m, a, l, v + c, k - c)
  {
    var c, i, r := ChunkOf(g, l, v, k), Index(g, l, v), Off(g, l, v);
    var e := EntryIn(m, Some(a), i);
    Split(g, l, v);
    NextIndex(g, l, v, k);
    forall u: nat | v <= u < v + c
      ensures Walk(g, m, a, l, u) == WalkEntry(g, m, e, l, r + (u - v))
    {
      WalkIn(g, m, a, l, i, u);
    }
    if u: nat :| r <= u < r + c && WalkEntry(g, m, e, l, u).Some? {
      assert Walk(g, m, a, l, v + (u - r)).Some?;
    }
    if u: nat :| v <= u < v + k && Walk(g, m, a, l, u).Some? {
      assert u < v + c ==> WalkEntry(g, m, e, l, r + (u - v)).Some?;
    }
  }

  lemma WalkIn(g: Granule, m: Mem, a: nat, l: nat, i: nat, u: nat)
    requires g.Ok() && a in m.tables && Start(g, l, i) <= u < Start(g, l, i) + Block(g, l)
    ensures Walk(g, m, a, l, u) == WalkEntry(g, m, EntryIn(m, Some(a), i), l, u - Start(g, l, i))
  {
    SplitUnique(g, l, u, i);
    Split(g, l, u);
  }

  // Nothing stands in the way if and only if nothing in the range is translated
  // and no table stands where a block has to.
  lemma {:induction false} FitsIff(g: Granule, m: Mem, y: Layout, a: nat, l: nat, v: nat, pa: nat, k: nat)
    requires Wf(g, m, y) && a in m.tables && Level(y, a) == l
    ensures Fits(g, m, Some(a), l, v, pa, k) <==> !Occupied(g, m, a, l, v, k) && !Barred(g, m, Some(a), l, v, pa, k)
    decreases l, 1, k
  {
    if k > 0 {
      var c, i := ChunkOf(g, l, v, k), Index(g, l, v);
      OccupiedChunk(g, m, a, l, v, k);
      EntryIff(g, m, y, a, l, i, Off(g, l, v), pa, c);
      FitsIff(g, m, y, a, l, v + c, pa + c, k - c);
    }
  }

  lemma {:induction false} EntryIff(g: Granule, m: Mem, y: Layout, a: nat, l: nat, i: nat, rem: nat, pa: nat, k: nat)
    requires Wf(g, m, y) && a in m.tables && Level(y, a) == l && 0 < k
    ensures var e := EntryIn(m, Some(a), i);
      FitsEntry(g, m, e, l, rem, pa, k) <==> !Used(g, m, e, l, rem, k) && !BarredEntry(g, m, e, l, rem, pa, k)
    decreases l, 0
  {
    var e := EntryIn(m, Some(a), i);
    if e != CLEAR {
      EntryShape(g, m, y, a, l, i);
      if l > 0 && e.desc == TABLE {
        UsedBelow(g, m, e, l, rem, k);
        FitsIff(g, m, y, e.addr, l - 1, rem, pa, k);
      } else {
        assert WalkEntry(g, m, e, l, rem).Some?;
      }
    }
  }

  lemma UsedBelow(g: Granule, m: Mem, e: Pte, l: nat, rem: nat, k: nat)
    requires g.Ok() && l > 0 && e.desc == TABLE
    ensures Used(g, m, e, l, rem, k) <==> Occupied(g, m, e.addr, l - 1, rem, k)
  {
    var c, j: nat := e.addr, l - 1;
    if u: nat :| rem <= u < rem + k && Walk(g, m, c, j, u).Some? {
      assert WalkEntry(g, m, e, l, u).Some?;
    }
    if u: nat :| rem <= u < rem + k && WalkEntry(g, m, e, l, u).Some? {
      assert Walk(g, m, c, j, u).Some?;
    }
  }

  // ---------- without empty tables ----------

  // A table in the way is empty, or has something translated.
  lemma {:induction false} LeanBar(g: Granule, m: Mem, y: Layout, a: nat, l: nat, v: nat, pa: nat, k: nat)
    requires Wf(g, m, y) && a in m.tables && Level(y, a) == l && Lean(m, y, y.path[a])
    requires Barred(g, m, Some(a), l, v, pa, k)
    ensures Occupied(g, m, a, l, v, k)
    decreases l, 1, k
  {
    var c, i, r := ChunkOf(g, l, v, k), Index(g, l, v), Off(g, l, v);
    OccupiedChunk(g, m, a, l, v, k);
    if BarredEntry(g, m, EntryIn(m, Some(a), i), l, r, pa, c) {
      LeanBarEntry(g, m, y, a, l, i, r, pa, c);
    } else {
      LeanBar(g, m, y, a, l, v + c, pa + c, k - c);
    }
  }

  lemma {:induction false} LeanBarEntry(g: Granule, m: Mem, y: Layout, a: nat, l: nat, i: nat, rem: nat, pa: nat, k: nat)
    requires Wf(g, m, y) && a in m.tables && Level(y, a) == l && Lean(m, y, y.path[a])
    requires BarredEntry(g, m, EntryIn(m, Some(a), i), l, rem, pa, k)
    ensures Used(g, m, EntryIn(m, Some(a), i), l, rem, k)
    decreases l, 0
  {
    var e := EntryIn(m, Some(a), i);
    EntryShape(g, m, y, a, l, i);
    assert y.path[a] < y.path[e.addr];
    UsedBelow(g, m, e, l, rem, k);
    if ByBlock(g, l, rem, pa, k) {
      var u := TableTranslates(g, m, y, e.addr, l - 1);
    } else {
      LeanBar(g, m, y, e.addr, l - 1, rem, pa, k);
    }
  }

  // ---------- the outcome ----------

  // A mapping is made if and only if nothing in its range is translated, no
  // table stands where a block has to, and there is a page for each missing
  // table.
  lemma RoomIff(g: Granule, m: Mem, y: Layout, a: nat, l: nat, v: nat, pa: nat, k: nat)
    requires Wf(g, m, y) && a in m.tables && Level(y, a) == l
    ensures Room(g, m, a, l, v, pa, k) <==>
      !Occupied(g, m, a, l, v, k) && !Barred(g, m, Some(a), l, v, pa, k) && Missing(g, m, Some(a), l, v, pa, k) <= |m.pool|
  {
    FitsIff(g, m, y, a, l, v, pa, k);
  }

  // If no table is empty, only a translation can stand in the way.
  lemma LeanRoomIff(g: Granule, m: Mem, y: Layout, a: nat, l: nat, v: nat, pa: nat, k: nat)
    requires Wf(g, m, y) && a in m.tables && Level(y, a) == l && Lean(m, y, y.path[a])
    ensures Room(g, m, a, l, v, pa, k) <==>
      !Occupied(g, m, a, l, v, k) && Missing(g, m, Some(a), l, v, pa, k) <= |m.pool|
  {
    RoomIff(g, m, y, a, l, v, pa, k);
    if Barred(g, m, Some(a), l, v, pa, k) {
      LeanBar(g, m, y, a, l, v, pa, k);
    }
  }

  // No more tables are missing than one for each page and level above it.
  lemma {:induction false} MissingBound(g: Granule, m: Mem, t: Option<nat>, l: nat, v: nat, pa: nat, k: nat)
    requires g.Ok() && PageAligned(g, v, pa, k)
    ensures Missing(g, m, t, l, v, pa, k) * g.page <= l * k
    decreases l, 1, k
  {
    if k > 0 {
      var c, r := ChunkOf(g, l, v, k), Off(g, l, v);
      var e := EntryIn(m, t, Index(g, l, v));
      Split(g, l, v);
      NextIndex(g, l, v, k);
      PageChunk(g, l, Index(g, l, v), v, pa, k, r, c);
      AlignedGap(0, c, g.page);
      MissingEntryBound(g, m, e, l, r, pa, c);
      MissingBound(g, m, t, l, v + c, pa + c, k - c);
      var x, y := MissingEntry(g, m, e, l, r, pa, c), Missing(g, m, t, l, v + c, pa + c, k - c);
      assert Missing(g, m, t, l, v, pa, k) == x + y;
      hide *;
      Combine(x, y, g.page, l, c, k - c);
    }
  }

  lemma {:induction false} MissingEntryBound(g: Granule, m: Mem, e: Pte, l: nat, rem: nat, pa: nat, k: nat)
    requires g.Ok() && PageAligned(g, rem, pa, k) && g.page <= k
    ensures MissingEntry(g, m, e, l, rem, pa, k) * g.page <= l * k
    decreases l, 0
  {
    if l == 0 || ByBlock(g, l, rem, pa, k) {
      assert MissingEntry(g, m, e, l, rem, pa, k) == 0;
      hide *;
      Combine(0, 0, g.page, l, k, 0);
    } else {
      var t := if e.desc == TABLE then Some(e.addr) else None;
      var x := Missing(g, m, t, l - 1, rem, pa, k);
      MissingBound(g, m, t, l - 1, rem, pa, k);
      assert MissingEntry(g, m, e, l, rem, pa, k) <= 1 + x;
      hide *;
      OneMore(x, MissingEntry(g, m, e, l, rem, pa, k), g.page, l, k);
    }
  }

  lemma Combine(x: nat, y: nat, p: nat, l: nat, c: nat, d: nat)
    requires x * p <= l * c && y * p <= l * d
    ensures (x + y) * p <= l * (c + d)
  {
    assert (x + y) * p == x * p + y * p;
    assert l * (c + d) == l * c + l * d;
  }

  lemma OneMore(x: nat, n: nat, p: nat, l: nat, k: nat)
    requires 0 < l && x * p <= (l - 1) * k && n <= 1 + x && p <= k
    ensures n * p <= l * k
  {
    Order(n, 1 + x, p);
    assert (1 + x) * p == p + x * p;
    assert l * k == (l - 1) * k + k;
  }

  // ---------- an empty table in the way ----------

  function Entries(e: Pte, n: nat): (t: seq<Pte>)
    requires 0 < n
    ensures |t| == n && t[0] == e && forall i :: 0 < i < n ==> t[i] == CLEAR
  {
    [e] + seq(n - 1, _ => CLEAR)
  }

  // A root of n entries, the first of which has the empty table c, and no free
  // page.
  function WithEmptyTable(g: Granule, n: nat, c: nat): Mem
    requires 0 < n
  {
    Mem(map[0 := Entries(TablePte(c), n)][c := seq(g.fan, _ => CLEAR)], {})
  }

  // Blocks are larger than a page.
  lemma {:induction false} BlockGrows(g: Granule, l: nat)
    requires g.Ok() && g.fan > 1
    ensures g.page <= Block(g, l) && (l > 0 ==> g.page < Block(g, l))
  {
    if l > 0 {
      BlockGrows(g, l - 1);
      Order(2, g.fan, Block(g, l - 1));
    }
  }

  // The first k bytes of a table lie in its first entry.
  lemma FirstChunk(g: Granule, l: nat, k: nat)
    requires g.Ok() && k <= Block(g, l)
    ensures Block(g, l) > 0 && ChunkOf(g, l, 0, k) == k && Index(g, l, 0) == 0 && Off(g, l, 0) == 0
  {
    BlockPositive(g, l);
    SplitUnique(g, l, 0, 0);
    Split(g, l, 0);
  }

  // Mapping one page where there is no table takes one for each level.
  lemma {:induction false} MissingForPage(g: Granule, m: Mem, l: nat)
    requires g.Ok() && g.fan > 1
    ensures Missing(g, m, None, l, 0, 0, g.page) == l
  {
    BlockGrows(g, l);
    FirstChunk(g, l, g.page);
    if l > 0 {
      MissingForPage(g, m, l - 1);
    }
  }

  // A mapping of one page that finds a free page for one table, and none for the
  // next, leaves the first one behind.
  method LeaveEmptyTable(g: Granule, l: nat, n: nat, c: nat, attrs: Attrs) returns (status: Status, m: Mem, ghost y: Layout)
    requires g.Ok() && g.fan > 1 && 2 <= l && 0 < n && c != 0
    ensures status == ErrGeneric && m == WithEmptyTable(g, n, c)
    ensures Wf(g, m, y) && y.root == 0 && y.top == l && Level(y, 0) == l
  {
    m := Mem(map[0 := seq(n, _ => CLEAR)], {c});
    y := Layout(0, l, n, map[0 := []], map[[] := 0]);
    ghost var m0, y0 := m, y;
    assert TableOk(g, m, y, 0);
    FirstPage(g, m, l, n);
    status, m, y := MapPt(g, m, y, 0, l, 0, 0, g.page, attrs);
    LeftBehind(g, m0, y0, m, y, l, n, c);
  }

  lemma FirstPage(g: Granule, m: Mem, l: nat, n: nat)
    requires g.Ok() && g.fan > 1 && 2 <= l && 0 < n && |m.pool| == 1
    requires 0 in m.tables && |m.tables[0]| == n && Empty(m, 0)
    ensures g.page <= Reach(g, m, 0, l) && g.page % g.page == 0
    ensures Fits(g, m, Some(0), l, 0, 0, g.page) && !Room(g, m, 0, l, 0, 0, g.page) && Index(g, l, 0) == 0
  {
    BlockGrows(g, l);
    Order(1, n, Block(g, l));
    SelfAligned(g.page);
    EmptyRoom(g, m, m, 0, l, 0, 0, g.page);
    MissingForPage(g, m, l);
    FirstChunk(g, l, g.page);
  }

  lemma LeftBehind(g: Granule, m0: Mem, y0: Layout, m: Mem, y: Layout, l: nat, n: nat, c: nat)
    requires g.Ok() && 2 <= l && 0 < n && c != 0 && Wf(g, m0, y0) && y0.root == 0 && y0.top == l
    requires m0 == Mem(map[0 := seq(n, _ => CLEAR)], {c})
    requires Unchanged(g, m0, y0, m, y, 0, l) && OnlyEntry(m0, y0, m, y, 0, 0) && m.pool == {}
    ensures m == WithEmptyTable(g, n, c) && Wf(g, m, y) && y.root == 0 && y.top == l && Level(y, 0) == l
  {
    assert m.tables.Keys == {0, c};
    assert TableOk(g, m, y, 0) && TableOk(g, m, y, c);
    assert y.path[0] == [] && ParentOk(m, y, c);
    assert y.path[c] == [0] && m.tables[0][0] == TablePte(c);
    assert m.tables[0] == Entries(TablePte(c), n);
    forall j | 0 <= j < |m.tables[c]|
      ensures m.tables[c][j] == CLEAR
    {
      assert EntryOk(m, y, c, j);
      if m.tables[c][j].desc == BLOCK {
        TranslatedBelow(g, m, y, l, c, j);
        assert Walk(g, m, 0, l, Start(g, l - 1, j)) == Walk(g, m0, 0, l, Start(g, l - 1, j));
        EmptyWalk(g, m0, 0, l, Start(g, l - 1, j));
      }
    }
    assert m.tables[c] == seq(g.fan, _ => CLEAR);
    assert m.tables == WithEmptyTable(g, n, c).tables;
  }

  lemma TranslatedBelow(g: Granule, m: Mem, y: Layout, l: nat, c: nat, j: nat)
    requires Wf(g, m, y) && l > 1 && 0 in m.tables && Level(y, 0) == l && 0 < |m.tables[0]| && m.tables[0][0] == TablePte(c)
    requires c in m.tables && j < |m.tables[c]| && m.tables[c][j].desc == BLOCK
    ensures Walk(g, m, 0, l, Start(g, l - 1, j)).Some?
  {
    EntryShape(g, m, y, 0, l, 0);
    BlockPositive(g, l - 1);
    WalkAt(g, m, c, l - 1, j, Start(g, l - 1, j));
    WalkAt(g, m, 0, l, 0, Start(g, l - 1, j));
  }

  // There, nothing is translated and no table is missing, and yet no block can
  // be mapped over the empty table.
  lemma EmptyTableBars(g: Granule, m: Mem, y: Layout, l: nat, n: nat, c: nat, pa: nat)
    requires g.Ok() && 2 <= l <= g.maxBlock && 0 < n && c != 0 && m == WithEmptyTable(g, n, c)
    requires Wf(g, m, y) && y.root == 0 && y.top == l && Level(y, 0) == l
    ensures forall v: nat :: Walk(g, m, 0, l, v) == None
    ensures Block(g, l) > 0
    ensures pa % Block(g, l) == 0 ==>
      && Missing(g, m, Some(0), l, 0, pa, Block(g, l)) == 0 && Barred(g, m, Some(0), l, 0, pa, Block(g, l))
      && !Room(g, m, 0, l, 0, pa, Block(g, l))
  {
    BlockPositive(g, l);
    forall v: nat
      ensures Walk(g, m, 0, l, v) == None
    {
      NothingThere(g, m, l, n, c, v);
    }
    if pa % Block(g, l) == 0 {
      FirstChunk(g, l, Block(g, l));
      assert EntryIn(m, Some(0), 0) == TablePte(c) && ByBlock(g, l, 0, pa, Block(g, l));
      assert BarredEntry(g, m, TablePte(c), l, 0, pa, Block(g, l));
      RoomIff(g, m, y, 0, l, 0, pa, Block(g, l));
    }
  }

  lemma NothingThere(g: Granule, m: Mem, l: nat, n: nat, c: nat, v: nat)
    requires g.Ok() && 2 <= l && 0 < n && c != 0 && m == WithEmptyTable(g, n, c)
    ensures Walk(g, m, 0, l, v) == None
  {
    Split(g, l, v);
    WalkIn(g, m, 0, l, Index(g, l, v), v);
    EmptyWalk(g, m, c, l - 1, Off(g, l, v));
  }

  // Each entry of the empty table can be mapped by a block all the same.
  lemma EmptyTableParts(g: Granule, m: Mem, l: nat, n: nat, c: nat, i: nat, pa: nat)
    requires g.Ok() && g.fan > 1 && 2 <= l <= g.maxBlock && 0 < n && c != 0 && m == WithEmptyTable(g, n, c) && i < g.fan
    requires Block(g, l - 1) > 0 && pa % Block(g, l - 1) == 0
    ensures Room(g, m, 0, l, Start(g, l - 1, i), pa, Block(g, l - 1))
  {
    var v, k := Start(g, l - 1, i), Block(g, l - 1);
    PartChunk(g, l, i);
    assert EntryIn(m, Some(0), 0) == TablePte(c) && EntryIn(m, Some(c), i) == CLEAR;
    assert ByBlock(g, l - 1, 0, pa, k) && !ByBlock(g, l, v, pa, k);
    OneChunk(g, m, 0, l, v, pa, k);
    OneChunk(g, m, c, l - 1, v, pa, k);
    hide ByBlock, ChunkOf, Index, Off, EntryIn, Start, Block, Fits, Missing, WithEmptyTable;
    assert Fits(g, m, Some(c), l - 1, v, pa, k) && Missing(g, m, Some(c), l - 1, v, pa, k) == 0;
  }

  lemma OneChunk(g: Granule, m: Mem, a: nat, l: nat, v: nat, pa: nat, k: nat)
    requires g.Ok() && 0 < k && ChunkOf(g, l, v, k) == k
    ensures var e, r := EntryIn(m, Some(a), Index(g, l, v)), Off(g, l, v);
      && Fits(g, m, Some(a), l, v, pa, k) == FitsEntry(g, m, e, l, r, pa, k)
      && Missing(g, m, Some(a), l, v, pa, k) == MissingEntry(g, m, e, l, r, pa, k)
  {
  }

  lemma PartChunk(g: Granule, l: nat, i: nat)
    requires g.Ok() && 0 < l && i < g.fan
    ensures var v, k := Start(g, l - 1, i), Block(g, l - 1);
      && v + k <= Block(g, l) && (g.fan > 1 ==> k < Block(g, l))
      && Index(g, l, v) == 0 && Off(g, l, v) == v && ChunkOf(g, l, v, k) == k
      && Index(g, l - 1, v) == i && Off(g, l - 1, v) == 0 && ChunkOf(g, l - 1, v, k) == k
  {
    var v, k := Start(g, l - 1, i), Block(g, l - 1);
    BlockPositive(g, l - 1);
    Order(i, g.fan, k);
    Order(1, g.fan, k);
    SplitUnique(g, l, v, 0);
    Split(g, l, v);
    SplitUnique(g, l - 1, v, i);
    Split(g, l - 1, v);
  }
}
