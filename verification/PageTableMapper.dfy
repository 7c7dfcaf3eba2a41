// arm64_mmu_map_pt, and when it succeeds.
module PageTableMapper {
  import opened Common
  import opened Align
  import opened PageFlags
  import opened PageTables
  import opened PageTableSteps
  import opened PageTableLean
  import opened PageTableRoom
  import opened PageTableUnmap
  import opened PageTableMap

  // There is room for k bytes from v on of table a: nothing stands in the way,
  // and there is a page for every missing table.
  ghost predicate Room(g: Granule, m: Mem, a: nat, l: nat, v: nat, pa: nat, k: nat) {
    g.Ok() && Fits(g, m, Some(a), l, v, pa, k) && Missing(g, m, Some(a), l, v, pa, k) <= |m.pool|
  }

  ghost predicate RoomEntry(g: Granule, m: Mem, a: nat, l: nat, i: nat, rem: nat, pa: nat, k: nat) {
    && g.Ok() && FitsEntry(g, m, EntryIn(m, Some(a), i), l, rem, pa, k)
    && MissingEntry(g, m, EntryIn(m, Some(a), i), l, rem, pa, k) <= |m.pool|
  }

  // A part that has been mapped has taken exactly the missing tables, and has
  // left no table empty.
  ghost predicate Took(g: Granule, m: Mem, y: Layout, m': Mem, y': Layout, a: nat, l: nat, v: nat, pa: nat, k: nat) {
    && g.Ok() && |m.pool| == |m'.pool| + Missing(g, m, Some(a), l, v, pa, k)
    && LeanKept(m, y, m', y', a)
  }

  ghost predicate TookEntry(g: Granule, m: Mem, y: Layout, m': Mem, y': Layout, a: nat, l: nat, i: nat, rem: nat, pa: nat, k: nat) {
    && g.Ok() && |m.pool| == |m'.pool| + MissingEntry(g, m, EntryIn(m, Some(a), i), l, rem, pa, k)
    && OnlyEntry(m, y, m', y', a, i) && LeanKept(m, y, m', y', a)
  }

  ghost predicate LeanKept(m: Mem, y: Layout, m': Mem, y': Layout, a: nat) {
    a in y.path && (Lean(m, y, y.path[a]) ==> Lean(m', y', y.path[a]))
  }

  // A part of one page that has failed has changed no other entry, and has used
  // up all free pages unless something stands in its way.
  ghost predicate Drained(g: Granule, m: Mem, y: Layout, m': Mem, y': Layout, a: nat, l: nat, v: nat, pa: nat, k: nat) {
    && g.Ok() && OnlyEntry(m, y, m', y', a, Index(g, l, v))
    && (Fits(g, m, Some(a), l, v, pa, k) ==> m'.pool == {})
  }

  ghost predicate DrainedEntry(g: Granule, m: Mem, y: Layout, m': Mem, y': Layout, a: nat, l: nat, i: nat, rem: nat, pa: nat, k: nat) {
    && g.Ok() && OnlyEntry(m, y, m', y', a, i)
    && (k == g.page && FitsEntry(g, m, EntryIn(m, Some(a), i), l, rem, pa, k) ==> m'.pool == {})
  }

  lemma NoTableDrained(g: Granule, m: Mem, y: Layout, a: nat, l: nat, i: nat, rem: nat, pa: nat, k: nat)
    requires g.Ok() && a in m.tables && a in y.path && i < |m.tables[a]|
    requires if ByBlock(g, l, rem, pa, k) then m.tables[a][i] != CLEAR
             else l > 0 && (m.tables[a][i].desc == BLOCK || (m.tables[a][i] == CLEAR && m.pool == {}))
    ensures DrainedEntry(g, m, y, m, y, a, l, i, rem, pa, k)
  {
    OnlyRefl(m, y, a, i);
  }

  lemma ThroughDrained(g: Granule, m: Mem, y: Layout, m1: Mem, y1: Layout, m2: Mem, y2: Layout,
                       a: nat, l: nat, i: nat, c: nat, rem: nat, pa: nat, k: nat)
    requires g.Ok() && l > 0 && a in m.tables && i < |m.tables[a]| && !ByBlock(g, l, rem, pa, k)
    requires if m.tables[a][i].desc == TABLE then m1 == m && m.tables[a][i].addr == c
             else m.tables[a][i] == CLEAR && Empty(m1, c)
    requires OnlyEntry(m, y, m1, y1, a, i) && Unchanged(g, m1, y1, m2, y2, c, l - 1)
    requires c in y1.path && a in y.path && y1.path[c] == y.path[a] + [i]
    requires k == g.page ==> Drained(g, m1, y1, m2, y2, c, l - 1, rem, pa, k)
    ensures DrainedEntry(g, m, y, m2, y2, a, l, i, rem, pa, k)
  {
    OnlyBelow(m, y, m1, y1, m2, y2, a, i);
    if m.tables[a][i].desc != TABLE {
      EmptyRoom(g, m1, m, c, l - 1, rem, pa, k);
    }
  }

  // One page is one chunk.
  lemma OnePageDrained(g: Granule, m: Mem, y: Layout, m': Mem, y': Layout, a: nat, l: nat, v: nat, pa: nat, k: nat)
    requires g.Ok() && k == g.page && ChunkOf(g, l, v, k) == k
    requires DrainedEntry(g, m, y, m', y', a, l, Index(g, l, v), Off(g, l, v), pa, k)
    ensures Drained(g, m, y, m', y', a, l, v, pa, k)
  {
  }

  lemma LeafTook(g: Granule, m: Mem, y: Layout, a: nat, l: nat, i: nat, e: Pte, rem: nat, pa: nat, k: nat)
    requires g.Ok() && a in y.path && a in m.tables && i < |m.tables[a]| && ByBlock(g, l, rem, pa, k)
    ensures TookEntry(g, m, y, m.SetEntry(a, i, e), y, a, l, i, rem, pa, k)
  {
    WriteOnly(m, y, a, i, e);
    if Lean(m, y, y.path[a]) {
      LeanWrite(m, y, a, i, e);
    }
  }

  lemma LeafRoom(g: Granule, m: Mem, a: nat, l: nat, i: nat, rem: nat, pa: nat, k: nat)
    requires g.Ok() && a in m.tables && i < |m.tables[a]| && ByBlock(g, l, rem, pa, k)
    ensures RoomEntry(g, m, a, l, i, rem, pa, k) <==> m.tables[a][i] == CLEAR
  {
  }

  lemma NoTableRoomLeft(g: Granule, m: Mem, a: nat, l: nat, i: nat, rem: nat, pa: nat, k: nat)
    requires g.Ok() && l > 0 && a in m.tables && i < |m.tables[a]| && !ByBlock(g, l, rem, pa, k)
    requires m.tables[a][i].desc == BLOCK || (m.tables[a][i] == CLEAR && m.pool == {})
    ensures !RoomEntry(g, m, a, l, i, rem, pa, k)
  {
  }

  // There is room below an entry exactly if there is room in its table, which
  // may be new.
  lemma ThroughRoom(g: Granule, m: Mem, m1: Mem, a: nat, l: nat, i: nat, c: nat, rem: nat, pa: nat, k: nat)
    requires g.Ok() && l > 0 && a in m.tables && i < |m.tables[a]| && !ByBlock(g, l, rem, pa, k)
    requires if m.tables[a][i].desc == TABLE then m1 == m && m.tables[a][i].addr == c
             else m.tables[a][i] == CLEAR && Empty(m1, c) && |m.pool| == |m1.pool| + 1
    ensures Room(g, m1, c, l - 1, rem, pa, k) <==> RoomEntry(g, m, a, l, i, rem, pa, k)
    ensures var n := MissingEntry(g, m, EntryIn(m, Some(a), i), l, rem, pa, k);
      |m.pool| - n == |m1.pool| - Missing(g, m1, Some(c), l - 1, rem, pa, k)
  {
    if m.tables[a][i].desc != TABLE {
      EmptyRoom(g, m1, m, c, l - 1, rem, pa, k);
    }
  }

  // The table of the entry has served its part.
  lemma ThroughTook(g: Granule, m: Mem, y: Layout, m1: Mem, y1: Layout, m2: Mem, y2: Layout,
                    a: nat, l: nat, i: nat, c: nat, lo: nat, pa: nat, k: nat, attrs: Attrs)
    requires Wf(g, m, y) && a in m.tables && Unchanged(g, m, y, m1, y1, a, l) && l > 0
    requires Wf(g, m1, y1) && g.Ok() && a in y.path && OnlyEntry(m, y, m1, y1, a, i)
    requires |m.pool| - MissingEntry(g, m, EntryIn(m, Some(a), i), l, lo, pa, k) ==
             |m1.pool| - Missing(g, m1, Some(c), l - 1, lo, pa, k)
    requires Lean(m, y, y.path[a]) ==> LeanElse(m1, y1, y.path[a], i) && Lean(m1, y1, y.path[a] + [i])
    requires c in y1.path && y1.path[c] == y.path[a] + [i] && c in m1.tables
    requires MapDone(g, m1, y1, m2, y2, c, l - 1, lo, pa, k, attrs) && Took(g, m1, y1, m2, y2, c, l - 1, lo, pa, k)
    requires 0 < k
    ensures TookEntry(g, m, y, m2, y2, a, l, i, lo, pa, k)
  {
    hide *;
    DoneOutside(g, m1, y1, m2, y2, c, l - 1, lo, pa, k, attrs);
    ServedNotEmpty(g, m1, m2, c, l - 1, lo, pa, k, attrs);
    OnlyBelow(m, y, m1, y1, m2, y2, a, i);
    TookFacts(g, m1, y1, m2, y2, c, l - 1, lo, pa, k);
    if Lean(m, y, y.path[a]) {
      ThroughLean(g, m1, y1, m2, y2, y.path[a], i, c);
    }
    TookAll(g, m, y, m2, y2, a, l, i, lo, pa, k);
  }

  lemma TookFacts(g: Granule, m: Mem, y: Layout, m': Mem, y': Layout, a: nat, l: nat, v: nat, pa: nat, k: nat)
    requires Took(g, m, y, m', y', a, l, v, pa, k)
    ensures g.Ok() && |m.pool| == |m'.pool| + Missing(g, m, Some(a), l, v, pa, k)
    ensures a in y.path && (Lean(m, y, y.path[a]) ==> Lean(m', y', y.path[a]))
  {
  }

  lemma TookAll(g: Granule, m: Mem, y: Layout, m': Mem, y': Layout, a: nat, l: nat, i: nat, rem: nat, pa: nat, k: nat)
    requires g.Ok() && |m.pool| == |m'.pool| + MissingEntry(g, m, EntryIn(m, Some(a), i), l, rem, pa, k)
    requires OnlyEntry(m, y, m', y', a, i) && a in y.path && (Lean(m, y, y.path[a]) ==> Lean(m', y', y.path[a]))
    ensures TookEntry(g, m, y, m', y', a, l, i, rem, pa, k)
  {
  }

  lemma ThroughLean(g: Granule, m1: Mem, y1: Layout, m2: Mem, y2: Layout, p: seq<nat>, i: nat, c: nat)
    requires Wf(g, m1, y1) && Wf(g, m2, y2) && LeanElse(m1, y1, p, i) && Outside(m1, y1, m2, y2, p + [i])
    requires c in y2.path && y2.path[c] == p + [i] && Lean(m2, y2, p + [i]) && !Empty(m2, c)
    ensures Lean(m2, y2, p)
  {
    LeanOutside(g, m1, y1, m2, y2, p, i);
    LeanJoin(g, m2, y2, p, i, c);
  }

  lemma DoneOutside(g: Granule, m: Mem, y: Layout, m': Mem, y': Layout, c: nat, l: nat, lo: nat, pa: nat, k: nat, attrs: Attrs)
    requires MapDone(g, m, y, m', y', c, l, lo, pa, k, attrs)
    ensures c in y.path && c in y'.path && y'.path[c] == y.path[c] && Wf(g, m', y') && Outside(m, y, m', y', y.path[c])
    ensures Mapped(g, m, m', c, l, lo, pa, k, attrs)
  {
  }

  lemma ServedNotEmpty(g: Granule, m: Mem, m': Mem, c: nat, l: nat, lo: nat, pa: nat, k: nat, attrs: Attrs)
    requires Mapped(g, m, m', c, l, lo, pa, k, attrs) && 0 < k
    ensures !Empty(m', c)
  {
    assert MappedAt(Walk(g, m, c, l, lo), Walk(g, m', c, l, lo), lo, lo, pa, k, attrs);
    if Empty(m', c) {
      EmptyWalk(g, m', c, l, lo);
    }
  }

  // One chunk: either through the table of its entry, or as one descriptor.
  method MapChunk(g: Granule, m1: Mem, ghost y1: Layout, a: nat, l: nat, index: nat,
                  vrel: nat, vrem: nat, paddr: nat, chunk: nat, attrs: Attrs)
    returns (done: bool, m: Mem, ghost y: Layout)
    requires InEntry(g, m1, y1, a, l, index, vrel, chunk)
    requires vrel == Start(g, l, index) + vrem && vrem + chunk <= Block(g, l) && Block(g, l) > 0
    requires PageAligned(g, vrem, paddr, chunk) && (l == 0 ==> vrem == 0 && chunk == Block(g, l))
    ensures done ==> MapDone(g, m1, y1, m, y, a, l, vrel, paddr, chunk, attrs) && TookEntry(g, m1, y1, m, y, a, l, index, vrem, paddr, chunk)
    ensures !done ==> Unchanged(g, m1, y1, m, y, a, l)
    ensures done <==> RoomEntry(g, m1, a, l, index, vrem, paddr, chunk)
    ensures !done ==> DrainedEntry(g, m1, y1, m, y, a, l, index, vrem, paddr, chunk)
    decreases l, 0, 1
  {
    var block := Block(g, l);
    ZeroByBlock(g, l, vrem, paddr, chunk);
    if vrem != 0 || paddr % block != 0 || chunk != block || l > g.maxBlock {
      hide *;
      done, m, y := MapThrough(g, m1, y1, a, l, index, vrel, vrem, paddr, chunk, attrs);
    } else {
      m, y := m1, y1;
      MapNothing(g, m, y, a, l, vrel, paddr, attrs);
      LeafRoom(g, m, a, l, index, vrem, paddr, chunk);
      var pte := m.tables[a][index];
      if pte != CLEAR {
        NoTableDrained(g, m, y, a, l, index, vrem, paddr, chunk);
        return false, m, y;
      }
      LeafTook(g, m, y, a, l, index, LeafPte(l, paddr, attrs), vrem, paddr, chunk);
      MapLeaf(g, m, y, a, l, index, vrel, paddr, attrs);
      hide *;
      m := m.SetEntry(a, index, LeafPte(l, paddr, attrs));
      return true, m, y;
    }
  }

  // One chunk through the table of its entry.
  method MapThrough(g: Granule, m1: Mem, ghost y1: Layout, a: nat, l: nat, index: nat,
                    vrel: nat, vrem: nat, paddr: nat, chunk: nat, attrs: Attrs)
    returns (done: bool, m: Mem, ghost y: Layout)
    requires InEntry(g, m1, y1, a, l, index, vrel, chunk) && l > 0
    requires vrel == Start(g, l, index) + vrem && vrem + chunk <= Block(g, l)
    requires g.Ok() && PageAligned(g, vrem, paddr, chunk) && !ByBlock(g, l, vrem, paddr, chunk)
    ensures done ==> MapDone(g, m1, y1, m, y, a, l, vrel, paddr, chunk, attrs) && TookEntry(g, m1, y1, m, y, a, l, index, vrem, paddr, chunk)
    ensures !done ==> Unchanged(g, m1, y1, m, y, a, l)
    ensures done <==> RoomEntry(g, m1, a, l, index, vrem, paddr, chunk)
    ensures !done ==> DrainedEntry(g, m1, y1, m, y, a, l, index, vrem, paddr, chunk)
    decreases l, 0, 0
  {
    hide *;
    WholePages(g, vrem, paddr, chunk);
    EntryFacts(g, m1, y1, a, l, index, vrel, chunk);
    var c, status;
    c, m, y := GetPageTable(g, m1, y1, a, l, index);
    UnchangedFacts(g, m1, y1, m, y, a, l);
    if c == None {
      NoTableRoomLeft(g, m1, a, l, index, vrem, paddr, chunk);
      NoTableDrained(g, m1, y1, a, l, index, vrem, paddr, chunk);
      return false, m, y;
    }
    ghost var m2, y2 := m, y;
    ChildShape(g, m, y, a, l, index, c.value);
    StillInEntry(g, m1, y1, m2, y2, a, l, index, vrel, chunk);
    ThroughRoom(g, m1, m2, a, l, index, c.value, vrem, paddr, chunk);
    status, m, y := MapPt(g, m, y, c.value, l - 1, vrem, paddr, chunk, attrs);
    if status != NoError {
      ThroughFails(g, m1, y1, m2, y2, m, y, a, l, index, c.value);
      ThroughDrained(g, m1, y1, m2, y2, m, y, a, l, index, c.value, vrem, paddr, chunk);
      return false, m, y;
    }
    ThroughTook(g, m1, y1, m2, y2, m, y, a, l, index, c.value, vrem, paddr, chunk, attrs);
    MapBelow(g, m2, y2, m, y, a, l, index, c.value, vrel, paddr, chunk, attrs);
    MapAfterUnchanged(g, m1, y1, m2, y2, m, y, a, l, vrel, paddr, chunk, attrs);
    return true, m, y;
  }

  lemma ChildShape(g: Granule, m: Mem, y: Layout, a: nat, l: nat, i: nat, c: nat)
    requires Wf(g, m, y) && a in m.tables && Level(y, a) == l > 0 && i < |m.tables[a]| && m.tables[a][i] == TablePte(c)
    ensures c in m.tables && c in y.path && y.path[c] == y.path[a] + [i] && Level(y, c) == l - 1
    ensures Reach(g, m, c, l - 1) == Block(g, l) && TablePte(c).desc == TABLE && TablePte(c).addr == c
  {
    EntryShape(g, m, y, a, l, i);
  }

  lemma EntryFacts(g: Granule, m: Mem, y: Layout, a: nat, l: nat, i: nat, lo: nat, k: nat)
    requires InEntry(g, m, y, a, l, i, lo, k)
    ensures Wf(g, m, y) && g.Ok() && g.page > 0 && a in m.tables && a in y.path && Level(y, a) == l && i < |m.tables[a]| && 0 < k
  {
  }

  lemma ThroughFails(g: Granule, m: Mem, y: Layout, m1: Mem, y1: Layout, m2: Mem, y2: Layout, a: nat, l: nat, i: nat, c: nat)
    requires Wf(g, m, y) && Unchanged(g, m, y, m1, y1, a, l) && l > 0
    requires Wf(g, m1, y1) && a in m1.tables && Level(y1, a) == l && i < |m1.tables[a]| && m1.tables[a][i] == TablePte(c)
    requires c in y1.path && y1.path[c] == y1.path[a] + [i]
    requires Unchanged(g, m1, y1, m2, y2, c, l - 1)
    ensures Unchanged(g, m, y, m2, y2, a, l)
  {
    UnchangedBelow(g, m1, y1, m2, y2, a, l, i, c);
    UnchangedTrans(g, m, y, m1, y1, m2, y2, a, l);
  }

  // The test of the kernel; on level 0 a chunk is one aligned page.
  lemma ZeroByBlock(g: Granule, l: nat, vrem: nat, paddr: nat, chunk: nat)
    requires g.Ok() && Block(g, l) > 0 && PageAligned(g, vrem, paddr, chunk) && (l == 0 ==> vrem == 0 && chunk == Block(g, l))
    ensures ByBlock(g, l, vrem, paddr, chunk) <==>
      !(vrem != 0 || paddr % Block(g, l) != 0 || chunk != Block(g, l) || l > g.maxBlock)
    ensures l == 0 ==> ByBlock(g, l, vrem, paddr, chunk)
  {
  }

  lemma StillInEntry(g: Granule, m: Mem, y: Layout, m1: Mem, y1: Layout, a: nat, l: nat, i: nat, lo: nat, k: nat)
    requires InEntry(g, m, y, a, l, i, lo, k) && Unchanged(g, m, y, m1, y1, a, l)
    ensures InEntry(g, m1, y1, a, l, i, lo, k)
  {
  }

  // Maps the size addresses from vrel0 to those from paddr0 below table a.
  method MapPt(g: Granule, m0: Mem, ghost y0: Layout, a: nat, l: nat, vrel0: nat, paddr0: nat, size0: nat, attrs: Attrs)
    returns (status: Status, m: Mem, ghost y: Layout)
    requires Wf(g, m0, y0) && a in m0.tables && Level(y0, a) == l
    requires vrel0 + size0 <= Reach(g, m0, a, l)
    ensures status == ErrInvalidArgs <==> vrel0 % g.page != 0 || paddr0 % g.page != 0 || size0 % g.page != 0
    ensures status == NoError || status == ErrInvalidArgs || status == ErrGeneric
    ensures status == ErrInvalidArgs ==> m == m0 && y == y0
    ensures status == NoError ==> MapDone(g, m0, y0, m, y, a, l, vrel0, paddr0, size0, attrs)
    ensures status != NoError ==> Unchanged(g, m0, y0, m, y, a, l)
    ensures status == NoError ==> Took(g, m0, y0, m, y, a, l, vrel0, paddr0, size0)
    ensures status != ErrInvalidArgs ==> (status == NoError <==> Room(g, m0, a, l, vrel0, paddr0, size0))
    ensures status == ErrGeneric && size0 == g.page ==> Drained(g, m0, y0, m, y, a, l, vrel0, paddr0, size0)
    decreases l, 2
  {
    if vrel0 % g.page != 0 || paddr0 % g.page != 0 || size0 % g.page != 0 {
      m, y := m0, y0;
      MapNothing(g, m, y, a, l, vrel0, paddr0, attrs);
      return ErrInvalidArgs, m, y;
    }
    status, m, y := MapPages(g, m0, y0, a, l, vrel0, paddr0, size0, attrs);
  }

  // The loop of arm64_mmu_map_pt over the chunks of the range.
  method MapPages(g: Granule, m0: Mem, ghost y0: Layout, a: nat, l: nat, vrel0: nat, paddr0: nat, size0: nat, attrs: Attrs)
    returns (status: Status, m: Mem, ghost y: Layout)
    requires Wf(g, m0, y0) && a in m0.tables && Level(y0, a) == l
    requires vrel0 + size0 <= Reach(g, m0, a, l) && PageAligned(g, vrel0, paddr0, size0)
    ensures status == NoError || status == ErrGeneric
    ensures status == NoError ==> MapDone(g, m0, y0, m, y, a, l, vrel0, paddr0, size0, attrs) && Took(g, m0, y0, m, y, a, l, vrel0, paddr0, size0)
    ensures status != NoError ==> Unchanged(g, m0, y0, m, y, a, l)
    ensures status == NoError <==> Room(g, m0, a, l, vrel0, paddr0, size0)
    ensures status != NoError && size0 == g.page ==> Drained(g, m0, y0, m, y, a, l, vrel0, paddr0, size0)
    decreases l, 1, 1
  {
    m, y := m0, y0;
    var vrel: nat, paddr: nat, size: nat := vrel0, paddr0, size0;
    hide *;
    SoFarStart(g, m, y, a, l, vrel0, paddr0, size0, attrs);
    WholePages(g, vrel0, paddr0, size0);
    while size != 0
      invariant vrel0 <= vrel && vrel + size == vrel0 + size0 && paddr == paddr0 + (vrel - vrel0)
      invariant SoFar(g, m0, y0, m, y, a, l, vrel0, paddr0, vrel - vrel0, size0, attrs)
      invariant PageAligned(g, vrel, paddr, size)
      invariant vrel == vrel0 ==> m == m0 && y == y0
      decreases size
    {
      ghost var m1, y1 := m, y;
      var done, chunk;
      done, chunk, m, y := MapNextChunk(g, m0, y0, m, y, a, l, vrel0, paddr0, size0, vrel, paddr, size, attrs);
      if !done {
        ghost var m2, y2 := m, y;
        WholeAtLeast(g, vrel, paddr, size);
        m, y := Undo(g, m0, y0, m1, y1, m, y, a, l, vrel0, paddr0, vrel - vrel0, size0, attrs);
        return ErrGeneric, m, y;
      }
      size := size - chunk;
      vrel := vrel + chunk;
      paddr := paddr + chunk;
    }
    SoFarDone(g, m0, y0, m, y, a, l, vrel0, paddr0, size0, attrs);
    status := NoError;
  }

  method MapNextChunk(g: Granule, ghost m0: Mem, ghost y0: Layout, m1: Mem, ghost y1: Layout, a: nat, l: nat,
                      ghost vrel0: nat, ghost paddr0: nat, ghost size0: nat, vrel: nat, paddr: nat, size: nat, attrs: Attrs)
    returns (done: bool, chunk: nat, m: Mem, ghost y: Layout)
    requires vrel0 <= vrel && vrel + size == vrel0 + size0 && paddr == paddr0 + (vrel - vrel0) && 0 < size
    requires SoFar(g, m0, y0, m1, y1, a, l, vrel0, paddr0, vrel - vrel0, size0, attrs)
    requires a in m0.tables && vrel + size <= Reach(g, m0, a, l) && PageAligned(g, vrel, paddr, size)
    ensures 0 < chunk <= size
    ensures done ==> SoFar(g, m0, y0, m, y, a, l, vrel0, paddr0, vrel - vrel0 + chunk, size0, attrs)
    ensures done ==> PageAligned(g, vrel + chunk, paddr + chunk, size - chunk)
    ensures !done ==> Wf(g, m1, y1) && a in m1.tables && Level(y1, a) == l && vrel <= Reach(g, m1, a, l)
    ensures !done ==> Unchanged(g, m1, y1, m, y, a, l) && !Room(g, m0, a, l, vrel0, paddr0, size0)
    ensures !done && size == g.page ==> Drained(g, m1, y1, m, y, a, l, vrel, paddr, size)
    decreases l, 1, 0
  {
    hide *;
    SoFarFacts(g, m0, y0, m1, y1, a, l, vrel0, paddr0, vrel - vrel0, size0, attrs);
    var index, vrem;
    index, vrem, chunk := NextChunk(g, m1, y1, a, l, vrel, size);
    PageChunk(g, l, index, vrel, paddr, size, vrem, chunk);
    done, m, y := MapChunk(g, m1, y1, a, l, index, vrel, vrem, paddr, chunk, attrs);
    NextRoom(g, m0, y0, m1, y1, a, l, vrel0, paddr0, vrel - vrel0, size0, attrs);
    if !done && size == g.page {
      ChunkAtLeast(g, chunk);
      OnePageDrained(g, m1, y1, m, y, a, l, vrel, paddr, size);
    }
    if done {
      SoFarNext(g, m0, y0, m1, y1, m, y, a, l, vrel0, paddr0, vrel - vrel0, chunk, size0, attrs);
    }
  }

  // What follows the label err: unmaps what has been mapped.
  method Undo(g: Granule, ghost m0: Mem, ghost y0: Layout, ghost m1: Mem, ghost y1: Layout, m2: Mem, ghost y2: Layout,
              a: nat, l: nat, lo: nat, ghost pa: nat, d: nat, ghost size: nat, ghost attrs: Attrs)
    returns (m: Mem, ghost y: Layout)
    requires SoFar(g, m0, y0, m1, y1, a, l, lo, pa, d, size, attrs)
    requires Wf(g, m1, y1) && a in m1.tables && Level(y1, a) == l && lo + d <= Reach(g, m1, a, l)
    requires Unchanged(g, m1, y1, m2, y2, a, l)
    ensures Unchanged(g, m0, y0, m, y, a, l)
    ensures d == 0 ==> m == m2 && y == y2
  {
    SoFarFails(g, m0, y0, m1, y1, m2, y2, a, l, lo, pa, d, size, attrs);
    SoFarFacts(g, m0, y0, m1, y1, a, l, lo, pa, d, size, attrs);
    m, y := UnmapPt(g, m2, y2, a, l, lo, d);
    hide *;
    RollbackDone(g, m0, y0, m2, y2, m, y, a, l, lo, pa, d, attrs);
  }

  // The first d bytes have been mapped, and the tables that they missed taken.
  ghost predicate SoFar(g: Granule, m0: Mem, y0: Layout, m: Mem, y: Layout, a: nat, l: nat, lo: nat, pa: nat, d: nat, size: nat, attrs: Attrs) {
    && Wf(g, m0, y0) && a in m0.tables && Level(y0, a) == l && d <= size
    && MapDone(g, m0, y0, m, y, a, l, lo, pa, d, attrs) && LeanKept(m0, y0, m, y, a)
    && RoomLeft(g, m0, y0, m, y, a, l, lo, pa, d, size)
  }

  // There is room for all exactly if there is room for what is left to do.
  ghost predicate RoomLeft(g: Granule, m0: Mem, y0: Layout, m: Mem, y: Layout, a: nat, l: nat, lo: nat, pa: nat, d: nat, size: nat) {
    && g.Ok() && d <= size
    && (d < size ==> SameFrom(m0, y0, m, y, a, Index(g, l, lo + d)))
    && (Fits(g, m0, Some(a), l, lo, pa, size) <==> Fits(g, m0, Some(a), l, lo + d, pa + d, size - d))
    && |m.pool| + Missing(g, m0, Some(a), l, lo, pa, size) == |m0.pool| + Missing(g, m0, Some(a), l, lo + d, pa + d, size - d)
  }

  lemma SoFarStart(g: Granule, m: Mem, y: Layout, a: nat, l: nat, lo: nat, pa: nat, size: nat, attrs: Attrs)
    requires Wf(g, m, y) && a in m.tables && Level(y, a) == l
    ensures SoFar(g, m, y, m, y, a, l, lo, pa, 0, size, attrs)
  {
    MapNothing(g, m, y, a, l, lo, pa, attrs);
    SameFromRefl(m, y, a, Index(g, l, lo + 0));
  }

  lemma SoFarFacts(g: Granule, m0: Mem, y0: Layout, m: Mem, y: Layout, a: nat, l: nat, lo: nat, pa: nat, d: nat, size: nat, attrs: Attrs)
    requires SoFar(g, m0, y0, m, y, a, l, lo, pa, d, size, attrs)
    ensures g.Ok() && Wf(g, m, y) && a in m.tables && a in y.path && Level(y, a) == l
    ensures a in m0.tables && Reach(g, m, a, l) == Reach(g, m0, a, l)
  {
  }

  lemma SoFarRoom(g: Granule, m0: Mem, y0: Layout, m: Mem, y: Layout, a: nat, l: nat, lo: nat, pa: nat, d: nat, size: nat, attrs: Attrs)
    requires SoFar(g, m0, y0, m, y, a, l, lo, pa, d, size, attrs) && d < size
    ensures g.Ok() && Wf(g, m0, y0) && a in m0.tables && Level(y0, a) == l && SameFrom(m0, y0, m, y, a, Index(g, l, lo + d))
    ensures Fits(g, m0, Some(a), l, lo, pa, size) <==> Fits(g, m0, Some(a), l, lo + d, pa + d, size - d)
    ensures |m.pool| + Missing(g, m0, Some(a), l, lo, pa, size) == |m0.pool| + Missing(g, m0, Some(a), l, lo + d, pa + d, size - d)
  {
  }

  // The room of the first chunk is part of the room of the whole.
  lemma EntryRoom(g: Granule, m0: Mem, m: Mem, a: nat, l: nat, lo: nat, pa: nat, d: nat, size: nat)
    requires g.Ok() && d < size
    requires Fits(g, m0, Some(a), l, lo, pa, size) <==> Fits(g, m0, Some(a), l, lo + d, pa + d, size - d)
    requires |m.pool| + Missing(g, m0, Some(a), l, lo, pa, size) == |m0.pool| + Missing(g, m0, Some(a), l, lo + d, pa + d, size - d)
    requires var i, r, c, e := Index(g, l, lo + d), Off(g, l, lo + d), ChunkOf(g, l, lo + d, size - d), EntryIn(m0, Some(a), Index(g, l, lo + d));
      && EntryIn(m, Some(a), i) == e
      && FitsEntry(g, m, e, l, r, pa + d, c) == FitsEntry(g, m0, e, l, r, pa + d, c)
      && MissingEntry(g, m, e, l, r, pa + d, c) == MissingEntry(g, m0, e, l, r, pa + d, c)
    ensures Room(g, m0, a, l, lo, pa, size) ==>
      RoomEntry(g, m, a, l, Index(g, l, lo + d), Off(g, l, lo + d), pa + d, ChunkOf(g, l, lo + d, size - d))
  {
    hide FitsEntry, MissingEntry, EntryIn, Index, Off, ChunkOf;
  }

  // The next chunk has room now exactly if it had from the beginning; without,
  // there is no room for all.
  lemma NextRoom(g: Granule, m0: Mem, y0: Layout, m: Mem, y: Layout, a: nat, l: nat, lo: nat, pa: nat, d: nat, size: nat, attrs: Attrs)
    requires SoFar(g, m0, y0, m, y, a, l, lo, pa, d, size, attrs) && d < size
    ensures g.Ok()
    ensures var i, c := Index(g, l, lo + d), ChunkOf(g, l, lo + d, size - d);
      Room(g, m0, a, l, lo, pa, size) ==> RoomEntry(g, m, a, l, i, Off(g, l, lo + d), pa + d, c)
  {
    SoFarRoom(g, m0, y0, m, y, a, l, lo, pa, d, size, attrs);
    hide *;
    var i, c := Index(g, l, lo + d), ChunkOf(g, l, lo + d, size - d);
    EntryFrame(g, m0, y0, m, y, a, l, i, Off(g, l, lo + d), pa + d, c);
    EntryRoom(g, m0, m, a, l, lo, pa, d, size);
  }

  lemma SoFarNext(g: Granule, m0: Mem, y0: Layout, m1: Mem, y1: Layout, m: Mem, y: Layout,
                  a: nat, l: nat, lo: nat, pa: nat, d: nat, k: nat, size: nat, attrs: Attrs)
    requires SoFar(g, m0, y0, m1, y1, a, l, lo, pa, d, size, attrs) && d < size && g.Ok()
    requires k == ChunkOf(g, l, lo + d, size - d)
    requires MapDone(g, m1, y1, m, y, a, l, lo + d, pa + d, k, attrs)
    requires var i, r := Index(g, l, lo + d), Off(g, l, lo + d);
      RoomEntry(g, m1, a, l, i, r, pa + d, k) && TookEntry(g, m1, y1, m, y, a, l, i, r, pa + d, k)
    ensures SoFar(g, m0, y0, m, y, a, l, lo, pa, d + k, size, attrs)
  {
    MapNext(g, m0, y0, m1, y1, m, y, a, l, lo, pa, d, k, attrs);
    RoomNext(g, m0, y0, m1, y1, m, y, a, l, lo, pa, d, k, size);
  }

  lemma RoomNext(g: Granule, m0: Mem, y0: Layout, m1: Mem, y1: Layout, m: Mem, y: Layout, a: nat, l: nat, lo: nat, pa: nat, d: nat, k: nat, size: nat)
    requires Wf(g, m0, y0) && a in m0.tables && Level(y0, a) == l
    requires RoomLeft(g, m0, y0, m1, y1, a, l, lo, pa, d, size) && d < size && k == ChunkOf(g, l, lo + d, size - d)
    requires var i, r := Index(g, l, lo + d), Off(g, l, lo + d);
      RoomEntry(g, m1, a, l, i, r, pa + d, k) && TookEntry(g, m1, y1, m, y, a, l, i, r, pa + d, k)
    ensures RoomLeft(g, m0, y0, m, y, a, l, lo, pa, d + k, size)
  {
    var i, r := Index(g, l, lo + d), Off(g, l, lo + d);
    EntryFrame(g, m0, y0, m1, y1, a, l, i, r, pa + d, k);
    NextIndex(g, l, lo + d, size - d);
    if d + k < size {
      SameFromStep(m0, y0, m1, y1, m, y, a, i, i, i + 1);
    }
  }

  lemma SoFarFails(g: Granule, m0: Mem, y0: Layout, m1: Mem, y1: Layout, m: Mem, y: Layout,
                   a: nat, l: nat, lo: nat, pa: nat, d: nat, size: nat, attrs: Attrs)
    requires SoFar(g, m0, y0, m1, y1, a, l, lo, pa, d, size, attrs)
    requires Wf(g, m1, y1) && a in m1.tables && Level(y1, a) == l
    requires Unchanged(g, m1, y1, m, y, a, l)
    ensures MapDone(g, m0, y0, m, y, a, l, lo, pa, d, attrs)
    ensures Wf(g, m, y) && a in m.tables && Level(y, a) == l && Reach(g, m, a, l) == Reach(g, m1, a, l)
  {
    UnchangedFacts(g, m1, y1, m, y, a, l);
    UnchangedAfterMap(g, m0, y0, m1, y1, m, y, a, l, lo, pa, d, attrs);
  }

  lemma SoFarDone(g: Granule, m0: Mem, y0: Layout, m: Mem, y: Layout, a: nat, l: nat, lo: nat, pa: nat, size: nat, attrs: Attrs)
    requires SoFar(g, m0, y0, m, y, a, l, lo, pa, size, size, attrs)
    ensures MapDone(g, m0, y0, m, y, a, l, lo, pa, size, attrs) && Took(g, m0, y0, m, y, a, l, lo, pa, size)
    ensures Room(g, m0, a, l, lo, pa, size)
  {
  }

  lemma WholeAtLeast(g: Granule, vrel: nat, paddr: nat, size: nat)
    requires PageAligned(g, vrel, paddr, size) && 0 < size
    ensures g.page <= size
  {
    ChunkAtLeast(g, size);
  }

  lemma ChunkAtLeast(g: Granule, k: nat)
    requires Aligned(k, g.page) && 0 < k
    ensures g.page <= k
  {
    SelfAligned(g.page);
    AlignedGap(0, k, g.page);
  }

  lemma WholePages(g: Granule, vrel: nat, paddr: nat, size: nat)
    requires PageAligned(g, vrel, paddr, size)
    ensures g.page > 0 && vrel % g.page == 0 && paddr % g.page == 0 && size % g.page == 0
  {
  }
}
