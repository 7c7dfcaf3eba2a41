module PageTableMap {
  import opened Common
  import opened Align
  import opened PageFlags
  import opened PageTables
  import opened PageTableSteps
  import opened PageTableLean
  import opened PageTableRoom
  import opened PageTableUnmap

  datatype Status = NoError | ErrInvalidArgs | ErrGeneric | ErrOutOfRange | ErrNotFound

  // h translates the address at distance d into the request, by a block that
  // lies within the size addresses of the request.
  ghost predicate Serves(h: Option<Hit>, d: int, pa: nat, size: nat, attrs: Attrs) {
    h.Some? && h.value.Paddr() == pa + d && h.value.attrs == attrs && h.value.off < h.value.size
    && h.value.off <= d && d - h.value.off + h.value.size <= size
  }

  // Exactly the size addresses from lo, untranslated before, now translate to
  // those from pa.
  ghost predicate MappedAt(w: Option<Hit>, w': Option<Hit>, v: int, lo: int, pa: nat, size: nat, attrs: Attrs) {
    if lo <= v < lo + size then w == None && Serves(w', v - lo, pa, size, attrs) else w' == w
  }

  ghost predicate Mapped(g: Granule, m: Mem, m': Mem, a: nat, l: nat, lo: nat, pa: nat, size: nat, attrs: Attrs) {
    g.Ok() && forall v: nat {:trigger Walk(g, m', a, l, v)} ::
      MappedAt(Walk(g, m, a, l, v), Walk(g, m', a, l, v), v, lo, pa, size, attrs)
  }

  ghost predicate SameWalks(g: Granule, m: Mem, m': Mem, a: nat, l: nat) {
    g.Ok() && forall v: nat {:trigger Walk(g, m', a, l, v)} :: Walk(g, m', a, l, v) == Walk(g, m, a, l, v)
  }

  lemma MapTwice(g: Granule, m: Mem, m1: Mem, m2: Mem, a: nat, l: nat, lo: nat, pa: nat, d: nat, k: nat, attrs: Attrs)
    requires Mapped(g, m, m1, a, l, lo, pa, d, attrs) && Mapped(g, m1, m2, a, l, lo + d, pa + d, k, attrs)
    ensures Mapped(g, m, m2, a, l, lo, pa, d + k, attrs)
  {
    forall v: nat
      ensures MappedAt(Walk(g, m, a, l, v), Walk(g, m2, a, l, v), v, lo, pa, d + k, attrs)
    {
      assert MappedAt(Walk(g, m, a, l, v), Walk(g, m1, a, l, v), v, lo, pa, d, attrs);
      assert MappedAt(Walk(g, m1, a, l, v), Walk(g, m2, a, l, v), v, lo + d, pa + d, k, attrs);
    }
  }

  // The block of an address outside the request does not reach into it.
  lemma BlockApart(g: Granule, m: Mem, m1: Mem, y1: Layout, a: nat, l: nat, lo: nat, pa: nat, d: nat, attrs: Attrs, v: nat)
    requires Wf(g, m1, y1) && a in m1.tables && Level(y1, a) == l
    requires Mapped(g, m, m1, a, l, lo, pa, d, attrs)
    requires !(lo <= v < lo + d) && Walk(g, m1, a, l, v).Some?
    ensures Removed(Walk(g, m1, a, l, v), v, lo, d) == Walk(g, m1, a, l, v)
  {
    WalkBlock(g, m1, y1, a, l, v);
    var h := Walk(g, m1, a, l, v).value;
    var s := v - h.off;
    var u := if s < lo then lo else s;
    if u < s + h.size {
      assert Walk(g, m1, a, l, u) == Some(h.At(u - s));
      assert MappedAt(Walk(g, m, a, l, u), Walk(g, m1, a, l, u), u, lo, pa, d, attrs);
    }
  }

  // Unmapping what has been mapped so far restores every translation.
  lemma Rollback(g: Granule, m: Mem, m1: Mem, y1: Layout, m2: Mem, a: nat, l: nat, lo: nat, pa: nat, d: nat, attrs: Attrs)
    requires Wf(g, m1, y1) && a in m1.tables && Level(y1, a) == l
    requires Mapped(g, m, m1, a, l, lo, pa, d, attrs) && Unmapped(g, m1, m2, a, l, lo, d)
    ensures SameWalks(g, m, m2, a, l)
  {
    forall v: nat
      ensures Walk(g, m2, a, l, v) == Walk(g, m, a, l, v)
    {
      var w := Walk(g, m1, a, l, v);
      assert Walk(g, m2, a, l, v) == Removed(w, v, lo, d);
      assert MappedAt(Walk(g, m, a, l, v), w, v, lo, pa, d, attrs);
      if w.Some? && !(lo <= v < lo + d) {
        BlockApart(g, m, m1, y1, a, l, lo, pa, d, attrs, v);
      }
    }
  }

  lemma EntryMapped(g: Granule, m: Mem, y: Layout, m': Mem, a: nat, l: nat, i: nat, lo: nat, pa: nat, k: nat, attrs: Attrs)
    requires Wf(g, m, y) && a in m.tables && Level(y, a) == l
    requires EntryChanged(m, y, m', a, i)
    requires Start(g, l, i) <= lo && lo + k <= Start(g, l, i) + Block(g, l)
    requires forall r: nat :: r < Block(g, l) ==>
      MappedAt(WalkEntry(g, m, m.tables[a][i], l, r), WalkEntry(g, m', m'.tables[a][i], l, r), r, lo - Start(g, l, i), pa, k, attrs)
    ensures Mapped(g, m, m', a, l, lo, pa, k, attrs)
  {
    forall v: nat
      ensures MappedAt(Walk(g, m, a, l, v), Walk(g, m', a, l, v), v, lo, pa, k, attrs)
    {
      if Start(g, l, i) <= v < Start(g, l, i) + Block(g, l) {
        var r := v - Start(g, l, i);
        WalkAt(g, m, a, l, i, v);
        WalkAt(g, m', a, l, i, v);
        assert MappedAt(WalkEntry(g, m, m.tables[a][i], l, r), WalkEntry(g, m', m'.tables[a][i], l, r), r, lo - Start(g, l, i), pa, k, attrs);
      } else {
        ElsewhereSame(g, m, y, m', a, l, i, v);
      }
    }
  }

  // ---------- the chunks of arm64_mmu_map_pt ----------

  // The table stays where it is, and nothing outside of it changes.
  ghost predicate Kept(g: Granule, m: Mem, y: Layout, m': Mem, y': Layout, a: nat) {
    && Wf(g, m', y') && a in m.tables && a in y.path && a in m'.tables && y'.path[a] == y.path[a]
    && |m'.tables[a]| == |m.tables[a]|
    && Outside(m, y, m', y', y.path[a])
  }

  ghost predicate MapDone(g: Granule, m: Mem, y: Layout, m': Mem, y': Layout, a: nat, l: nat, lo: nat, pa: nat, size: nat, attrs: Attrs) {
    Kept(g, m, y, m', y', a) && Mapped(g, m, m', a, l, lo, pa, size, attrs)
  }

  ghost predicate Unchanged(g: Granule, m: Mem, y: Layout, m': Mem, y': Layout, a: nat, l: nat) {
    Kept(g, m, y, m', y', a) && SameWalks(g, m, m', a, l)
  }

  function LeafPte(l: nat, pa: nat, attrs: Attrs): Pte {
    Pte(if l > 0 then BLOCK else PAGE, pa, attrs)
  }

  lemma MapLeaf(g: Granule, m: Mem, y: Layout, a: nat, l: nat, i: nat, lo: nat, pa: nat, attrs: Attrs)
    requires InEntry(g, m, y, a, l, i, lo, Block(g, l)) && m.tables[a][i] == CLEAR
    ensures MapDone(g, m, y, m.SetEntry(a, i, LeafPte(l, pa, attrs)), y, a, l, lo, pa, Block(g, l), attrs)
  {
    var e := LeafPte(l, pa, attrs);
    WriteWf(g, m, y, a, i, e);
    EntryMapped(g, m, y, m.SetEntry(a, i, e), a, l, i, lo, pa, Block(g, l), attrs);
  }

  // The table of entry i, which is allocated if the entry is clear.
  method GetPageTable(g: Granule, m0: Mem, ghost y0: Layout, a: nat, l: nat, i: nat)
    returns (c: Option<nat>, m: Mem, ghost y: Layout)
    requires Wf(g, m0, y0) && a in m0.tables && Level(y0, a) == l > 0 && i < |m0.tables[a]|
    ensures Unchanged(g, m0, y0, m, y, a, l)
    ensures a in m.tables && |m.tables[a]| == |m0.tables[a]|
    ensures c.Some? ==> m.tables[a][i] == TablePte(c.value)
    ensures c == None <==> m0.tables[a][i].desc == BLOCK || (m0.tables[a][i] == CLEAR && m0.pool == {})
    ensures a in y.path && OnlyEntry(m0, y0, m, y, a, i)
    ensures c == None || m0.tables[a][i].desc == TABLE ==> m == m0 && y == y0
    ensures c.Some? && m0.tables[a][i].desc != TABLE ==>
      m0.tables[a][i] == CLEAR && Empty(m, c.value) && |m0.pool| == |m.pool| + 1
    ensures c.Some? && Lean(m0, y0, y0.path[a]) ==> LeanElse(m, y, y.path[a], i) && Lean(m, y, y.path[a] + [i])
  {
    EntryShape(g, m0, y0, a, l, i);
    OutsideRefl(m0, y0, y0.path[a]);
    m, y, c := m0, y0, None;
    LeanSplit(m, y, y.path[a], i);
    OnlyRefl(m, y, a, i);
    var pte := m.tables[a][i];
    if pte.desc == INVALID {
      if m.pool != {} {
        var p :| p in m.pool;
        AddWf(g, m, y, a, i, p);
        AddWalk(g, m, y, a, l, i, p);
        AddOnly(g, m, y, a, i, p);
        if Lean(m, y, y.path[a]) {
          LeanAdd(g, m, y, a, i, p);
        }
        c := Some(p);
        m, y := AddTable(g, m, a, i, p), AddPath(y, a, i, p);
      }
    } else if pte.desc == TABLE {
      c := Some(pte.addr);
    }
  }

  lemma MapBelow(g: Granule, m: Mem, y: Layout, m': Mem, y': Layout, a: nat, l: nat, i: nat, c: nat, lo: nat, pa: nat, k: nat, attrs: Attrs)
    requires InEntry(g, m, y, a, l, i, lo, k) && l > 0 && m.tables[a][i] == TablePte(c)
    requires c in y.path && y.path[c] == y.path[a] + [i]
    requires MapDone(g, m, y, m', y', c, l - 1, lo - Start(g, l, i), pa, k, attrs)
    ensures MapDone(g, m, y, m', y', a, l, lo, pa, k, attrs)
  {
    OutsideBelow(g, m, y, m', y', a, i);
    var e, d := m.tables[a][i], lo - Start(g, l, i);
    forall r: nat | r < Block(g, l)
      ensures MappedAt(WalkEntry(g, m, e, l, r), WalkEntry(g, m', e, l, r), r, d, pa, k, attrs)
    {
      assert MappedAt(Walk(g, m, c, l - 1, r), Walk(g, m', c, l - 1, r), r, d, pa, k, attrs);
    }
    EntryMapped(g, m, y, m', a, l, i, lo, pa, k, attrs);
  }

  lemma UnchangedBelow(g: Granule, m: Mem, y: Layout, m': Mem, y': Layout, a: nat, l: nat, i: nat, c: nat)
    requires Wf(g, m, y) && a in m.tables && Level(y, a) == l > 0 && i < |m.tables[a]|
    requires m.tables[a][i] == TablePte(c) && c in y.path && y.path[c] == y.path[a] + [i]
    requires Unchanged(g, m, y, m', y', c, l - 1)
    ensures Unchanged(g, m, y, m', y', a, l)
  {
    OutsideBelow(g, m, y, m', y', a, i);
    forall v: nat
      ensures Walk(g, m', a, l, v) == Walk(g, m, a, l, v)
    {
      if Start(g, l, i) <= v < Start(g, l, i) + Block(g, l) {
        WalkAt(g, m, a, l, i, v);
        WalkAt(g, m', a, l, i, v);
        assert Walk(g, m', c, l - 1, v - Start(g, l, i)) == Walk(g, m, c, l - 1, v - Start(g, l, i));
      } else {
        ElsewhereSame(g, m, y, m', a, l, i, v);
      }
    }
  }

  // ---------- arm64_mmu_map_pt, without replace ----------

  lemma KeptTrans(g: Granule, m: Mem, y: Layout, m1: Mem, y1: Layout, m2: Mem, y2: Layout, a: nat)
    requires Wf(g, m, y) && Kept(g, m, y, m1, y1, a) && Kept(g, m1, y1, m2, y2, a)
    ensures Kept(g, m, y, m2, y2, a)
  {
    OutsideTrans(m, y, m1, y1, m2, y2, y.path[a]);
  }

  lemma UnchangedTrans(g: Granule, m: Mem, y: Layout, m1: Mem, y1: Layout, m2: Mem, y2: Layout, a: nat, l: nat)
    requires Wf(g, m, y) && Unchanged(g, m, y, m1, y1, a, l) && Unchanged(g, m1, y1, m2, y2, a, l)
    ensures Unchanged(g, m, y, m2, y2, a, l)
  {
    KeptTrans(g, m, y, m1, y1, m2, y2, a);
    forall v: nat
      ensures Walk(g, m2, a, l, v) == Walk(g, m, a, l, v)
    {
      assert Walk(g, m1, a, l, v) == Walk(g, m, a, l, v);
    }
  }

  lemma MapAfterUnchanged(g: Granule, m: Mem, y: Layout, m1: Mem, y1: Layout, m2: Mem, y2: Layout,
                          a: nat, l: nat, lo: nat, pa: nat, size: nat, attrs: Attrs)
    requires Wf(g, m, y) && Unchanged(g, m, y, m1, y1, a, l) && MapDone(g, m1, y1, m2, y2, a, l, lo, pa, size, attrs)
    ensures MapDone(g, m, y, m2, y2, a, l, lo, pa, size, attrs)
  {
    KeptTrans(g, m, y, m1, y1, m2, y2, a);
    forall v: nat
      ensures MappedAt(Walk(g, m, a, l, v), Walk(g, m2, a, l, v), v, lo, pa, size, attrs)
    {
      assert Walk(g, m1, a, l, v) == Walk(g, m, a, l, v);
      assert MappedAt(Walk(g, m1, a, l, v), Walk(g, m2, a, l, v), v, lo, pa, size, attrs);
    }
  }

  lemma UnchangedAfterMap(g: Granule, m: Mem, y: Layout, m1: Mem, y1: Layout, m2: Mem, y2: Layout,
                          a: nat, l: nat, lo: nat, pa: nat, size: nat, attrs: Attrs)
    requires Wf(g, m, y) && MapDone(g, m, y, m1, y1, a, l, lo, pa, size, attrs) && Unchanged(g, m1, y1, m2, y2, a, l)
    ensures MapDone(g, m, y, m2, y2, a, l, lo, pa, size, attrs)
  {
    KeptTrans(g, m, y, m1, y1, m2, y2, a);
    forall v: nat
      ensures MappedAt(Walk(g, m, a, l, v), Walk(g, m2, a, l, v), v, lo, pa, size, attrs)
    {
      assert Walk(g, m2, a, l, v) == Walk(g, m1, a, l, v);
      assert MappedAt(Walk(g, m, a, l, v), Walk(g, m1, a, l, v), v, lo, pa, size, attrs);
    }
  }

  lemma MapNothing(g: Granule, m: Mem, y: Layout, a: nat, l: nat, lo: nat, pa: nat, attrs: Attrs)
    requires Wf(g, m, y) && a in m.tables
    ensures MapDone(g, m, y, m, y, a, l, lo, pa, 0, attrs)
    ensures Unchanged(g, m, y, m, y, a, l)
  {
    OutsideRefl(m, y, y.path[a]);
  }

  lemma MapNext(g: Granule, m: Mem, y: Layout, m1: Mem, y1: Layout, m2: Mem, y2: Layout,
                a: nat, l: nat, lo: nat, pa: nat, d: nat, k: nat, attrs: Attrs)
    requires Wf(g, m, y) && a in m.tables && Level(y, a) == l
    requires MapDone(g, m, y, m1, y1, a, l, lo, pa, d, attrs)
    requires MapDone(g, m1, y1, m2, y2, a, l, lo + d, pa + d, k, attrs)
    ensures MapDone(g, m, y, m2, y2, a, l, lo, pa, d + k, attrs)
    ensures Wf(g, m2, y2) && a in m2.tables && Level(y2, a) == l && a in m1.tables && Reach(g, m2, a, l) == Reach(g, m1, a, l)
  {
    KeptTrans(g, m, y, m1, y1, m2, y2, a);
    MapTwice(g, m, m1, m2, a, l, lo, pa, d, k, attrs);
  }

  lemma RollbackDone(g: Granule, m: Mem, y: Layout, m1: Mem, y1: Layout, m2: Mem, y2: Layout,
                     a: nat, l: nat, lo: nat, pa: nat, d: nat, attrs: Attrs)
    requires Wf(g, m, y) && a in m.tables && Level(y, a) == l
    requires MapDone(g, m, y, m1, y1, a, l, lo, pa, d, attrs)
    requires UnmapDone(g, m1, y1, m2, y2, a, l, lo, d)
    ensures Unchanged(g, m, y, m2, y2, a, l)
  {
    Rollback(g, m, m1, y1, m2, a, l, lo, pa, d, attrs);
    KeptTrans(g, m, y, m1, y1, m2, y2, a);
  }

  lemma UnchangedFacts(g: Granule, m: Mem, y: Layout, m1: Mem, y1: Layout, a: nat, l: nat)
    requires Wf(g, m, y) && a in m.tables && Level(y, a) == l && Unchanged(g, m, y, m1, y1, a, l)
    ensures Wf(g, m1, y1) && a in m1.tables && Level(y1, a) == l && Reach(g, m1, a, l) == Reach(g, m, a, l)
    ensures a in y.path && a in y1.path && y1.path[a] == y.path[a]
  {
  }

  ghost predicate PageAligned(g: Granule, vrel: nat, paddr: nat, size: nat) {
    Aligned(vrel, g.page) && Aligned(paddr, g.page) && Aligned(size, g.page)
  }

  lemma {:induction false} BlockAligned(g: Granule, l: nat)
    requires g.Ok()
    ensures Aligned(Block(g, l), g.page)
  {
    if l == 0 {
      SelfAligned(g.page);
    } else {
      BlockAligned(g, l - 1);
      BlockPositive(g, l - 1);
      MultipleAligned(g.fan, Block(g, l - 1));
      AlignedThrough(Block(g, l), Block(g, l - 1), g.page);
    }
  }

  lemma StartAligned(g: Granule, l: nat, i: nat)
    requires g.Ok()
    ensures Aligned(Start(g, l, i), g.page)
  {
    BlockAligned(g, l);
    BlockPositive(g, l);
    MultipleAligned(i, Block(g, l));
    AlignedThrough(Start(g, l, i), Block(g, l), g.page);
  }

  // A chunk is made of whole pages; on level 0 it is one page.
  lemma PageChunk(g: Granule, l: nat, i: nat, vrel: nat, paddr: nat, size: nat, vrem: nat, chunk: nat)
    requires g.Ok() && 0 < chunk <= size && PageAligned(g, vrel, paddr, size)
    requires vrel == Start(g, l, i) + vrem && vrem + chunk <= Block(g, l)
    requires chunk == size || vrem + chunk == Block(g, l)
    ensures PageAligned(g, vrel + chunk, paddr + chunk, size - chunk) && PageAligned(g, vrem, paddr, chunk)
    ensures Aligned(chunk, g.page) && (l == 0 ==> vrem == 0 && chunk == Block(g, l))
  {
    StartAligned(g, l, i);
    BlockAligned(g, l);
    SelfAligned(g.page);
    hide Aligned;
    AlignedDifference(Start(g, l, i), vrel, g.page);
    if chunk != size {
      AlignedDifference(vrem, Block(g, l), g.page);
    }
    AlignedSum(vrel, chunk, g.page);
    AlignedSum(paddr, chunk, g.page);
    AlignedDifference(chunk, size, g.page);
    AlignedGap(0, chunk, g.page);
    AlignedGap(0, vrem, g.page);
  }
}
