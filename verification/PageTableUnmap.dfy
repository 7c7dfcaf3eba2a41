module PageTableUnmap {
  import opened Common
  import opened Align
  import opened PageFlags
  import opened PageTables
  import opened PageTableSteps
  import opened PageTableLean
  import opened PageTableRoom

  // What is left of a translation when every block or page that touches the
  // size addresses from lo is removed.
  function Removed(h: Option<Hit>, v: nat, lo: nat, size: nat): Option<Hit> {
    if h.Some? && size > 0 && v < lo + size + h.value.off && lo + h.value.off < v + h.value.size then None else h
  }

  ghost predicate Unmapped(g: Granule, m: Mem, m': Mem, a: nat, l: nat, lo: nat, size: nat) {
    g.Ok() && forall v: nat {:trigger Walk(g, m', a, l, v)} :: Walk(g, m', a, l, v) == Removed(Walk(g, m, a, l, v), v, lo, size)
  }

  lemma UnmapNothing(g: Granule, m: Mem, a: nat, l: nat, lo: nat)
    requires g.Ok()
    ensures Unmapped(g, m, m, a, l, lo, 0)
  {
  }

  lemma UnmapTwice(g: Granule, m: Mem, y: Layout, m1: Mem, m2: Mem, a: nat, l: nat, lo: nat, d: nat, k: nat)
    requires Wf(g, m, y) && a in m.tables && Level(y, a) == l
    requires Unmapped(g, m, m1, a, l, lo, d) && Unmapped(g, m1, m2, a, l, lo + d, k)
    ensures Unmapped(g, m, m2, a, l, lo, d + k)
  {
    forall v: nat
      ensures Walk(g, m2, a, l, v) == Removed(Walk(g, m, a, l, v), v, lo, d + k)
    {
      var h := Walk(g, m, a, l, v);
      assert Walk(g, m1, a, l, v) == Removed(h, v, lo, d);
      if h.Some? {
        WalkBlock(g, m, y, a, l, v);
      }
    }
  }

  // A block found below another entry does not touch entry i.
  lemma ElsewhereKept(g: Granule, m: Mem, y: Layout, a: nat, l: nat, i: nat, v: nat, lo: nat, k: nat)
    requires Wf(g, m, y) && a in m.tables && Level(y, a) == l && i < |m.tables[a]|
    requires Start(g, l, i) <= lo && lo + k <= Start(g, l, i) + Block(g, l)
    requires !(Start(g, l, i) <= v < Start(g, l, i) + Block(g, l))
    ensures Removed(Walk(g, m, a, l, v), v, lo, k) == Walk(g, m, a, l, v)
  {
    var j := IndexOf(g, m, a, l, v);
    if Walk(g, m, a, l, v).Some? {
      WalkAt(g, m, a, l, j, v);
      EntryBlock(g, m, y, a, l, j, v - Start(g, l, j));
      Order(i, j, Block(g, l));
      Order(j, i, Block(g, l));
    }
  }

  lemma EntryUnmapped(g: Granule, m: Mem, y: Layout, m': Mem, a: nat, l: nat, i: nat, lo: nat, k: nat)
    requires Wf(g, m, y) && a in m.tables && Level(y, a) == l
    requires EntryChanged(m, y, m', a, i)
    requires Start(g, l, i) <= lo && lo + k <= Start(g, l, i) + Block(g, l)
    requires forall r: nat :: r < Block(g, l) ==>
      WalkEntry(g, m', m'.tables[a][i], l, r) == Removed(WalkEntry(g, m, m.tables[a][i], l, r), r, lo - Start(g, l, i), k)
    ensures Unmapped(g, m, m', a, l, lo, k)
  {
    forall v: nat
      ensures Walk(g, m', a, l, v) == Removed(Walk(g, m, a, l, v), v, lo, k)
    {
      if Start(g, l, i) <= v < Start(g, l, i) + Block(g, l) {
        WalkAt(g, m, a, l, i, v);
        WalkAt(g, m', a, l, i, v);
      } else {
        ElsewhereSame(g, m, y, m', a, l, i, v);
        ElsewhereKept(g, m, y, a, l, i, v, lo, k);
      }
    }
  }

  // Clearing a page or block descriptor removes the whole block, however
  // little of it was asked for.
  lemma ClearUnmapped(g: Granule, m: Mem, y: Layout, a: nat, l: nat, i: nat, lo: nat, k: nat)
    requires Wf(g, m, y) && a in m.tables && Level(y, a) == l && i < |m.tables[a]|
    requires NoTable(l, m.tables[a][i])
    requires Start(g, l, i) <= lo && 0 < k && lo + k <= Start(g, l, i) + Block(g, l)
    ensures Unmapped(g, m, m.SetEntry(a, i, CLEAR), a, l, lo, k)
  {
    WriteWf(g, m, y, a, i, CLEAR);
    EntryUnmapped(g, m, y, m.SetEntry(a, i, CLEAR), a, l, i, lo, k);
  }

  // ---------- frames ----------

  lemma OutsideRefl(m: Mem, y: Layout, p: seq<nat>)
    ensures Outside(m, y, m, y, p)
  {
  }

  lemma OutsideTrans(m: Mem, y: Layout, m1: Mem, y1: Layout, m2: Mem, y2: Layout, p: seq<nat>)
    requires m.tables.Keys == y.path.Keys
    requires Outside(m, y, m1, y1, p) && Outside(m1, y1, m2, y2, p)
    ensures Outside(m, y, m2, y2, p)
  {
    forall b | b in m.tables && b in y.path && !(p <= y.path[b])
      ensures b in m2.tables && b in y2.path && m2.tables[b] == m.tables[b] && y2.path[b] == y.path[b]
    {
      assert b in m1.tables;
    }
  }

  // What changes only below the table of entry i changes only below entry i.
  lemma OutsideBelow(g: Granule, m: Mem, y: Layout, m': Mem, y': Layout, a: nat, i: nat)
    requires Wf(g, m, y) && a in m.tables && i < |m.tables[a]|
    requires Outside(m, y, m', y', y.path[a] + [i])
    ensures Outside(m, y, m', y', y.path[a])
    ensures a in m'.tables && a in y'.path && m'.tables[a] == m.tables[a] && y'.path[a] == y.path[a]
    ensures EntryChanged(m, y, m', a, i)
  {
    var p := y.path[a];
    assert !(p + [i] <= p);
    assert a in m'.tables;
    assert p <= p + [i];
  }

  // ---------- arm64_mmu_unmap_pt ----------

  method IsClear(m: Mem, a: nat) returns (clear: bool)
    requires a in m.tables
    ensures clear <==> Empty(m, a)
  {
    var i := 0;
    while i < |m.tables[a]|
      invariant 0 <= i <= |m.tables[a]|
      invariant forall j :: 0 <= j < i ==> m.tables[a][j] == CLEAR
    {
      if m.tables[a][i] != CLEAR {
        return false;
      }
      i := i + 1;
    }
    return true;
  }

  // Every entry of table a that lies within lo and hi is clear.
  ghost predicate Cleared(g: Granule, m: Mem, a: nat, l: nat, lo: nat, hi: nat) {
    a in m.tables && forall j {:trigger m.tables[a][j]} :: 0 <= j < |m.tables[a]| && lo <= Start(g, l, j) && Start(g, l, j) + Block(g, l) <= hi ==>
      m.tables[a][j] == CLEAR
  }

  // What one chunk of an unmap does to the table a it works on.
  ghost predicate UnmapDone(g: Granule, m: Mem, y: Layout, m': Mem, y': Layout, a: nat, l: nat, lo: nat, size: nat) {
    && Wf(g, m', y') && a in m.tables && a in y.path && a in m'.tables && y'.path[a] == y.path[a]
    && |m'.tables[a]| == |m.tables[a]|
    && Outside(m, y, m', y', y.path[a])
    && Unmapped(g, m, m', a, l, lo, size)
  }

  // One chunk within entry i: the other entries stay, and a whole chunk leaves
  // the entry clear.
  ghost predicate ChunkDone(g: Granule, m: Mem, y: Layout, m': Mem, y': Layout, a: nat, l: nat, i: nat, lo: nat, k: nat) {
    && UnmapDone(g, m, y, m', y', a, l, lo, k)
    && (forall j :: 0 <= j < |m.tables[a]| && j != i ==> m'.tables[a][j] == m.tables[a][j])
    && (k == Block(g, l) && i < |m.tables[a]| ==> m'.tables[a][i] == CLEAR)
  }

  // Where the chunk that starts at vrel lies.
  ghost predicate InEntry(g: Granule, m: Mem, y: Layout, a: nat, l: nat, i: nat, lo: nat, k: nat) {
    && Wf(g, m, y) && a in m.tables && Level(y, a) == l && i < |m.tables[a]|
    && Start(g, l, i) <= lo && 0 < k && lo + k <= Start(g, l, i) + Block(g, l)
  }

  ghost predicate AtEntry(g: Granule, l: nat, v: nat) {
    Block(g, l) > 0 && v % Block(g, l) == 0
  }

  lemma ChunkBounds(g: Granule, m: Mem, a: nat, l: nat, vrel: nat, size: nat)
    requires g.Ok() && a in m.tables && 0 < size && vrel + size <= Reach(g, m, a, l)
    ensures var B := Block(g, l);
      B > 0 && vrel / B < |m.tables[a]| && vrel == Start(g, l, vrel / B) + vrel % B && vrel % B < B
      && (vrel + (B - vrel % B)) % B == 0
  {
    var i := IndexOf(g, m, a, l, vrel);
    var B := Block(g, l);
    EntryOf(B, i + 1, vrel + (B - vrel % B));
  }

  // The next chunk of the range: what of it lies in one entry.
  method NextChunk(g: Granule, m: Mem, ghost y: Layout, a: nat, l: nat, vrel: nat, size: nat)
    returns (index: nat, vrem: nat, chunk: nat)
    requires Wf(g, m, y) && a in m.tables && Level(y, a) == l && 0 < size && vrel + size <= Reach(g, m, a, l)
    ensures 0 < chunk <= size && index < |m.tables[a]| && InEntry(g, m, y, a, l, index, vrel, chunk)
    ensures vrel == Start(g, l, index) + vrem && vrem + chunk <= Block(g, l) && 0 < Block(g, l)
    ensures AtEntry(g, l, vrel) ==> vrem == 0
    ensures AtEntry(g, l, vrel + chunk) || chunk == size
    ensures chunk == size || vrem + chunk == Block(g, l)
    ensures g.Ok() && index == Index(g, l, vrel) && vrem == Off(g, l, vrel) && chunk == ChunkOf(g, l, vrel, size)
  {
    ChunkBounds(g, m, a, l, vrel, size);
    var block := Block(g, l);
    vrem := vrel % block;
    chunk := if size < block - vrem then size else block - vrem;
    index := vrel / block;
  }

  lemma UnmapLeaf(g: Granule, m: Mem, y: Layout, a: nat, l: nat, i: nat, lo: nat, k: nat)
    requires InEntry(g, m, y, a, l, i, lo, k) && NoTable(l, m.tables[a][i])
    ensures ChunkDone(g, m, y, m.SetEntry(a, i, CLEAR), y, a, l, i, lo, k)
  {
    WriteWf(g, m, y, a, i, CLEAR);
    ClearUnmapped(g, m, y, a, l, i, lo, k);
  }

  lemma UnmapHole(g: Granule, m: Mem, y: Layout, a: nat, l: nat, i: nat, lo: nat, k: nat)
    requires InEntry(g, m, y, a, l, i, lo, k) && m.tables[a][i] == CLEAR
    ensures ChunkDone(g, m, y, m, y, a, l, i, lo, k)
  {
    EntryUnmapped(g, m, y, m, a, l, i, lo, k);
  }

  lemma UnmapBelow(g: Granule, m: Mem, y: Layout, m': Mem, y': Layout, a: nat, l: nat, i: nat, c: nat, lo: nat, k: nat)
    requires InEntry(g, m, y, a, l, i, lo, k) && l > 0 && m.tables[a][i] == TablePte(c)
    requires c in y.path && y.path[c] == y.path[a] + [i]
    requires UnmapDone(g, m, y, m', y', c, l - 1, lo - Start(g, l, i), k)
    ensures UnmapDone(g, m, y, m', y', a, l, lo, k)
    ensures a in m'.tables && m'.tables[a] == m.tables[a] && c != a && c in m'.tables
  {
    OutsideBelow(g, m, y, m', y', a, i);
    var e, d := m.tables[a][i], lo - Start(g, l, i);
    forall r: nat | r < Block(g, l)
      ensures WalkEntry(g, m', e, l, r) == Removed(WalkEntry(g, m, e, l, r), r, d, k)
    {
      assert Walk(g, m', c, l - 1, r) == Removed(Walk(g, m, c, l - 1, r), r, d, k);
    }
    EntryUnmapped(g, m, y, m', a, l, i, lo, k);
  }

  lemma FullyCleared(g: Granule, m: Mem, l: nat, c: nat, lo: nat, k: nat)
    requires g.Ok() && l > 0 && c in m.tables && |m.tables[c]| == g.fan
    requires Cleared(g, m, c, l - 1, lo, lo + k) && lo + k <= Block(g, l)
    ensures k == Block(g, l) ==> Empty(m, c)
  {
    if k == Block(g, l) {
      forall j | 0 <= j < |m.tables[c]|
        ensures m.tables[c][j] == CLEAR
      {
        Order(j, g.fan, Block(g, l - 1));
      }
    }
  }

  lemma UnlinkEmpty(g: Granule, m0: Mem, y0: Layout, m: Mem, y: Layout, a: nat, l: nat, i: nat, c: nat, lo: nat, k: nat)
    requires InEntry(g, m0, y0, a, l, i, lo, k) && l > 0
    requires UnmapDone(g, m0, y0, m, y, a, l, lo, k) && m.tables[a] == m0.tables[a]
    requires m.tables[a][i] == TablePte(c) && Empty(m, c)
    ensures c != a
    ensures ChunkDone(g, m0, y0, RemoveTable(m, a, i, c), RemovePath(y, c), a, l, i, lo, k)
  {
    RemoveWf(g, m, y, a, i, c);
    RemoveWalk(g, m, y, a, l, i, c);
    OutsideTrans(m0, y0, m, y, RemoveTable(m, a, i, c), RemovePath(y, c), y.path[a]);
    var m' := RemoveTable(m, a, i, c);
    forall v: nat
      ensures Walk(g, m', a, l, v) == Removed(Walk(g, m0, a, l, v), v, lo, k)
    {
      assert Walk(g, m', a, l, v) == Walk(g, m, a, l, v);
    }
  }

  // The table of entry i after its part of an unmap: what is not empty below
  // it is as before.
  lemma LeanChild(g: Granule, m: Mem, y: Layout, m': Mem, y': Layout, a: nat, l: nat, i: nat, c: nat, lo: nat, k: nat)
    requires Wf(g, m, y) && a in m.tables && i < |m.tables[a]| && c in y.path && y.path[c] == y.path[a] + [i]
    requires UnmapDone(g, m, y, m', y', c, l, lo, k)
    requires Lean(m, y, y.path[c]) ==> Lean(m', y', y'.path[c])
    ensures Lean(m, y, y.path[a]) ==> LeanElse(m', y', y.path[a], i) && Lean(m', y', y.path[a] + [i])
    ensures c in y'.path && y'.path[c] == y.path[a] + [i]
  {
    LeanSplit(m, y, y.path[a], i);
    if Lean(m, y, y.path[a]) {
      LeanOutside(g, m, y, m', y', y.path[a], i);
    }
  }

  lemma UnmapNext(g: Granule, m0: Mem, y0: Layout, m1: Mem, y1: Layout, m: Mem, y: Layout,
                  a: nat, l: nat, vrel0: nat, vrel: nat, k: nat, i: nat)
    requires Wf(g, m0, y0) && a in m0.tables && Level(y0, a) == l && vrel0 <= vrel
    requires UnmapDone(g, m0, y0, m1, y1, a, l, vrel0, vrel - vrel0)
    requires Cleared(g, m1, a, l, vrel0, vrel) && (vrel == vrel0 || vrel == Start(g, l, i))
    requires InEntry(g, m1, y1, a, l, i, vrel, k)
    requires ChunkDone(g, m1, y1, m, y, a, l, i, vrel, k)
    ensures UnmapDone(g, m0, y0, m, y, a, l, vrel0, vrel + k - vrel0)
    ensures Cleared(g, m, a, l, vrel0, vrel + k)
    ensures Wf(g, m, y) && a in m.tables && a in m1.tables && Level(y, a) == l && Reach(g, m, a, l) == Reach(g, m1, a, l)
  {
    OutsideTrans(m0, y0, m1, y1, m, y, y0.path[a]);
    UnmapTwice(g, m0, y0, m1, m, a, l, vrel0, vrel - vrel0, k);
    forall j | 0 <= j < |m.tables[a]| && vrel0 <= Start(g, l, j) && Start(g, l, j) + Block(g, l) <= vrel + k
      ensures m.tables[a][j] == CLEAR
    {
      Order(j, i, Block(g, l));
      Order(i, j, Block(g, l));
      assert m1.tables[a][j] == m1.tables[a][j];
    }
  }

  // Unmaps the size addresses from vrel0 below the table a of level l.
  method UnmapPt(g: Granule, m0: Mem, ghost y0: Layout, a: nat, l: nat, vrel0: nat, size0: nat)
    returns (m: Mem, ghost y: Layout)
    requires Wf(g, m0, y0) && a in m0.tables && Level(y0, a) == l
    requires vrel0 + size0 <= Reach(g, m0, a, l)
    ensures UnmapDone(g, m0, y0, m, y, a, l, vrel0, size0)
    ensures Cleared(g, m, a, l, vrel0, vrel0 + size0)
    ensures a in m.tables && |m.tables[a]| == |m0.tables[a]| && a in y.path
    ensures Lean(m0, y0, y0.path[a]) ==> Lean(m, y, y.path[a])
    ensures size0 == 0 ==> m == m0 && y == y0
    decreases l, 1
  {
    ghost var lean, path := Lean(m0, y0, y0.path[a]), y0.path[a];
    var vrel: nat, size: nat := vrel0, size0;
    m, y := m0, y0;
    UnmapStart(g, m, y, a, l, vrel0);
    hide *;
    while size != 0
      invariant vrel0 <= vrel && vrel + size == vrel0 + size0
      invariant vrel == vrel0 || AtEntry(g, l, vrel) || size == 0
      invariant Wf(g, m, y) && a in m.tables && Level(y, a) == l && vrel + size <= Reach(g, m, a, l)
      invariant UnmapDone(g, m0, y0, m, y, a, l, vrel0, vrel - vrel0)
      invariant Cleared(g, m, a, l, vrel0, vrel)
      invariant y.path[a] == path && (lean ==> Lean(m, y, path))
      invariant vrel == vrel0 ==> m == m0 && y == y0
      decreases size
    {
      var index, vrem, chunk := NextChunk(g, m, y, a, l, vrel, size);
      ghost var m1, y1 := m, y;
      m, y := UnmapEntry(g, m, y, a, l, index, vrel, vrem, chunk);
      UnmapNext(g, m0, y0, m1, y1, m, y, a, l, vrel0, vrel, chunk, index);
      size := size - chunk;
      vrel := vrel + chunk;
    }
    UnmapEnd(g, m0, y0, m, y, a, l, vrel0, size0);
  }

  // One chunk: clears the descriptor of its entry, or goes through its table and
  // frees that if it has become empty.
  method UnmapEntry(g: Granule, m1: Mem, ghost y1: Layout, a: nat, l: nat, index: nat, vrel: nat, vrem: nat, chunk: nat)
    returns (m: Mem, ghost y: Layout)
    requires InEntry(g, m1, y1, a, l, index, vrel, chunk) && vrel == Start(g, l, index) + vrem
    ensures ChunkDone(g, m1, y1, m, y, a, l, index, vrel, chunk)
    ensures a in y1.path && a in y.path && y.path[a] == y1.path[a]
    ensures Lean(m1, y1, y1.path[a]) ==> Lean(m, y, y1.path[a])
    decreases l, 0
  {
    m, y := m1, y1;
    EntryShape(g, m, y, a, l, index);
    var pte := m.tables[a][index];
    ghost var lean := Lean(m, y, y.path[a]);
    hide *;
    if l > 0 && pte.desc == TABLE {
      m, y := UnmapPt(g, m, y, pte.addr, l - 1, vrem, chunk);
      UnmapBelow(g, m1, y1, m, y, a, l, index, pte.addr, vrel, chunk);
      var clear := IsClear(m, pte.addr);
      FullyCleared(g, m, l, pte.addr, vrem, chunk);
      LeanChild(g, m1, y1, m, y, a, l - 1, index, pte.addr, vrem, chunk);
      if chunk == Block(g, l) || clear {
        if lean {
          LeanRemove(g, m, y, a, index, pte.addr);
        }
        UnlinkEmpty(g, m1, y1, m, y, a, l, index, pte.addr, vrel, chunk);
        m, y := RemoveTable(m, a, index, pte.addr), RemovePath(y, pte.addr);
      } else if lean {
        LeanJoin(g, m, y, y.path[a], index, pte.addr);
      }
    } else if pte != CLEAR {
      UnmapLeaf(g, m, y, a, l, index, vrel, chunk);
      if lean {
        LeanWrite(m, y, a, index, CLEAR);
      }
      m := m.SetEntry(a, index, CLEAR);
    } else {
      UnmapHole(g, m, y, a, l, index, vrel, chunk);
    }
    ChunkPath(g, m1, y1, m, y, a, l, index, vrel, chunk);
  }

  lemma ChunkPath(g: Granule, m: Mem, y: Layout, m': Mem, y': Layout, a: nat, l: nat, i: nat, lo: nat, k: nat)
    requires ChunkDone(g, m, y, m', y', a, l, i, lo, k)
    ensures a in y.path && a in y'.path && y'.path[a] == y.path[a]
  {
  }

  lemma UnmapStart(g: Granule, m: Mem, y: Layout, a: nat, l: nat, lo: nat)
    requires Wf(g, m, y) && a in m.tables && a in y.path && Level(y, a) == l
    ensures UnmapDone(g, m, y, m, y, a, l, lo, 0) && Cleared(g, m, a, l, lo, lo)
  {
    OutsideRefl(m, y, y.path[a]);
    UnmapNothing(g, m, a, l, lo);
    BlockPositive(g, l);
  }

  lemma UnmapEnd(g: Granule, m: Mem, y: Layout, m': Mem, y': Layout, a: nat, l: nat, lo: nat, size: nat)
    requires UnmapDone(g, m, y, m', y', a, l, lo, size)
    ensures a in m.tables && a in m'.tables && |m'.tables[a]| == |m.tables[a]| && a in y'.path
  {
  }
}
