// When there is room for a mapping: what it needs of the tables, entry by entry.
module PageTableRoom {
  import opened Common
  import opened Align
  import opened PageFlags
  import opened PageTables
  import opened PageTableSteps
  import opened PageTableLean

  // ---------- the chunks of a request ----------

  // The entry that an address of a table belongs to, and its offset there.
  function Index(g: Granule, l: nat, v: nat): nat
    requires g.Ok()
  {
    BlockPositive(g, l);
    v / Block(g, l)
  }

  function Off(g: Granule, l: nat, v: nat): nat
    requires g.Ok()
  {
    BlockPositive(g, l);
    v % Block(g, l)
  }

  // What of k bytes from v on lies in one entry.
  function ChunkOf(g: Granule, l: nat, v: nat, k: nat): (c: nat)
    requires g.Ok()
    ensures c <= k && (0 < k ==> 0 < c)
  {
    BlockPositive(g, l);
    if k < Block(g, l) - Off(g, l, v) then k else Block(g, l) - Off(g, l, v)
  }

  lemma Split(g: Granule, l: nat, v: nat)
    requires g.Ok()
    ensures v == Start(g, l, Index(g, l, v)) + Off(g, l, v) && Off(g, l, v) < Block(g, l)
  {
    BlockPositive(g, l);
    EntryOf(Block(g, l), Index(g, l, v), v);
  }

  lemma SplitUnique(g: Granule, l: nat, v: nat, i: nat)
    requires g.Ok()
    ensures Index(g, l, v) == i <==> Start(g, l, i) <= v < Start(g, l, i) + Block(g, l)
  {
    BlockPositive(g, l);
    EntryOf(Block(g, l), i, v);
  }

  // The next chunk lies in a later entry.
  lemma NextIndex(g: Granule, l: nat, v: nat, k: nat)
    requires g.Ok()
    ensures ChunkOf(g, l, v, k) < k ==> Index(g, l, v + ChunkOf(g, l, v, k)) == Index(g, l, v) + 1
    ensures Off(g, l, v) + ChunkOf(g, l, v, k) <= Block(g, l)
  {
    var c, i := ChunkOf(g, l, v, k), Index(g, l, v);
    Split(g, l, v);
    assert Start(g, l, i + 1) == Start(g, l, i) + Block(g, l);
    SplitUnique(g, l, v + c, i + 1);
  }

  // A descriptor of this level can map the whole chunk.
  predicate ByBlock(g: Granule, l: nat, rem: nat, pa: nat, k: nat)
    requires g.Ok()
  {
    BlockPositive(g, l);
    rem == 0 && pa % Block(g, l) == 0 && k == Block(g, l) && l <= g.maxBlock
  }

  // ---------- what a request needs ----------

  // The entry i of a table, or a clear one of a table that is not there yet.
  function EntryIn(m: Mem, t: Option<nat>, i: nat): Pte {
    if t.Some? && t.value in m.tables && i < |m.tables[t.value]| then m.tables[t.value][i] else CLEAR
  }

  // Whether nothing stands in the way of mapping k bytes from v on to pa.
  ghost predicate Fits(g: Granule, m: Mem, t: Option<nat>, l: nat, v: nat, pa: nat, k: nat)
    requires g.Ok()
    decreases l, 1, k
  {
    k == 0 ||
    (var c := ChunkOf(g, l, v, k);
     && FitsEntry(g, m, EntryIn(m, t, Index(g, l, v)), l, Off(g, l, v), pa, c)
     && Fits(g, m, t, l, v + c, pa + c, k - c))
  }

  ghost predicate FitsEntry(g: Granule, m: Mem, e: Pte, l: nat, rem: nat, pa: nat, k: nat)
    requires g.Ok()
    decreases l, 0
  {
    if l == 0 || ByBlock(g, l, rem, pa, k) then e == CLEAR
    else if e.desc == TABLE then Fits(g, m, Some(e.addr), l - 1, rem, pa, k)
    else e == CLEAR
  }

  // The tables that are missing: one for each clear entry that is not mapped by
  // a descriptor of its level.
  ghost function Missing(g: Granule, m: Mem, t: Option<nat>, l: nat, v: nat, pa: nat, k: nat): nat
    requires g.Ok()
    decreases l, 1, k
  {
    if k == 0 then 0 else
      var c := ChunkOf(g, l, v, k);
      MissingEntry(g, m, EntryIn(m, t, Index(g, l, v)), l, Off(g, l, v), pa, c) + Missing(g, m, t, l, v + c, pa + c, k - c)
  }

  ghost function MissingEntry(g: Granule, m: Mem, e: Pte, l: nat, rem: nat, pa: nat, k: nat): nat
    requires g.Ok()
    decreases l, 0
  {
    if l == 0 || ByBlock(g, l, rem, pa, k) then 0
    else if e.desc == TABLE then Missing(g, m, Some(e.addr), l - 1, rem, pa, k)
    else 1 + Missing(g, m, None, l - 1, rem, pa, k)
  }

  // ---------- frames ----------

  // A table that is not there and one that is empty are alike.
  lemma {:induction false} EmptyRoom(g: Granule, m: Mem, m': Mem, c: nat, l: nat, v: nat, pa: nat, k: nat)
    requires g.Ok() && Empty(m, c)
    ensures Fits(g, m, Some(c), l, v, pa, k)
    ensures Missing(g, m, Some(c), l, v, pa, k) == Missing(g, m', None, l, v, pa, k)
    decreases l, k
  {
    if k > 0 {
      var r := ChunkOf(g, l, v, k);
      EmptyRoom(g, m, m', c, l, v + r, pa + r, k - r);
      if l > 0 {
        NoTableRoom(g, m, m', l - 1, Off(g, l, v), pa, r);
      }
    }
  }

  lemma {:induction false} NoTableRoom(g: Granule, m: Mem, m': Mem, l: nat, v: nat, pa: nat, k: nat)
    requires g.Ok()
    ensures Missing(g, m, None, l, v, pa, k) == Missing(g, m', None, l, v, pa, k)
    decreases l, k
  {
    if k > 0 {
      var r := ChunkOf(g, l, v, k);
      NoTableRoom(g, m, m', l, v + r, pa + r, k - r);
      if l > 0 {
        NoTableRoom(g, m, m', l - 1, Off(g, l, v), pa, r);
      }
    }
  }

  // From entry i of table a on, everything is as before.
  ghost predicate SameFrom(m: Mem, y: Layout, m': Mem, y': Layout, a: nat, i: nat) {
    && a in m.tables && a in m'.tables && a in y.path && a in y'.path && y'.path[a] == y.path[a]
    && |m'.tables[a]| == |m.tables[a]|
    && (forall j :: i <= j < |m.tables[a]| ==> m'.tables[a][j] == m.tables[a][j])
    && (forall b {:trigger b in m'.tables} :: b in m.tables && b in y.path && y.path[a] < y.path[b] && i <= y.path[b][|y.path[a]|] ==>
          b in m'.tables && b in y'.path && m'.tables[b] == m.tables[b] && y'.path[b] == y.path[b])
  }

  lemma SameFromLater(m: Mem, y: Layout, m': Mem, y': Layout, a: nat, i: nat, j: nat)
    requires SameFrom(m, y, m', y', a, i) && i <= j
    ensures SameFrom(m, y, m', y', a, j)
  {
  }

  lemma {:induction false} RoomFrame(g: Granule, m: Mem, y: Layout, m': Mem, y': Layout, a: nat, l: nat, v: nat, pa: nat, k: nat)
    requires Wf(g, m, y) && a in m.tables && Level(y, a) == l && SameFrom(m, y, m', y', a, Index(g, l, v))
    ensures Fits(g, m', Some(a), l, v, pa, k) == Fits(g, m, Some(a), l, v, pa, k)
    ensures Missing(g, m', Some(a), l, v, pa, k) == Missing(g, m, Some(a), l, v, pa, k)
    decreases l, k
  {
    if k > 0 {
      var c, i := ChunkOf(g, l, v, k), Index(g, l, v);
      NextIndex(g, l, v, k);
      if c < k {
        SameFromLater(m, y, m', y', a, i, i + 1);
        RoomFrame(g, m, y, m', y', a, l, v + c, pa + c, k - c);
      }
      EntryFrame(g, m, y, m', y', a, l, i, Off(g, l, v), pa, c);
    }
  }

  lemma {:induction false} EntryFrame(g: Granule, m: Mem, y: Layout, m': Mem, y': Layout, a: nat, l: nat, i: nat, rem: nat, pa: nat, k: nat)
    requires Wf(g, m, y) && a in m.tables && Level(y, a) == l && SameFrom(m, y, m', y', a, i)
    ensures var e := EntryIn(m, Some(a), i);
      && EntryIn(m', Some(a), i) == e
      && FitsEntry(g, m', e, l, rem, pa, k) == FitsEntry(g, m, e, l, rem, pa, k)
      && MissingEntry(g, m', e, l, rem, pa, k) == MissingEntry(g, m, e, l, rem, pa, k)
    decreases l, 0
  {
    var e := EntryIn(m, Some(a), i);
    if l > 0 && i < |m.tables[a]| && e.desc == TABLE {
      EntryShape(g, m, y, a, l, i);
      ChildSame(m, y, m', y', a, i, e.addr, Index(g, l - 1, rem));
      RoomFrame(g, m, y, m', y', e.addr, l - 1, rem, pa, k);
    } else if l > 0 {
      NoTableRoom(g, m, m', l - 1, rem, pa, k);
    }
  }

  lemma ChildSame(m: Mem, y: Layout, m': Mem, y': Layout, a: nat, i: nat, c: nat, j: nat)
    requires SameFrom(m, y, m', y', a, i) && c in m.tables && c in y.path && y.path[c] == y.path[a] + [i]
    ensures SameFrom(m, y, m', y', c, j)
  {
    assert y.path[a] < y.path[c] && y.path[c][|y.path[a]|] == i;
    assert c in m'.tables;
    forall b | b in m.tables && b in y.path && y.path[c] < y.path[b]
      ensures b in m'.tables && b in y'.path && m'.tables[b] == m.tables[b] && y'.path[b] == y.path[b]
    {
      assert y.path[a] < y.path[b] && y.path[b][|y.path[a]|] == i;
    }
  }

  // Only entry i of table a, and what lies below it, changes.
  ghost predicate OnlyEntry(m: Mem, y: Layout, m': Mem, y': Layout, a: nat, i: nat) {
    && a in m.tables && a in m'.tables && a in y.path && a in y'.path && y'.path[a] == y.path[a]
    && |m'.tables[a]| == |m.tables[a]|
    && (forall j :: 0 <= j < |m.tables[a]| && j != i ==> m'.tables[a][j] == m.tables[a][j])
    && (forall b {:trigger b in m'.tables} :: b in m.tables && b in y.path && b != a && !(y.path[a] + [i] <= y.path[b]) ==>
          b in m'.tables && b in y'.path && m'.tables[b] == m.tables[b] && y'.path[b] == y.path[b])
  }

  lemma SameFromStep(m: Mem, y: Layout, m1: Mem, y1: Layout, m2: Mem, y2: Layout, a: nat, i: nat, j: nat, k: nat)
    requires SameFrom(m, y, m1, y1, a, i) && OnlyEntry(m1, y1, m2, y2, a, j) && i <= k && j < k
    ensures SameFrom(m, y, m2, y2, a, k)
  {
    var p := y.path[a];
    forall b | b in m.tables && b in y.path && p < y.path[b] && k <= y.path[b][|p|]
      ensures b in m2.tables && b in y2.path && m2.tables[b] == m.tables[b] && y2.path[b] == y.path[b]
    {
      assert b in m1.tables;
      assert (p + [j])[|p|] == j;
      assert !(p + [j] <= y.path[b]);
      assert b in m2.tables;
    }
  }

  lemma SameFromRefl(m: Mem, y: Layout, a: nat, i: nat)
    requires a in m.tables && a in y.path
    ensures SameFrom(m, y, m, y, a, i)
  {
  }

  lemma OnlyRefl(m: Mem, y: Layout, a: nat, i: nat)
    requires a in m.tables && a in y.path
    ensures OnlyEntry(m, y, m, y, a, i)
  {
  }

  lemma WriteOnly(m: Mem, y: Layout, a: nat, i: nat, e: Pte)
    requires a in m.tables && a in y.path && i < |m.tables[a]|
    ensures OnlyEntry(m, y, m.SetEntry(a, i, e), y, a, i)
  {
  }

  lemma AddOnly(g: Granule, m: Mem, y: Layout, a: nat, i: nat, c: nat)
    requires Wf(g, m, y) && a in m.tables && i < |m.tables[a]| && c in m.pool
    ensures c !in m.tables && c != a && OnlyEntry(m, y, AddTable(g, m, a, i, c), AddPath(y, a, i, c), a, i)
  {
    assert c !in m.tables;
  }

  lemma OnlyBelow(m: Mem, y: Layout, m1: Mem, y1: Layout, m2: Mem, y2: Layout, a: nat, i: nat)
    requires OnlyEntry(m, y, m1, y1, a, i) && Outside(m1, y1, m2, y2, y.path[a] + [i])
    ensures OnlyEntry(m, y, m2, y2, a, i)
  {
    var p := y.path[a];
    assert !(p + [i] <= p);
    assert a in m2.tables;
    forall b | b in m.tables && b in y.path && b != a && !(p + [i] <= y.path[b])
      ensures b in m2.tables && b in y2.path && m2.tables[b] == m.tables[b] && y2.path[b] == y.path[b]
    {
      assert b in m1.tables;
      assert b in m2.tables;
    }
  }
}
