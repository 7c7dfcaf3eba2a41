// Tables that are not empty, and what keeps them so.
module PageTableLean {
  import opened Common
  import opened Align
  import opened PageFlags
  import opened PageTables
  import opened PageTableSteps

  // No table below the one with path p is empty.
  ghost predicate Lean(m: Mem, y: Layout, p: seq<nat>) {
    forall b :: b in m.tables && b in y.path && p < y.path[b] ==> !Empty(m, b)
  }

  // Some address from lo on is translated.
  ghost predicate Occupied(g: Granule, m: Mem, a: nat, l: nat, lo: nat, size: nat) {
    g.Ok() && exists v: nat :: lo <= v < lo + size && Walk(g, m, a, l, v).Some?
  }

  // A table that is not empty, with none below that is, translates something.
  lemma {:induction false} TableTranslates(g: Granule, m: Mem, y: Layout, a: nat, l: nat) returns (v: nat)
    requires Wf(g, m, y) && a in m.tables && Level(y, a) == l && !Empty(m, a) && Lean(m, y, y.path[a])
    ensures v < Reach(g, m, a, l) && Walk(g, m, a, l, v).Some?
    decreases l
  {
    var i :| 0 <= i < |m.tables[a]| && m.tables[a][i] != CLEAR;
    EntryShape(g, m, y, a, l, i);
    BlockPositive(g, l);
    var e := m.tables[a][i];
    if l > 0 && e.desc == TABLE {
      assert y.path[a] < y.path[e.addr];
      assert Lean(m, y, y.path[e.addr]);
      v := TableTranslates(g, m, y, e.addr, l - 1);
      WalkAt(g, m, a, l, i, Start(g, l, i) + v);
      v := Start(g, l, i) + v;
    } else {
      v := Start(g, l, i);
      WalkAt(g, m, a, l, i, v);
    }
  }

  // ---------- what keeps tables from being empty ----------

  // No table below p is empty but for those from entry i on.
  ghost predicate LeanElse(m: Mem, y: Layout, p: seq<nat>, i: nat) {
    forall b :: b in m.tables && b in y.path && p < y.path[b] && !(p + [i] <= y.path[b]) ==> !Empty(m, b)
  }

  lemma LeanSplit(m: Mem, y: Layout, p: seq<nat>, i: nat)
    ensures Lean(m, y, p) ==> LeanElse(m, y, p, i) && Lean(m, y, p + [i])
  {
    assert p < p + [i];
  }

  // All the tables from entry i on are those below c, and c.
  lemma LeanJoin(g: Granule, m: Mem, y: Layout, p: seq<nat>, i: nat, c: nat)
    requires Wf(g, m, y) && c in y.path && y.path[c] == p + [i]
    requires LeanElse(m, y, p, i) && Lean(m, y, p + [i]) && !Empty(m, c)
    ensures Lean(m, y, p)
  {
    forall b | b in m.tables && b in y.path && p < y.path[b]
      ensures !Empty(m, b)
    {
      if p + [i] <= y.path[b] && p + [i] == y.path[b] {
        assert TableOk(g, m, y, b) && TableOk(g, m, y, c);
      }
    }
  }

  // A change from entry i on leaves the other tables alone.
  lemma LeanOutside(g: Granule, m: Mem, y: Layout, m': Mem, y': Layout, p: seq<nat>, i: nat)
    requires Wf(g, m, y) && Wf(g, m', y') && LeanElse(m, y, p, i) && Outside(m, y, m', y', p + [i])
    ensures LeanElse(m', y', p, i)
  {
    forall b | b in m'.tables && b in y'.path && p < y'.path[b] && !(p + [i] <= y'.path[b])
      ensures !Empty(m', b)
    {
      NoneNewElsewhere(g, m, y, m', y', p + [i], b);
    }
  }

  // Only table a changes, or c is taken away.
  lemma LeanWrite(m: Mem, y: Layout, a: nat, i: nat, e: Pte)
    requires a in m.tables && a in y.path && i < |m.tables[a]| && Lean(m, y, y.path[a])
    ensures Lean(m.SetEntry(a, i, e), y, y.path[a])
  {
  }

  lemma LeanRemove(g: Granule, m: Mem, y: Layout, a: nat, i: nat, c: nat)
    requires Wf(g, m, y) && a in m.tables && i < |m.tables[a]| && c != a && c in y.path && y.path[c] == y.path[a] + [i]
    requires LeanElse(m, y, y.path[a], i) && Lean(m, y, y.path[a] + [i])
    ensures Lean(RemoveTable(m, a, i, c), RemovePath(y, c), y.path[a])
  {
    var m', y' := RemoveTable(m, a, i, c), RemovePath(y, c);
    forall b | b in m'.tables && b in y'.path && y.path[a] < y'.path[b]
      ensures !Empty(m', b)
    {
      assert TableOk(g, m, y, b) && TableOk(g, m, y, c);
      assert y.path[b] != y.path[c];
      assert y.path[a] + [i] <= y.path[b] ==> y.path[a] + [i] < y.path[b];
    }
  }

  // A table has been added for entry i.
  lemma LeanAdd(g: Granule, m: Mem, y: Layout, a: nat, i: nat, c: nat)
    requires Wf(g, m, y) && a in m.tables && i < |m.tables[a]| && c in m.pool && Lean(m, y, y.path[a])
    ensures c !in m.tables && c != a
    ensures LeanElse(AddTable(g, m, a, i, c), AddPath(y, a, i, c), y.path[a], i)
    ensures Lean(AddTable(g, m, a, i, c), AddPath(y, a, i, c), y.path[a] + [i])
  {
    assert c !in m.tables;
    assert y.path[a] < y.path[a] + [i];
  }

  // New tables only appear below the place of the change.
  lemma {:induction false} NoneNewElsewhere(g: Granule, m: Mem, y: Layout, m': Mem, y': Layout, q: seq<nat>, b: nat)
    requires Wf(g, m, y) && Wf(g, m', y') && Outside(m, y, m', y', q) && q != []
    requires b in m'.tables && b in y'.path && !(q <= y'.path[b])
    ensures b in m.tables && b in y.path && m'.tables[b] == m.tables[b] && y'.path[b] == y.path[b]
    decreases if b in y'.path then |y'.path[b]| else 0
  {
    assert TableOk(g, m', y', b);
    var p := y'.path[b];
    if p == [] {
      assert TableOk(g, m, y, y.root);
    } else {
      var i := p[|p| - 1];
      var c := y'.at[p[..|p| - 1]];
      assert !(q <= y'.path[c]);
      NoneNewElsewhere(g, m, y, m', y', q, c);
      assert TableOk(g, m, y, c) && EntryOk(m, y, c, i);
      assert TableOk(g, m', y', c);
    }
  }

  lemma EmptyWalk(g: Granule, m: Mem, c: nat, l: nat, v: nat)
    requires g.Ok() && Empty(m, c)
    ensures Walk(g, m, c, l, v) == None
  {
    EmptyEntry(g, m, l + 1, c, v);
  }
}
