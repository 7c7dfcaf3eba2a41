module PageTableSteps {
  import opened Common
  import opened PageFlags
  import opened PageTables

  // ---------- changes below one entry ----------

  ghost predicate EntryChanged(m: Mem, y: Layout, m': Mem, a: nat, i: nat) {
    && a in m.tables && a in m'.tables && a in y.path && i < |m.tables[a]| == |m'.tables[a]|
    && (forall j :: 0 <= j < |m.tables[a]| && j != i ==> m'.tables[a][j] == m.tables[a][j])
    && (forall b {:trigger b in m'.tables} :: b in m.tables && b in y.path && b != a && !(y.path[a] + [i] <= y.path[b]) ==>
          b in m'.tables && m'.tables[b] == m.tables[b])
  }

  lemma OtherEntry(g: Granule, m: Mem, y: Layout, m': Mem, a: nat, l: nat, i: nat, j: nat, rem: nat)
    requires Wf(g, m, y) && a in m.tables && Level(y, a) == l
    requires EntryChanged(m, y, m', a, i) && j < |m.tables[a]| && j != i
    ensures WalkEntry(g, m', m.tables[a][j], l, rem) == WalkEntry(g, m, m.tables[a][j], l, rem)
  {
    var e := m.tables[a][j];
    assert TableOk(g, m, y, a);
    assert EntryOk(m, y, a, j);
    if l > 0 && e.desc == TABLE {
      var p := y.path[a];
      forall b | b in m.tables && y.path[e.addr] <= y.path[b]
        ensures b in m'.tables && m'.tables[b] == m.tables[b]
      {
        assert y.path[b][|p|] == j;
        assert (p + [i])[|p|] == i;
      }
      WalkFrame(g, m, y, m', e.addr, l - 1, rem);
    }
  }

  lemma ElsewhereSame(g: Granule, m: Mem, y: Layout, m': Mem, a: nat, l: nat, i: nat, v: nat)
    requires Wf(g, m, y) && a in m.tables && Level(y, a) == l
    requires EntryChanged(m, y, m', a, i)
    requires !(Start(g, l, i) <= v < Start(g, l, i) + Block(g, l))
    ensures Walk(g, m', a, l, v) == Walk(g, m, a, l, v)
  {
    var j := IndexOf(g, m, a, l, v);
    if j < |m.tables[a]| {
      OtherEntry(g, m, y, m', a, l, i, j, v - Start(g, l, j));
      WalkAt(g, m, a, l, j, v);
      WalkAt(g, m', a, l, j, v);
    }
  }

  // ---------- writing a page or block descriptor, or clearing one ----------

  ghost predicate NoTable(l: int, e: Pte) {
    && !(l > 0 && e.desc == TABLE)
    && (e.desc == INVALID ==> e == CLEAR)
    && (e.desc == INVALID || e.desc == BLOCK || e.desc == TABLE)
    && (l == 0 ==> e.desc != BLOCK)
  }

  // What an entry can be.
  lemma EntryShape(g: Granule, m: Mem, y: Layout, a: nat, l: nat, i: nat)
    requires Wf(g, m, y) && a in m.tables && Level(y, a) == l && i < |m.tables[a]|
    ensures var e := m.tables[a][i];
      if l > 0 && e.desc == TABLE then
        && e == TablePte(e.addr) && e.addr in m.tables && e.addr in y.path && y.path[e.addr] == y.path[a] + [i]
        && Level(y, e.addr) == l - 1 && Reach(g, m, e.addr, l - 1) == Block(g, l)
        && |m.tables[e.addr]| == g.fan && e.addr != a
      else NoTable(l, e)
  {
    assert TableOk(g, m, y, a);
    assert EntryOk(m, y, a, i);
    var e := m.tables[a][i];
    if l > 0 && e.desc == TABLE {
      assert TableOk(g, m, y, e.addr);
    }
  }

  lemma WriteFacts(g: Granule, m: Mem, y: Layout, a: nat, i: nat, e: Pte)
    requires Wf(g, m, y) && a in m.tables && i < |m.tables[a]|
    requires NoTable(Level(y, a), m.tables[a][i]) && NoTable(Level(y, a), e)
    ensures EntryChanged(m, y, m.SetEntry(a, i, e), a, i) && Outside(m, y, m.SetEntry(a, i, e), y, y.path[a])
    ensures m.SetEntry(a, i, e).tables.Keys == m.tables.Keys
  {
    hide TableOk;
  }

  lemma WriteTable(g: Granule, m: Mem, y: Layout, a: nat, i: nat, e: Pte, b: nat)
    requires Wf(g, m, y) && a in m.tables && i < |m.tables[a]| && b in m.tables
    requires NoTable(Level(y, a), m.tables[a][i]) && NoTable(Level(y, a), e)
    ensures b in m.SetEntry(a, i, e).tables && TableOk(g, m.SetEntry(a, i, e), y, b)
  {
    var m' := m.SetEntry(a, i, e);
    assert TableOk(g, m, y, b);
    forall j | 0 <= j < |m'.tables[b]|
      ensures EntryOk(m', y, b, j)
    {
      assert EntryOk(m, y, b, j);
    }
    if y.path[b] != [] {
      WriteParent(g, m, y, a, i, e, b);
    }
    hide Wf, ParentOk;
  }

  lemma WriteWf(g: Granule, m: Mem, y: Layout, a: nat, i: nat, e: Pte)
    requires Wf(g, m, y) && a in m.tables && i < |m.tables[a]|
    requires NoTable(Level(y, a), m.tables[a][i]) && NoTable(Level(y, a), e)
    ensures Wf(g, m.SetEntry(a, i, e), y)
    ensures EntryChanged(m, y, m.SetEntry(a, i, e), a, i)
    ensures Outside(m, y, m.SetEntry(a, i, e), y, y.path[a])
  {
    WriteFacts(g, m, y, a, i, e);
    var m' := m.SetEntry(a, i, e);
    hide TableOk;
    forall b | b in m'.tables
      ensures TableOk(g, m', y, b)
    {
      WriteTable(g, m, y, a, i, e, b);
    }
  }

  lemma WriteParent(g: Granule, m: Mem, y: Layout, a: nat, i: nat, e: Pte, b: nat)
    requires Wf(g, m, y) && a in m.tables && i < |m.tables[a]|
    requires NoTable(Level(y, a), m.tables[a][i])
    requires b in m.tables && y.path[b] != []
    ensures ParentOk(m.SetEntry(a, i, e), y, b)
  {
    assert TableOk(g, m, y, b);
    assert TableOk(g, m, y, a);
    var p := y.path[b];
    var q := p[..|p| - 1];
    assert |y.path[y.at[q]]| == |p| - 1;
  }

  // ---------- adding an empty table ----------

  function AddTable(g: Granule, m: Mem, a: nat, i: nat, c: nat): Mem
    requires a in m.tables && i < |m.tables[a]| && c != a
  {
    Mem(m.tables[c := seq(g.fan, _ => CLEAR)][a := m.tables[a][i := TablePte(c)]], m.pool - {c})
  }

  ghost function AddPath(y: Layout, a: nat, i: nat, c: nat): Layout
    requires a in y.path
  {
    y.(path := y.path[c := y.path[a] + [i]], at := y.at[y.path[a] + [i] := c])
  }

  lemma NoSuchChild(g: Granule, m: Mem, y: Layout, a: nat, i: nat, b: nat)
    requires Wf(g, m, y) && a in m.tables && i < |m.tables[a]| && m.tables[a][i] == CLEAR
    requires b in m.tables
    ensures y.path[a] + [i] != y.path[b]
  {
    assert TableOk(g, m, y, b);
    assert TableOk(g, m, y, a);
    var p := y.path[a] + [i];
    assert p[..|p| - 1] == y.path[a] && p[|p| - 1] == i;
  }

  lemma AddWf(g: Granule, m: Mem, y: Layout, a: nat, i: nat, c: nat)
    requires Wf(g, m, y) && a in m.tables && i < |m.tables[a]| && Level(y, a) > 0
    requires m.tables[a][i] == CLEAR && c in m.pool
    ensures c !in m.tables && c != a
    ensures Wf(g, AddTable(g, m, a, i, c), AddPath(y, a, i, c))
  {
    assert c !in m.tables;
    var m', y' := AddTable(g, m, a, i, c), AddPath(y, a, i, c);
    forall b | b in m'.tables
      ensures TableOk(g, m', y', b)
    {
      if b == c {
        assert TableOk(g, m, y, a);
        assert y'.path[c][..|y'.path[c]| - 1] == y.path[a];
        assert ParentOk(m', y', c);
      } else {
        AddOther(g, m, y, a, i, c, b);
      }
    }
  }

  lemma AddOther(g: Granule, m: Mem, y: Layout, a: nat, i: nat, c: nat, b: nat)
    requires Wf(g, m, y) && a in m.tables && i < |m.tables[a]| && Level(y, a) > 0
    requires m.tables[a][i] == CLEAR && c in m.pool && b in m.tables
    ensures c !in m.tables && c != a && TableOk(g, AddTable(g, m, a, i, c), AddPath(y, a, i, c), b)
  {
    assert c !in m.tables;
    var m', y' := AddTable(g, m, a, i, c), AddPath(y, a, i, c);
    assert TableOk(g, m, y, b);
    assert TableOk(g, m, y, a);
    NoSuchChild(g, m, y, a, i, b);
    forall j | 0 <= j < |m'.tables[b]|
      ensures EntryOk(m', y', b, j)
    {
      assert EntryOk(m, y, b, j);
    }
    if y.path[b] != [] {
      var p := y.path[b];
      var q := p[..|p| - 1];
      NoSuchChild(g, m, y, a, i, y.at[q]);
      assert ParentOk(m', y', b);
    }
  }

  lemma AddWalk(g: Granule, m: Mem, y: Layout, a: nat, l: nat, i: nat, c: nat)
    requires Wf(g, m, y) && a in m.tables && i < |m.tables[a]| && Level(y, a) == l > 0
    requires m.tables[a][i] == CLEAR && c in m.pool
    ensures c !in m.tables && c != a
    ensures var m', y' := AddTable(g, m, a, i, c), AddPath(y, a, i, c);
      && EntryChanged(m, y, m', a, i) && Outside(m, y, m', y', y.path[a])
      && Empty(m', c)
      && (forall v: nat :: Walk(g, m', a, l, v) == Walk(g, m, a, l, v))
  {
    assert c !in m.tables;
    var m', y' := AddTable(g, m, a, i, c), AddPath(y, a, i, c);
    assert y.path[a] <= y.path[a] + [i];
    assert m'.tables[a][i] == TablePte(c);
    forall v: nat
      ensures Walk(g, m', a, l, v) == Walk(g, m, a, l, v)
    {
      hide *;
      if Start(g, l, i) <= v < Start(g, l, i) + Block(g, l) {
        WalkAt(g, m, a, l, i, v);
        WalkAt(g, m', a, l, i, v);
        EmptyEntry(g, m', l, c, v - Start(g, l, i));
        ClearEntry(g, m, l, v - Start(g, l, i));
      } else {
        ElsewhereSame(g, m, y, m', a, l, i, v);
      }
    }
  }

  // ---------- freeing a table that has become empty ----------

  function RemoveTable(m: Mem, a: nat, i: nat, c: nat): Mem
    requires a in m.tables && i < |m.tables[a]| && c != a
  {
    Mem((m.tables - {c})[a := m.tables[a][i := CLEAR]], m.pool + {c})
  }

  ghost function RemovePath(y: Layout, c: nat): Layout {
    y.(path := y.path - {c})
  }

  ghost predicate Empty(m: Mem, c: nat) {
    c in m.tables && forall j :: 0 <= j < |m.tables[c]| ==> m.tables[c][j] == CLEAR
  }

  lemma RemoveEntry(g: Granule, m: Mem, y: Layout, a: nat, i: nat, c: nat, b: nat, j: nat)
    requires Wf(g, m, y) && a in m.tables && i < |m.tables[a]| && Level(y, a) > 0
    requires m.tables[a][i] == TablePte(c) && Empty(m, c) && c != a
    requires b in m.tables && b != c && j < |m.tables[b]|
    ensures var m', y' := RemoveTable(m, a, i, c), RemovePath(y, c);
      b in m'.tables && b in y'.path && |m'.tables[b]| == |m.tables[b]| && EntryOk(m', y', b, j)
  {
    assert TableOk(g, m, y, b) && EntryOk(m, y, b, j);
    if m.tables[b][j].addr == c && m.tables[b][j].desc == TABLE && Level(y, b) > 0 {
      SameChild(g, m, y, a, i, b, j);
    }
    hide Wf, ParentOk;
  }

  lemma RemoveOther(g: Granule, m: Mem, y: Layout, a: nat, i: nat, c: nat, b: nat)
    requires Wf(g, m, y) && a in m.tables && i < |m.tables[a]| && Level(y, a) > 0
    requires m.tables[a][i] == TablePte(c) && Empty(m, c) && c != a
    requires b in m.tables && b != c
    ensures TableOk(g, RemoveTable(m, a, i, c), RemovePath(y, c), b)
  {
    var m', y' := RemoveTable(m, a, i, c), RemovePath(y, c);
    assert TableOk(g, m, y, b) && TableOk(g, m, y, a) && TableOk(g, m, y, c);
    assert EntryOk(m, y, a, i);
    hide EntryOk, Wf;
    forall j | 0 <= j < |m'.tables[b]|
      ensures EntryOk(m', y', b, j)
    {
      RemoveEntry(g, m, y, a, i, c, b, j);
    }
  }

  lemma SameChild(g: Granule, m: Mem, y: Layout, a: nat, i: nat, b: nat, j: nat)
    requires Wf(g, m, y) && a in m.tables && b in m.tables && i < |m.tables[a]| && j < |m.tables[b]|
    requires Level(y, a) > 0 && Level(y, b) > 0
    requires m.tables[a][i].desc == TABLE && m.tables[b][j] == m.tables[a][i]
    ensures a == b && i == j
  {
    assert TableOk(g, m, y, a) && TableOk(g, m, y, b);
    assert EntryOk(m, y, a, i) && EntryOk(m, y, b, j);
    var p, q := y.path[a] + [i], y.path[b] + [j];
    assert p[..|p| - 1] == y.path[a] && q[..|q| - 1] == y.path[b];
    assert p[|p| - 1] == i && q[|q| - 1] == j;
  }

  lemma RemoveWf(g: Granule, m: Mem, y: Layout, a: nat, i: nat, c: nat)
    requires Wf(g, m, y) && a in m.tables && i < |m.tables[a]| && Level(y, a) > 0
    requires m.tables[a][i] == TablePte(c) && Empty(m, c)
    ensures c != a
    ensures Wf(g, RemoveTable(m, a, i, c), RemovePath(y, c))
  {
    assert TableOk(g, m, y, a);
    assert EntryOk(m, y, a, i);
    var m', y' := RemoveTable(m, a, i, c), RemovePath(y, c);
    forall b | b in m'.tables
      ensures TableOk(g, m', y', b)
    {
      RemoveOther(g, m, y, a, i, c, b);
    }
  }

  lemma RemoveWalk(g: Granule, m: Mem, y: Layout, a: nat, l: nat, i: nat, c: nat)
    requires Wf(g, m, y) && a in m.tables && i < |m.tables[a]| && Level(y, a) == l > 0
    requires m.tables[a][i] == TablePte(c) && Empty(m, c)
    ensures c != a
    ensures var m', y' := RemoveTable(m, a, i, c), RemovePath(y, c);
      && m'.tables[a] == m.tables[a][i := CLEAR]
      && EntryChanged(m, y, m', a, i) && Outside(m, y, m', y', y.path[a])
      && (forall v: nat :: Walk(g, m', a, l, v) == Walk(g, m, a, l, v))
  {
    assert TableOk(g, m, y, a);
    assert EntryOk(m, y, a, i);
    var m', y' := RemoveTable(m, a, i, c), RemovePath(y, c);
    assert y.path[a] <= y.path[a] + [i];
    assert m'.tables[a][i] == CLEAR;
    forall v: nat
      ensures Walk(g, m', a, l, v) == Walk(g, m, a, l, v)
    {
      hide *;
      if Start(g, l, i) <= v < Start(g, l, i) + Block(g, l) {
        WalkAt(g, m, a, l, i, v);
        WalkAt(g, m', a, l, i, v);
        EmptyEntry(g, m, l, c, v - Start(g, l, i));
        ClearEntry(g, m', l, v - Start(g, l, i));
      } else {
        ElsewhereSame(g, m, y, m', a, l, i, v);
      }
    }
  }

  lemma EmptyEntry(g: Granule, m: Mem, l: nat, c: nat, r: nat)
    requires g.Ok() && Empty(m, c) && l > 0
    ensures WalkEntry(g, m, TablePte(c), l, r) == None
  {
    var j := IndexOf(g, m, c, l - 1, r);
    if j < |m.tables[c]| {
      WalkAt(g, m, c, l - 1, j, r);
      assert m.tables[c][j] == CLEAR;
    }
  }

  lemma ClearEntry(g: Granule, m: Mem, l: nat, r: nat)
    requires g.Ok()
    ensures WalkEntry(g, m, CLEAR, l, r) == None
  {
  }
}
