module PageTables {
  import opened Common
  import opened Align
  import opened PageFlags

  // ---------- descriptors and memory ----------

  const INVALID: nat := 0
  const BLOCK: nat := 1
  const TABLE: nat := 3
  const PAGE: nat := 3

  // A descriptor: its two type bits, output address and attribute bits.
  datatype Pte = Pte(desc: nat, addr: nat, attrs: Attrs)

  const CLEAR: Pte := Pte(INVALID, 0, NO_ATTRS)

  function TablePte(a: nat): Pte {
    Pte(TABLE, a, NO_ATTRS)
  }

  // The translation granule: page size, entries per table, and the highest
  // level where a block descriptor may stand.
  datatype Granule = Granule(page: nat, fan: nat, maxBlock: nat) {
    predicate Ok() {
      page > 0 && fan > 0
    }
  }

  // The bytes that one entry of a table at level l translates; pages are at
  // level 0.
  function Block(g: Granule, l: nat): nat {
    if l == 0 then g.page else g.fan * Block(g, l - 1)
  }

  // The page tables by physical address, and the pages an allocation can take.
  datatype Mem = Mem(tables: map<nat, seq<Pte>>, pool: set<nat>) {
    function SetEntry(a: nat, i: nat, e: Pte): Mem
      requires a in tables && i < |tables[a]|
    {
      this.(tables := tables[a := tables[a][i := e]])
    }
  }

  // ---------- the walk ----------

  // The block or page found by a walk, and the offset of the address in it.
  datatype Hit = Hit(base: nat, attrs: Attrs, off: nat, size: nat) {
    function Paddr(): nat {
      base + off
    }
    function At(o: nat): Hit {
      this.(off := o)
    }
  }

  function Walk(g: Granule, m: Mem, a: nat, l: nat, v: nat): Option<Hit>
    requires g.Ok()
    decreases l
  {
    BlockPositive(g, l);
    if a !in m.tables || v / Block(g, l) >= |m.tables[a]| then None
    else WalkEntry(g, m, m.tables[a][v / Block(g, l)], l, v % Block(g, l))
  }

  function WalkEntry(g: Granule, m: Mem, e: Pte, l: nat, rem: nat): Option<Hit>
    requires g.Ok()
    decreases l, 0
  {
    if e.desc == INVALID then None
    else if l == 0 then if e.desc == PAGE then Some(Hit(e.addr, e.attrs, rem, Block(g, l))) else None
    else if e.desc == BLOCK then Some(Hit(e.addr, e.attrs, rem, Block(g, l)))
    else if e.desc == TABLE then Walk(g, m, e.addr, l - 1, rem)
    else None
  }

  lemma {:induction false} BlockPositive(g: Granule, l: nat)
    requires g.Ok()
    ensures Block(g, l) > 0
  {
    if l > 0 {
      BlockPositive(g, l - 1);
    }
  }

  // ---------- the shape of the tables ----------

  // Every table has a path of entry indexes from the root, and no two tables
  // share one.
  datatype Layout = Layout(root: nat, top: nat, rootEntries: nat, path: map<nat, seq<nat>>, at: map<seq<nat>, nat>)

  ghost function Level(y: Layout, a: nat): int
    requires a in y.path
  {
    y.top - |y.path[a]|
  }

  ghost predicate EntryOk(m: Mem, y: Layout, a: nat, i: nat)
    requires a in m.tables && a in y.path && i < |m.tables[a]|
  {
    var e := m.tables[a][i];
    && (e.desc == INVALID ==> e == CLEAR)
    && (e.desc == INVALID || e.desc == BLOCK || e.desc == TABLE)
    && (Level(y, a) == 0 ==> e.desc != BLOCK)
    && (Level(y, a) > 0 && e.desc == TABLE ==>
          && e == TablePte(e.addr) && e.addr in m.tables
          && e.addr in y.path && y.path[e.addr] == y.path[a] + [i])
  }

  ghost predicate ParentOk(m: Mem, y: Layout, a: nat)
    requires a in y.path && |y.path[a]| > 0
  {
    var p := y.path[a];
    var q, i := p[..|p| - 1], p[|p| - 1];
    && q in y.at && y.at[q] in m.tables && y.at[q] in y.path && y.path[y.at[q]] == q
    && i < |m.tables[y.at[q]]| && m.tables[y.at[q]][i] == TablePte(a)
  }

  ghost predicate TableOk(g: Granule, m: Mem, y: Layout, a: nat)
    requires a in m.tables && a in y.path
  {
    && Level(y, a) >= 0
    && y.path[a] in y.at && y.at[y.path[a]] == a
    && |m.tables[a]| == (if y.path[a] == [] then y.rootEntries else g.fan)
    && (forall i :: 0 <= i < |m.tables[a]| ==> EntryOk(m, y, a, i))
    && (if y.path[a] == [] then a == y.root else ParentOk(m, y, a))
  }

  ghost predicate Wf(g: Granule, m: Mem, y: Layout) {
    && g.Ok()
    && m.tables.Keys == y.path.Keys
    && m.pool !! m.tables.Keys
    && y.root in y.path && y.path[y.root] == []
    && (forall a {:trigger TableOk(g, m, y, a)} :: a in m.tables ==> TableOk(g, m, y, a))
  }

  // Nothing changes outside the tables whose path begins with p.
  ghost predicate Outside(m: Mem, y: Layout, m': Mem, y': Layout, p: seq<nat>) {
    && y'.root == y.root && y'.top == y.top && y'.rootEntries == y.rootEntries
    && (forall b {:trigger b in m'.tables} :: b in m.tables && b in y.path && !(p <= y.path[b]) ==>
          b in m'.tables && b in y'.path && m'.tables[b] == m.tables[b] && y'.path[b] == y.path[b])
    && m'.pool + m'.tables.Keys == m.pool + m.tables.Keys
  }

  // A walk depends on the tables below its start only.
  lemma {:induction false} WalkFrame(g: Granule, m: Mem, y: Layout, m': Mem, a: nat, l: nat, v: nat)
    requires Wf(g, m, y) && a in m.tables && Level(y, a) == l
    requires forall b :: b in m.tables && y.path[a] <= y.path[b] ==> b in m'.tables && m'.tables[b] == m.tables[b]
    ensures Walk(g, m', a, l, v) == Walk(g, m, a, l, v)
    decreases l
  {
    BlockPositive(g, l);
    var i := v / Block(g, l);
    assert TableOk(g, m, y, a);
    assert y.path[a] <= y.path[a];
    if i < |m.tables[a]| {
      var e := m.tables[a][i];
      assert EntryOk(m, y, a, i);
      if l > 0 && e.desc == TABLE {
        WalkFrame(g, m, y, m', e.addr, l - 1, v % Block(g, l));
      }
    }
  }

  // ---------- arithmetic of one entry ----------

  ghost function Reach(g: Granule, m: Mem, a: nat, l: nat): nat
    requires a in m.tables
  {
    |m.tables[a]| * Block(g, l)
  }

  // The addresses of entry i are those from i blocks up to i + 1 blocks.
  lemma EntryOf(B: nat, i: nat, v: nat)
    requires B > 0
    ensures v / B == i <==> i * B <= v < i * B + B
    ensures v / B == i ==> v % B == v - i * B
    ensures v == v / B * B + v % B && v % B < B
  {
    Order(v / B, i, B);
    Order(i, v / B, B);
    assert v == v / B * B + v % B;
  }

  // Where entry i begins in the reach of its table.
  ghost function Start(g: Granule, l: nat, i: nat): nat {
    i * Block(g, l)
  }

  // How a walk passes through entry i of table a.
  lemma WalkAt(g: Granule, m: Mem, a: nat, l: nat, i: nat, v: nat)
    requires g.Ok() && a in m.tables && i < |m.tables[a]|
    requires Start(g, l, i) <= v < Start(g, l, i) + Block(g, l)
    ensures Start(g, l, i) + Block(g, l) <= Reach(g, m, a, l)
    ensures Walk(g, m, a, l, v) == WalkEntry(g, m, m.tables[a][i], l, v - Start(g, l, i))
  {
    BlockPositive(g, l);
    EntryOf(Block(g, l), i, v);
    Order(i, |m.tables[a]|, Block(g, l));
  }

  // Which entry an address belongs to.
  lemma IndexOf(g: Granule, m: Mem, a: nat, l: nat, v: nat) returns (i: nat)
    requires g.Ok() && a in m.tables
    ensures Block(g, l) > 0 && i == v / Block(g, l)
    ensures v % Block(g, l) == v - Start(g, l, i)
    ensures Start(g, l, i) <= v < Start(g, l, i) + Block(g, l)
    ensures i < |m.tables[a]| <==> v < Reach(g, m, a, l)
    ensures i >= |m.tables[a]| ==> Walk(g, m, a, l, v) == None
  {
    BlockPositive(g, l);
    i := v / Block(g, l);
    EntryOf(Block(g, l), i, v);
    Order(i, |m.tables[a]|, Block(g, l));
    Order(|m.tables[a]|, i, Block(g, l));
  }

  // All addresses of one block translate through the same entry, and the block
  // lies within the table's reach.
  lemma {:induction false} WalkBlock(g: Granule, m: Mem, y: Layout, a: nat, l: nat, v: nat)
    requires Wf(g, m, y) && a in m.tables && Level(y, a) == l
    requires Walk(g, m, a, l, v).Some?
    ensures var h := Walk(g, m, a, l, v).value;
      && h.off <= v && h.off < h.size && v - h.off + h.size <= Reach(g, m, a, l)
      && forall u: nat :: v - h.off <= u < v - h.off + h.size ==>
           Walk(g, m, a, l, u) == Some(h.At(u - (v - h.off)))
    decreases l, 1
  {
    var i := IndexOf(g, m, a, l, v);
    var b, h := Start(g, l, i), Walk(g, m, a, l, v).value;
    WalkAt(g, m, a, l, i, v);
    assert TableOk(g, m, y, a);
    hide *;
    EntryBlock(g, m, y, a, l, i, v - b);
    forall u: nat | v - h.off <= u < v - h.off + h.size
      ensures Walk(g, m, a, l, u) == Some(h.At(u - (v - h.off)))
    {
      WalkAt(g, m, a, l, i, u);
    }
  }

  lemma {:induction false} EntryBlock(g: Granule, m: Mem, y: Layout, a: nat, l: nat, i: nat, rem: nat)
    requires Wf(g, m, y) && a in m.tables && Level(y, a) == l && i < |m.tables[a]|
    requires rem < Block(g, l)
    requires WalkEntry(g, m, m.tables[a][i], l, rem).Some?
    ensures var e := m.tables[a][i];
      var h := WalkEntry(g, m, e, l, rem).value;
      && h.off <= rem && h.off < h.size && rem - h.off + h.size <= Block(g, l)
      && forall u: nat :: rem - h.off <= u < rem - h.off + h.size ==>
           WalkEntry(g, m, e, l, u) == Some(h.At(u - (rem - h.off)))
    decreases l, 0
  {
    assert TableOk(g, m, y, a);
    assert EntryOk(m, y, a, i);
    var e := m.tables[a][i];
    if l > 0 && e.desc == TABLE {
      assert TableOk(g, m, y, e.addr);
      assert Reach(g, m, e.addr, l - 1) == Block(g, l);
      WalkBlock(g, m, y, e.addr, l - 1, rem);
    }
  }
}
