module PageTableSpace {
  import opened Common
  import opened Align
  import opened PageFlags
  import opened PageTables
  import opened PageTableSteps
  import opened PageTableUnmap
  import opened PageTableMap
  import opened PageTableLean
  import opened PageTableRoom
  import opened PageTableMapper
  import opened PageTableOutcome

  // ---------- which unmaps are exact ----------

  // Every translation in the range is gone and every other one is kept.
  ghost predicate ExactlyUnmapped(g: Granule, m: Mem, m': Mem, a: nat, l: nat, lo: nat, size: nat) {
    g.Ok() && forall v: nat {:trigger Walk(g, m', a, l, v)} ::
      Walk(g, m', a, l, v) == if lo <= v < lo + size then None else Walk(g, m, a, l, v)
  }

  // No block straddles an end of the range: the first address begins its block
  // and the last address ends its block, if they are translated.
  ghost predicate EndsClean(g: Granule, m: Mem, a: nat, l: nat, lo: nat, size: nat)
    requires g.Ok()
  {
    size > 0 ==>
      var first, last := Walk(g, m, a, l, lo), Walk(g, m, a, l, lo + size - 1);
      (first.Some? ==> first.value.off == 0) && (last.Some? ==> last.value.off + 1 == last.value.size)
  }

  // The part of a block from v on, up to u, translates through the block.
  lemma SameBlock(g: Granule, m: Mem, y: Layout, a: nat, l: nat, v: nat, u: nat)
    requires Wf(g, m, y) && a in m.tables && Level(y, a) == l && Walk(g, m, a, l, v).Some?
    ensures var h := Walk(g, m, a, l, v).value;
      h.off <= v && h.off < h.size && (v - h.off <= u < v - h.off + h.size ==> Walk(g, m, a, l, u) == Some(h.At(u - (v - h.off))))
  {
    WalkBlock(g, m, y, a, l, v);
  }

  lemma StraddlerSeenAtEnd(g: Granule, m: Mem, y: Layout, a: nat, l: nat, lo: nat, size: nat, v: nat)
    requires Wf(g, m, y) && a in m.tables && Level(y, a) == l && EndsClean(g, m, a, l, lo, size)
    requires !(lo <= v < lo + size)
    ensures Removed(Walk(g, m, a, l, v), v, lo, size) == Walk(g, m, a, l, v)
  {
    if size > 0 && Walk(g, m, a, l, v).Some? {
      SameBlock(g, m, y, a, l, v, lo);
      SameBlock(g, m, y, a, l, v, lo + size - 1);
    }
  }

  lemma CleanUnmap(g: Granule, m: Mem, y: Layout, m': Mem, a: nat, l: nat, lo: nat, size: nat, v: nat)
    requires Wf(g, m, y) && a in m.tables && Level(y, a) == l && EndsClean(g, m, a, l, lo, size)
    requires Unmapped(g, m, m', a, l, lo, size)
    ensures Walk(g, m', a, l, v) == if lo <= v < lo + size then None else Walk(g, m, a, l, v)
  {
    assert Walk(g, m', a, l, v) == Removed(Walk(g, m, a, l, v), v, lo, size);
    if !(lo <= v < lo + size) {
      StraddlerSeenAtEnd(g, m, y, a, l, lo, size, v);
    } else if Walk(g, m, a, l, v).Some? {
      SameBlock(g, m, y, a, l, v, v);
    }
  }

  // An address outside the range that lies in the block of one inside loses
  // its translation.
  lemma OneTooMany(g: Granule, m: Mem, y: Layout, m': Mem, a: nat, l: nat, lo: nat, size: nat, u: nat, v: nat)
    requires Wf(g, m, y) && a in m.tables && Level(y, a) == l && Unmapped(g, m, m', a, l, lo, size)
    requires lo <= u < lo + size && !(lo <= v < lo + size)
    requires Walk(g, m, a, l, u).Some?
    requires var h := Walk(g, m, a, l, u).value; u - h.off <= v < u - h.off + h.size
    ensures !ExactlyUnmapped(g, m, m', a, l, lo, size)
  {
    SameBlock(g, m, y, a, l, u, v);
    SameBlock(g, m, y, a, l, u, u);
    assert Walk(g, m', a, l, v) == Removed(Walk(g, m, a, l, v), v, lo, size);
  }

  lemma StraddledUnmap(g: Granule, m: Mem, y: Layout, m': Mem, a: nat, l: nat, lo: nat, size: nat)
    requires Wf(g, m, y) && a in m.tables && Level(y, a) == l && Unmapped(g, m, m', a, l, lo, size)
    requires !EndsClean(g, m, a, l, lo, size)
    ensures !ExactlyUnmapped(g, m, m', a, l, lo, size)
  {
    var first := Walk(g, m, a, l, lo);
    if first.Some? && first.value.off != 0 {
      SameBlock(g, m, y, a, l, lo, lo);
      OneTooMany(g, m, y, m', a, l, lo, size, lo, lo - 1);
    } else {
      SameBlock(g, m, y, a, l, lo + size - 1, lo + size);
      OneTooMany(g, m, y, m', a, l, lo, size, lo + size - 1, lo + size);
    }
  }

  // An unmap is exact if and only if no block straddles an end of its range.
  lemma UnmapExact(g: Granule, m: Mem, y: Layout, m': Mem, a: nat, l: nat, lo: nat, size: nat)
    requires Wf(g, m, y) && a in m.tables && Level(y, a) == l && Unmapped(g, m, m', a, l, lo, size)
    ensures ExactlyUnmapped(g, m, m', a, l, lo, size) <==> EndsClean(g, m, a, l, lo, size)
  {
    if EndsClean(g, m, a, l, lo, size) {
      forall v: nat
        ensures Walk(g, m', a, l, v) == if lo <= v < lo + size then None else Walk(g, m, a, l, v)
      {
        CleanUnmap(g, m, y, m', a, l, lo, size, v);
      }
    } else {
      StraddledUnmap(g, m, y, m', a, l, lo, size);
    }
  }

  // A root of n entries, the first of which is a block.
  function WithBlock(n: nat, pa: nat, attrs: Attrs): Mem
    requires 0 < n
  {
    Mem(map[0 := Entries(Pte(BLOCK, pa, attrs), n)], {})
  }

  // There, an unmap of the first page takes the second one too, on every granule
  // with more than one entry to a table.
  lemma UnmapTakesTooMuch(g: Granule, l: nat, n: nat, pa: nat, attrs: Attrs, m': Mem) returns (y: Layout)
    requires g.Ok() && g.fan > 1 && 1 <= l <= g.maxBlock && 0 < n
    ensures var m := WithBlock(n, pa, attrs);
      && Wf(g, m, y) && y.root == 0 && Level(y, 0) == l && 2 * g.page <= Reach(g, m, 0, l)
      && !EndsClean(g, m, 0, l, 0, g.page)
      && Walk(g, m, 0, l, g.page) == Some(Hit(pa, attrs, g.page, Block(g, l)))
      && (Unmapped(g, m, m', 0, l, 0, g.page) ==> Walk(g, m', 0, l, g.page) == None)
  {
    var m := WithBlock(n, pa, attrs);
    y := Layout(0, l, n, map[0 := []], map[[] := 0]);
    assert TableOk(g, m, y, 0);
    TwoPages(g, l, n);
    WalkAt(g, m, 0, l, 0, g.page);
    WalkAt(g, m, 0, l, 0, g.page - 1);
    WalkAt(g, m, 0, l, 0, 0);
    assert Unmapped(g, m, m', 0, l, 0, g.page) ==>
      Walk(g, m', 0, l, g.page) == Removed(Walk(g, m, 0, l, g.page), g.page, 0, g.page);
  }

  lemma TwoPages(g: Granule, l: nat, n: nat)
    requires g.Ok() && g.fan > 1 && 1 <= l && 0 < n
    ensures Start(g, l, 0) == 0 && 2 * g.page <= Block(g, l) <= n * Block(g, l)
  {
    BlockGrows(g, l - 1);
    Order(2, g.fan, Block(g, l - 1));
    Order(1, n, Block(g, l));
  }

  // ---------- the tables are those reachable from the root ----------

  function Follow(m: Mem, a: nat, l: nat, p: seq<nat>): Option<nat>
    decreases l
  {
    if p == [] then Some(a)
    else if l > 0 && a in m.tables && p[0] < |m.tables[a]| && m.tables[a][p[0]].desc == TABLE then
      Follow(m, m.tables[a][p[0]].addr, l - 1, p[1..])
    else None
  }

  lemma {:induction false} FollowTable(g: Granule, m: Mem, y: Layout, a: nat, l: nat, p: seq<nat>)
    requires Wf(g, m, y) && a in m.tables && Level(y, a) == l
    ensures var r := Follow(m, a, l, p); r.Some? ==> r.value in m.tables && y.path[r.value] == y.path[a] + p
    decreases l
  {
    if p != [] && l > 0 && p[0] < |m.tables[a]| && m.tables[a][p[0]].desc == TABLE {
      EntryShape(g, m, y, a, l, p[0]);
      FollowTable(g, m, y, m.tables[a][p[0]].addr, l - 1, p[1..]);
      assert y.path[a] + p == y.path[a] + [p[0]] + p[1..];
    }
  }

  lemma {:induction false} FollowSnoc(m: Mem, a: nat, l: nat, p: seq<nat>, i: nat, b: nat, c: nat)
    requires Follow(m, a, l, p) == Some(b) && |p| < l
    requires b in m.tables && i < |m.tables[b]| && m.tables[b][i].desc == TABLE && m.tables[b][i].addr == c
    ensures Follow(m, a, l, p + [i]) == Some(c)
    decreases l
  {
    if p == [] {
      assert (p + [i])[1..] == [];
    } else {
      assert (p + [i])[1..] == p[1..] + [i];
      FollowSnoc(m, m.tables[a][p[0]].addr, l - 1, p[1..], i, b, c);
    }
  }

  lemma {:induction false} FollowPath(g: Granule, m: Mem, y: Layout, a: nat)
    requires Wf(g, m, y) && a in m.tables
    ensures y.root in m.tables && Level(y, a) >= 0 && Follow(m, y.root, y.top, y.path[a]) == Some(a)
    decreases if a in y.path then |y.path[a]| else 0
  {
    assert TableOk(g, m, y, a);
    var p := y.path[a];
    if p != [] {
      var q, i := p[..|p| - 1], p[|p| - 1];
      var b := y.at[q];
      FollowPath(g, m, y, b);
      FollowSnoc(m, y.root, y.top, q, i, b, a);
      assert q + [i] == p;
    }
  }

  // The allocated tables are exactly those that a walk can reach from the root.
  lemma TablesReachable(g: Granule, m: Mem, y: Layout, a: nat)
    requires Wf(g, m, y)
    ensures a in m.tables <==> exists p :: Follow(m, y.root, y.top, p) == Some(a)
  {
    if a in m.tables {
      FollowPath(g, m, y, a);
    }
    if p :| Follow(m, y.root, y.top, p) == Some(a) {
      FollowTable(g, m, y, y.root, y.top, p);
    }
  }

  // ---------- mapping and unmapping undo each other ----------

  // The ends of a range that has just been mapped are clean.
  lemma MappedEndsClean(g: Granule, m: Mem, m': Mem, a: nat, l: nat, lo: nat, pa: nat, size: nat, attrs: Attrs)
    requires Mapped(g, m, m', a, l, lo, pa, size, attrs)
    ensures EndsClean(g, m', a, l, lo, size)
  {
    if size > 0 {
      assert MappedAt(Walk(g, m, a, l, lo), Walk(g, m', a, l, lo), lo, lo, pa, size, attrs);
      var e := lo + size - 1;
      assert MappedAt(Walk(g, m, a, l, e), Walk(g, m', a, l, e), e, lo, pa, size, attrs);
    }
  }

  // ---------- the address space ----------

  // The difference of two unsigned 64-bit words.
  function Sub(a: int, b: int): nat {
    (a - b) % WORD
  }

  // The loop of arch_mmu_query: follows the tables down from table a.
  method WalkDown(g: Granule, m: Mem, ghost y: Layout, a: nat, l: nat, v: nat) returns (r: Option<Pte>, rem: nat)
    requires Wf(g, m, y) && a in m.tables && Level(y, a) == l && v < Reach(g, m, a, l)
    ensures r == None <==> Walk(g, m, a, l, v) == None
    ensures r.Some? ==> var h := Walk(g, m, a, l, v).value; r.value.addr == h.base && r.value.attrs == h.attrs && rem == h.off
  {
    var level: nat, table := l, a;
    rem := v;
    while true
      invariant table in m.tables && Level(y, table) == level && rem < Reach(g, m, table, level)
      invariant Walk(g, m, table, level, rem) == Walk(g, m, a, l, v)
      decreases level
    {
      ghost var i := IndexOf(g, m, table, level, rem);
      var index := rem / Block(g, level);
      WalkAt(g, m, table, level, index, rem);
      EntryShape(g, m, y, table, level, index);
      rem := rem % Block(g, level);
      var pte := m.tables[table][index];
      if pte.desc == INVALID {
        return None, rem;
      }
      if pte.desc == (if level > 0 then BLOCK else PAGE) {
        return Some(pte), rem;
      }
      // The kernel panics unless this is a table above the last level.
      assert level > 0 && pte.desc == TABLE;
      table := pte.addr;
      level := level - 1;
    }
  }

  class Aspace {
    const g: Granule
    const page: nat            // PAGE_SIZE
    const kernel: bool
    const bti: bool
    const root: nat
    const top: nat             // the level of the root table
    const reach: nat           // the bytes that the root table translates
    const vbase: nat           // the virtual address of the root table's first entry
    const base: nat
    const size: nat
    const paddrEnd: nat        // physical addresses below fit a descriptor
    var mem: Mem
    ghost var layout: Layout

    ghost predicate Valid()
      reads this
    {
      && Wf(g, mem, layout) && layout.root == root && layout.top == top && root in mem.tables
      && page > 0 && Reach(g, mem, root, top) == reach
      && vbase <= base && base + size <= vbase + reach <= WORD && reach < WORD
    }

    // No table but the root is empty.
    ghost predicate NoneEmpty()
      reads this
    {
      Lean(mem, layout, [])
    }

    // The translation of a virtual address.
    ghost function At(v: nat): Option<Hit>
      reads this
      requires Valid()
    {
      if v < vbase then None else Walk(g, mem, root, top, v - vbase)
    }

    predicate IsValid(v: nat) {
      size != 0 && base <= v <= base + (size - 1)
    }

    constructor (g: Granule, page: nat, kernel: bool, bti: bool, root: nat, top: nat, entries: nat, reach: nat, vbase: nat, base: nat, size: nat, paddrEnd: nat, pool: set<nat>)
      requires g.Ok() && page > 0 && root !in pool
      requires vbase <= base && base + size <= vbase + reach <= WORD && reach == entries * Block(g, top) < WORD
      ensures Valid() && mem.pool == pool && mem.tables.Keys == {root} && NoneEmpty()
      ensures forall v: nat :: At(v) == None
    {
      this.g, this.page, this.kernel, this.bti := g, page, kernel, bti;
      this.root, this.top, this.reach := root, top, reach;
      this.vbase, this.base, this.size, this.paddrEnd := vbase, base, size, paddrEnd;
      var t := seq(entries, _ => CLEAR);
      mem := Mem(map[root := t], pool);
      layout := Layout(root, top, entries, map[root := []], map[[] := root]);
      new;
      FreshSpace(g, mem, layout);
    }

    // arch_mmu_query: follows the tables from the root in a loop.
    method Query(v: nat) returns (status: Status, paddr: nat, flags: Flags)
      requires Valid() && v < WORD
      ensures status == ErrOutOfRange <==> !(size != 0 && base <= v <= base + (size - 1))
      ensures status == ErrNotFound <==> IsValid(v) && At(v) == None
      ensures status == NoError <==> IsValid(v) && At(v).Some?
      ensures status == NoError ==> paddr == At(v).value.Paddr() && flags == Decode(At(v).value.attrs)
    {
      if !IsValid(v) {
        return ErrOutOfRange, 0, Decode(NO_ATTRS);
      }
      ReachCheck(v, 0);
      var pte, off := WalkDown(g, mem, layout, root, top, Sub(v, vbase));
      if pte == None {
        return ErrNotFound, 0, Decode(NO_ATTRS);
      }
      return NoError, pte.value.addr + off, Decode(pte.value.attrs);
    }

    // The range check of arm64_mmu_map and arm64_mmu_unmap, in 64-bit words.
    predicate InReach(vaddr: nat, bytes: nat)
    {
      !(Sub(vaddr, vbase) > Sub(reach, bytes) || bytes > reach)
    }

    lemma ReachCheck(vaddr: nat, bytes: nat)
      requires vbase <= vaddr < vbase + reach <= WORD && reach < WORD && bytes < WORD
      ensures InReach(vaddr, bytes) <==> vaddr - vbase + bytes <= reach
      ensures Sub(vaddr, vbase) == vaddr - vbase
    {
    }

    function Requested(flags: Flags, supported: bool): Option<Attrs> {
      var a := Encode(bti, supported, flags);
      if a.Some? then Some(a.value.(nonGlobal := !kernel)) else None
    }

    // Which requests for a valid address are refused as invalid.
    ghost predicate Refused(vaddr: nat, paddr: nat, count: nat, flags: Flags, supported: bool)
      requires g.Ok() && page > 0
    {
      var bytes := count * page % WORD;
      || vaddr % page != 0 || paddr % page != 0 || paddr >= paddrEnd
      || (count > 0 && (
        || (!flags.ro && !flags.noExecute) || flags.cache > UNCACHED_DEVICE || (flags.tagged && flags.cache != CACHED)
        || (bti && !flags.noExecute && !supported) || vaddr - vbase + bytes > reach
        || (vaddr - vbase) % g.page != 0 || paddr % g.page != 0 || bytes % g.page != 0))
    }

    // What a mapping of bytes from vaddr to paddr needs of the tables.
    ghost predicate Possible(vaddr: nat, paddr: nat, bytes: nat)
      reads this
      requires Valid() && vbase <= vaddr
    {
      && !Occupied(g, mem, root, top, vaddr - vbase, bytes)
      && !Barred(g, mem, Some(root), top, vaddr - vbase, paddr, bytes)
      && Missing(g, mem, Some(root), top, vaddr - vbase, paddr, bytes) <= |mem.pool|
    }

    // The addresses from vaddr on translate to those from paddr on, a query
    // reports the flags, and the descriptor holds what the flags ask for.
    ghost predicate Shows(vaddr: nat, paddr: nat, bytes: nat, flags: Flags)
      reads this
      requires Valid()
    {
      forall v: nat {:trigger At(v)} :: vaddr <= v < vaddr + bytes ==>
        && At(v).Some? && At(v).value.Paddr() == paddr + (v - vaddr) && Decode(At(v).value.attrs) == flags.(invalid := false)
        && Holds(At(v).value.attrs, flags)
    }

    // Kernel mappings are global, those of users belong to one address space.
    // Only the side that the page is for may execute it, and only if it may be
    // executed at all.
    ghost predicate Holds(a: Attrs, flags: Flags) {
      && (a.nonGlobal <==> !kernel) && a.accessed
      && (a.memory == Normal <==> flags.cache == CACHED && !flags.tagged)
      && (a.memory == NormalTagged <==> flags.cache == CACHED && flags.tagged)
      && (a.memory == StronglyOrdered <==> flags.cache == UNCACHED) && (a.memory == Device <==> flags.cache == UNCACHED_DEVICE)
      && (a.innerShareable <==> flags.cache == CACHED)
      && (a.apUser <==> flags.user) && (a.apReadOnly <==> flags.ro) && (a.ns <==> flags.ns)
      && (!a.uxn <==> flags.user && !flags.noExecute) && (!a.pxn <==> !flags.user && !flags.noExecute)
      && (a.guarded <==> bti && !flags.noExecute)
    }

    // arch_mmu_map. The checks look at the first physical address only, so what
    // is mapped is promised for requests that end within paddrEnd.
    method Map(vaddr: nat, paddr: nat, count: nat, flags: Flags, supported: bool) returns (status: Status)
      requires Valid() && vaddr < WORD
      modifies this
      ensures Valid() && mem.pool + mem.tables.Keys == old(mem.pool + mem.tables.Keys)
      ensures status == NoError && count > 0 ==>
        && Requested(flags, supported).Some?
        && vbase <= vaddr && vaddr - vbase + count * page % WORD <= reach
      ensures status == NoError && count > 0 && paddr + count * page % WORD <= paddrEnd ==>
        && Mapped(g, old(mem), mem, root, top, vaddr - vbase, paddr, count * page % WORD, Requested(flags, supported).value)
        && Shows(vaddr, paddr, count * page % WORD, flags)
      ensures status != NoError || count == 0 ==> forall v: nat :: At(v) == old(At(v))
      ensures status == ErrOutOfRange <==> !(size != 0 && base <= vaddr <= base + (size - 1))
      ensures status == ErrInvalidArgs <==> IsValid(vaddr) && Refused(vaddr, paddr, count, flags, supported)
      ensures status == ErrGeneric <==>
        && IsValid(vaddr) && !Refused(vaddr, paddr, count, flags, supported) && count > 0
        && !old(Possible(vaddr, paddr, count * page % WORD))
      ensures status != ErrNotFound
      ensures old(NoneEmpty()) && status != ErrGeneric ==> NoneEmpty()
    {
      if !IsValid(vaddr) {
        return ErrOutOfRange;
      }
      if vaddr % page != 0 || paddr % page != 0 || paddr >= paddrEnd {
        return ErrInvalidArgs;
      }
      if count == 0 {
        return NoError;
      }
      var attrs := Requested(flags, supported);
      var bytes := count * page % WORD;
      if attrs == None {
        return ErrInvalidArgs;
      }
      ghost var m0 := mem;
      status := MapRange(vaddr, paddr, bytes, attrs.value);
      hide Mapped, Wf, Lean, Occupied, Barred, Missing, Encode, Shows;
      if status == NoError && paddr + bytes <= paddrEnd {
        ShowsMapped(m0, vaddr, paddr, bytes, flags, supported);
      }
    }

    // arm64_mmu_map
    method MapRange(vaddr: nat, paddr: nat, bytes: nat, attrs: Attrs) returns (status: Status)
      requires Valid() && vbase <= vaddr < vbase + reach && bytes < WORD
      modifies this
      ensures Valid() && mem.pool + mem.tables.Keys == old(mem.pool + mem.tables.Keys)
      ensures status in {NoError, ErrInvalidArgs, ErrGeneric}
      ensures status == ErrInvalidArgs <==>
        vaddr - vbase + bytes > reach || (vaddr - vbase) % g.page != 0 || paddr % g.page != 0 || bytes % g.page != 0
      ensures status == NoError ==> Mapped(g, old(mem), mem, root, top, vaddr - vbase, paddr, bytes, attrs)
      ensures status != NoError ==> forall v: nat :: At(v) == old(At(v))
      ensures status != ErrInvalidArgs ==> (status == NoError <==> old(Possible(vaddr, paddr, bytes)))
      ensures old(NoneEmpty()) && status != ErrGeneric ==> NoneEmpty()
    {
      hide Mapped, Lean, MapDone, Took, Unchanged, Room, Occupied, Barred, Missing, Drained, EntryOk, TableOk;
      ReachCheck(vaddr, bytes);
      if !InReach(vaddr, bytes) {
        return ErrInvalidArgs;
      }
      var m;
      ghost var y;
      ghost var m0, y0 := mem, layout;
      status, m, y := MapPt(g, mem, layout, root, top, Sub(vaddr, vbase), paddr, bytes, attrs);
      MapOutcome(g, m0, y0, m, y, root, top, Sub(vaddr, vbase), paddr, bytes, attrs, status);
      mem, layout := m, y;
    }

    lemma ShowsMapped(m0: Mem, vaddr: nat, paddr: nat, bytes: nat, flags: Flags, supported: bool)
      requires Valid() && vbase <= vaddr && Requested(flags, supported).Some?
      requires Mapped(g, m0, mem, root, top, vaddr - vbase, paddr, bytes, Requested(flags, supported).value)
      ensures Shows(vaddr, paddr, bytes, flags)
    {
      RoundTrip(bti, supported, flags, !kernel);
      forall v: nat | vaddr <= v < vaddr + bytes
        ensures At(v).Some? && At(v).value.Paddr() == paddr + (v - vaddr)
        ensures Decode(At(v).value.attrs) == flags.(invalid := false) && Holds(At(v).value.attrs, flags)
      {
        var r := v - vbase;
        assert MappedAt(Walk(g, m0, root, top, r), Walk(g, mem, root, top, r), r, vaddr - vbase, paddr, bytes, Requested(flags, supported).value);
      }
    }

    lemma UnmappedPlain(m0: Mem, vaddr: nat, bytes: nat)
      requires Valid() && vbase <= vaddr && Unmapped(g, m0, mem, root, top, vaddr - vbase, bytes)
      ensures forall v: nat :: At(v) == var h := if v < vbase then None else Walk(g, m0, root, top, v - vbase);
        if h.Some? && v - h.value.off < vaddr + bytes && vaddr < v - h.value.off + h.value.size && 0 < bytes then None else h
    {
      hide Valid, Walk;
      forall v: nat
        ensures At(v) == if v < vbase then None else Removed(Walk(g, m0, root, top, v - vbase), v - vbase, vaddr - vbase, bytes)
      {
      }
    }

    // arch_mmu_unmap
    method Unmap(vaddr: nat, count: nat) returns (status: Status)
      requires Valid() && vaddr < WORD
      modifies this
      ensures Valid() && mem.pool + mem.tables.Keys == old(mem.pool + mem.tables.Keys)
      ensures status == NoError ==>
        && vbase <= vaddr && vaddr - vbase + count * page % WORD <= reach
        && Unmapped(g, old(mem), mem, root, top, vaddr - vbase, count * page % WORD)
      // An address loses its translation if its page or block has one of the
      // addresses unmapped.
      ensures status == NoError ==> forall v: nat :: At(v) == if old(At(v)).Some? &&
        v - old(At(v)).value.off < vaddr + count * page % WORD && vaddr < v - old(At(v)).value.off + old(At(v)).value.size &&
        0 < count * page % WORD then None else old(At(v))
      ensures status != NoError ==> mem == old(mem)
      ensures status == ErrOutOfRange <==> !(size != 0 && base <= vaddr <= base + (size - 1))
      ensures status == ErrInvalidArgs <==>
                IsValid(vaddr) && (vaddr % page != 0 || vaddr - vbase + count * page % WORD > reach)
      ensures status == NoError || status == ErrOutOfRange || status == ErrInvalidArgs
      ensures old(NoneEmpty()) ==> NoneEmpty()
    {
      if !IsValid(vaddr) {
        return ErrOutOfRange;
      }
      if vaddr % page != 0 {
        return ErrInvalidArgs;
      }
      var bytes := count * page % WORD;
      ReachCheck(vaddr, bytes);
      if !InReach(vaddr, bytes) {
        return ErrInvalidArgs;
      }
      var m;
      ghost var y;
      ghost var m0, y0 := mem, layout;
      m, y := UnmapPt(g, mem, layout, root, top, Sub(vaddr, vbase), bytes);
      RootKept(g, m0, y0, m, y);
      mem, layout := m, y;
      UnmappedPlain(m0, vaddr, bytes);
      return NoError;
    }
  }

  // A mapping and a query of one of its addresses: the query finds the physical
  // address and the flags that were asked for.
  method MapThenQuery(s: Aspace, vaddr: nat, paddr: nat, count: nat, flags: Flags, supported: bool, v: nat)
    returns (status: Status, queried: Status, pa: nat, found: Flags)
    requires s.Valid() && vaddr <= v < vaddr + count * s.page % WORD && paddr + count * s.page % WORD <= s.paddrEnd
    requires v < WORD && s.IsValid(v)
    modifies s
    ensures status == NoError ==> queried == NoError && pa == paddr + (v - vaddr) && found == flags.(invalid := false)
  {
    status := s.Map(vaddr, paddr, count, flags, supported);
    queried, pa, found := s.Query(v);
  }

  lemma MapOutcome(g: Granule, m: Mem, y: Layout, m': Mem, y': Layout, a: nat, l: nat, lo: nat, pa: nat, size: nat, attrs: Attrs, status: Status)
    requires Wf(g, m, y) && a in m.tables && a == y.root && Level(y, a) == l
    requires status == NoError || status == ErrInvalidArgs || status == ErrGeneric
    requires status == ErrInvalidArgs ==> m' == m && y' == y
    requires status == NoError ==> MapDone(g, m, y, m', y', a, l, lo, pa, size, attrs) && Took(g, m, y, m', y', a, l, lo, pa, size)
    requires status != NoError ==> Unchanged(g, m, y, m', y', a, l)
    ensures Wf(g, m', y') && y'.root == y.root && y'.top == y.top && a in m'.tables && Reach(g, m', a, l) == Reach(g, m, a, l)
    ensures m'.pool + m'.tables.Keys == m.pool + m.tables.Keys
    ensures status == NoError ==> Mapped(g, m, m', a, l, lo, pa, size, attrs)
    ensures status != NoError ==> forall v: nat :: Walk(g, m', a, l, v) == Walk(g, m, a, l, v)
    ensures status != ErrGeneric && Lean(m, y, []) ==> Lean(m', y', [])
    ensures Room(g, m, a, l, lo, pa, size) <==>
      !Occupied(g, m, a, l, lo, size) && !Barred(g, m, Some(a), l, lo, pa, size) && Missing(g, m, Some(a), l, lo, pa, size) <= |m.pool|
  {
    RootKept(g, m, y, m', y');
    RoomIff(g, m, y, a, l, lo, pa, size);
  }

  lemma FreshSpace(g: Granule, m: Mem, y: Layout)
    requires g.Ok() && m.tables.Keys == {y.root} && y.root !in m.pool
    requires y.path == map[y.root := []] && y.at == map[[] := y.root]
    requires |m.tables[y.root]| == y.rootEntries && forall i :: 0 <= i < y.rootEntries ==> m.tables[y.root][i] == CLEAR
    ensures Wf(g, m, y) && forall v: nat :: Walk(g, m, y.root, y.top, v) == None
  {
    assert TableOk(g, m, y, y.root);
    forall v: nat
      ensures Walk(g, m, y.root, y.top, v) == None
    {
      var i := IndexOf(g, m, y.root, y.top, v);
      if i < y.rootEntries {
        WalkAt(g, m, y.root, y.top, i, v);
      }
    }
  }

  lemma RootKept(g: Granule, m: Mem, y: Layout, m': Mem, y': Layout)
    requires Wf(g, m, y) && y.root in m.tables && Kept(g, m, y, m', y', y.root)
    ensures y'.root == y.root && y'.top == y.top && y.root in m'.tables && y'.path[y.root] == y.path[y.root] == []
    ensures Reach(g, m', y.root, y.top) == Reach(g, m, y.root, y.top)
    ensures m'.pool + m'.tables.Keys == m.pool + m.tables.Keys
  {
  }
}
