// Resource groups: pages set aside for a group, taken for objects and released again.
module Quota {
  // Every method of Memory is one stretch under a lock, so that the steps of
  // several threads can follow each other in any order.

  import opened Common
  import opened Arenas
  import opened FreeRun
  import opened Pmm
  import opened Reserves

  datatype Status = NoError | ErrNoMemory | ErrObjectDestroyed

  // ---------- sums ----------

  function Sum<T>(s: seq<T>, f: T -> nat): nat {
    if s == [] then 0 else f(s[0]) + Sum(s[1..], f)
  }

  lemma {:induction false} SumSet<T>(s: seq<T>, i: nat, v: T, f: T -> nat)
    requires i < |s|
    ensures Sum(s[i := v], f) == Sum(s, f) - f(s[i]) + f(v)
    ensures f(s[i]) <= Sum(s, f)
  {
    if i > 0 {
      SumSet(s[1..], i - 1, v, f);
      assert s[i := v][1..] == s[1..][i - 1 := v];
    }
  }

  lemma {:induction false} SumAppend<T>(s: seq<T>, v: T, f: T -> nat)
    ensures Sum(s + [v], f) == Sum(s, f) + f(v)
  {
    if s == [] {
      assert (s + [v])[1..] == [];
    } else {
      SumAppend(s[1..], v, f);
      assert (s + [v])[1..] == s[1..] + [v];
    }
  }

  lemma {:induction false} SumZero<T>(s: seq<T>, f: T -> nat)
    ensures Sum(s, f) == 0 <==> forall i :: 0 <= i < |s| ==> f(s[i]) == 0
  {
    if s != [] {
      SumZero(s[1..], f);
      if forall i :: 0 <= i < |s| ==> f(s[i]) == 0 {
        forall i | 0 <= i < |s[1..]|
          ensures f(s[1..][i]) == 0
        {
          assert s[1..][i] == s[i + 1];
        }
      }
    }
  }

  // ---------- groups, objects and threads ----------

  // A group: refs counts its references, of which holders are held from
  // outside of objects.
  datatype Group = Group(reserved: nat, used: nat, shutdown: bool, refs: nat, holders: nat, live: bool)

  // Memory of a client: its pages, and the group that pays for them.
  datatype Obj = Obj(group: Option<nat>, pages: seq<Page>, live: bool)

  // What a thread is in the middle of.
  datatype Op =
    | Idle
    | Reserved(n: nat)           // set aside for a group to be created
    | Taken(g: nat, n: nat)      // taken from a group and not yet allocated
    | Returned(g: nat, n: nat)   // returned and not yet released
    | Leaving(g: nat)            // about to drop the reference of an object
    | Unreserving(n: nat)        // no longer a group's and still set aside

  function Left(): Group -> nat {
    (g: Group) => if g.used <= g.reserved then g.reserved - g.used else 0
  }

  function Weight(): Op -> nat {
    (op: Op) => match op
      case Reserved(n) => n
      case Taken(g, n) => n
      case Returned(g, n) => n
      case Unreserving(n) => n
      case _ => 0
  }

  function UsedByObj(g: nat): Obj -> nat {
    (o: Obj) => if o.live && o.group == Some(g) then |o.pages| else 0
  }

  function UsedByOp(g: nat): Op -> nat {
    (op: Op) => match op
      case Taken(h, n) => if h == g then n else 0
      case Returned(h, n) => if h == g then n else 0
      case _ => 0
  }

  // The references that objects have on a group.
  function RefsByObj(g: nat): Obj -> nat {
    (o: Obj) => if o.live && o.group == Some(g) then 1 else 0
  }

  function RefsByOp(g: nat): Op -> nat {
    (op: Op) => match op
      case Returned(h, n) => if h == g then 1 else 0
      case Leaving(h) => if h == g then 1 else 0
      case _ => 0
  }

  function TakesByOp(g: nat): Op -> nat {
    (op: Op) => match op
      case Taken(h, n) => if h == g then 1 else 0
      case _ => 0
  }

  // ---------- the invariants ----------

  // What is set aside in the arenas is what the groups have left, and what the
  // threads are in the middle of.
  ghost predicate Balanced(x: seq<Arena>, groups: seq<Group>, ops: seq<Op>) {
    SumReserved(x) == Sum(groups, Left()) + Sum(ops, Weight())
  }

  ghost predicate GroupOk(groups: seq<Group>, objs: seq<Obj>, ops: seq<Op>, g: nat)
    requires g < |groups|
  {
    var r := groups[g];
    && r.used <= r.reserved
    && r.used == Sum(objs, UsedByObj(g)) + Sum(ops, UsedByOp(g))
    && r.refs == r.holders + Sum(objs, RefsByObj(g)) + Sum(ops, RefsByOp(g))
    && (r.live <==> r.refs > 0)
    && (!r.live ==> r.reserved == 0)
    && (r.holders == 0 ==> Sum(ops, TakesByOp(g)) == 0)
    && (r.live && r.holders == 0 ==> r.shutdown)
  }

  ghost predicate GroupsOk(groups: seq<Group>, objs: seq<Obj>, ops: seq<Op>) {
    && (forall g :: 0 <= g < |groups| ==> GroupOk(groups, objs, ops, g))
    && (forall t :: 0 <= t < |ops| ==> OpOk(groups, ops[t]))
    && (forall o :: 0 <= o < |objs| && objs[o].live && objs[o].group.Some? ==> objs[o].group.value < |groups|)
  }

  ghost predicate OpOk(groups: seq<Group>, op: Op) {
    match op
    case Taken(g, n) => g < |groups|
    case Returned(g, n) => g < |groups|
    case Leaving(g) => g < |groups|
    case _ => true
  }

  // The pages of an object are in use, and charged to the reserve if a group
  // pays for them.
  ghost predicate ObjOk(x: seq<Arena>, o: Obj) {
    o.live ==> InUse(x, o.pages) && AllReserved(x, o.pages, o.group.Some?)
  }

  ghost predicate ObjsOk(x: seq<Arena>, objs: seq<Obj>) {
    && (forall o :: 0 <= o < |objs| ==> ObjOk(x, objs[o]))
    && (forall o, q, p :: 0 <= o < |objs| && 0 <= q < |objs| && objs[o].live && objs[q].live && p in objs[o].pages && p in objs[q].pages ==> o == q)
  }

  // ---------- pages of objects ----------

  lemma FlagsKeepObjs(x: seq<Arena>, y: seq<Arena>, objs: seq<Obj>)
    requires ObjsOk(x, objs)
    requires |x| == |y| && forall a :: 0 <= a < |x| ==> y[a].nonfree == x[a].nonfree && y[a].reserved == x[a].reserved
    ensures ObjsOk(y, objs)
  {
    forall o | 0 <= o < |objs|
      ensures ObjOk(y, objs[o])
    {
      assert ObjOk(x, objs[o]);
    }
  }

  lemma HeldWasFree(x: seq<Arena>, y: seq<Arena>, ps: seq<Page>, r: bool, p: Page)
    requires Held(x, y, ps, r)
    ensures p in ps ==> PageIn(x, p) && !x[p.a].nonfree[p.i]
  {
  }

  lemma HeldKeepsObj(x: seq<Arena>, y: seq<Arena>, ps: seq<Page>, r: bool, o: Obj)
    requires Held(x, y, ps, r) && ObjOk(x, o) && o.live
    ensures ObjOk(y, o) && forall p :: p in o.pages ==> p !in ps
  {
    forall p | p in o.pages
      ensures p !in ps
    {
      var k :| 0 <= k < |o.pages| && o.pages[k] == p;
      assert x[p.a].nonfree[p.i];
      HeldWasFree(x, y, ps, r, p);
    }
    forall k | 0 <= k < |o.pages|
      ensures PageIn(y, o.pages[k]) && y[o.pages[k].a].nonfree[o.pages[k].i] && y[o.pages[k].a].reserved[o.pages[k].i] == o.group.Some?
    {
      var p := o.pages[k];
      assert p in o.pages && PageIn(x, p);
      assert y[p.a].reserved[p.i] == (x[p.a].reserved[p.i] || (r && Page(p.a, p.i) in ps));
    }
  }

  // Newly allocated pages belong to no object yet.
  lemma AllocKeepsObjs(x: seq<Arena>, y: seq<Arena>, ps: seq<Page>, r: bool, objs: seq<Obj>, o: Obj)
    requires AllOk(x) && AllOk(y) && Held(x, y, ps, r) && ObjsOk(x, objs)
    requires o.pages == ps && o.live && o.group.Some? == r
    ensures ObjsOk(y, objs + [o])
  {
    HeldNew(x, y, ps, r);
    var all := objs + [o];
    forall i | 0 <= i < |all|
      ensures ObjOk(y, all[i])
    {
      if i < |objs| && objs[i].live {
        assert ObjOk(x, objs[i]);
        HeldKeepsObj(x, y, ps, r, objs[i]);
      }
    }
    forall i, p | 0 <= i < |objs| && objs[i].live && p in objs[i].pages
      ensures p !in ps
    {
      assert ObjOk(x, objs[i]);
      HeldKeepsObj(x, y, ps, r, objs[i]);
    }
  }

  lemma HeldNew(x: seq<Arena>, y: seq<Arena>, ps: seq<Page>, r: bool)
    requires AllOk(x) && AllOk(y) && Held(x, y, ps, r)
    ensures InUse(y, ps) && AllReserved(y, ps, r)
  {
    HeldInUse(x, y, ps, r);
    forall k | 0 <= k < |ps|
      ensures PageIn(y, ps[k]) && y[ps[k].a].reserved[ps[k].i] == r
    {
      var p := ps[k];
      assert PageIn(x, p) && !x[p.a].nonfree[p.i] && ArenaOk(x[p.a]);
      assert y[p.a].reserved[p.i] == (x[p.a].reserved[p.i] || (r && Page(p.a, p.i) in ps));
    }
  }

  lemma FreeKeepsObjs(x: seq<Arena>, y: seq<Arena>, objs: seq<Obj>, o: nat)
    requires ObjsOk(x, objs) && o < |objs| && objs[o].live && Freed(x, y, objs[o].pages)
    ensures ObjsOk(y, objs[o := objs[o].(live := false)])
  {
    var rest := objs[o := objs[o].(live := false)];
    forall i | 0 <= i < |rest|
      ensures ObjOk(y, rest[i])
    {
      if i != o && objs[i].live {
        assert ObjOk(x, objs[i]);
        forall k | 0 <= k < |objs[i].pages|
          ensures var p := objs[i].pages[k];
            PageIn(y, p) && y[p.a].nonfree[p.i] && y[p.a].reserved[p.i] == objs[i].group.Some?
        {
          var p := objs[i].pages[k];
          assert p in objs[i].pages && p !in objs[o].pages && PageIn(x, p);
          assert y[p.a].nonfree[p.i] == (x[p.a].nonfree[p.i] && Page(p.a, p.i) !in objs[o].pages);
        }
      }
    }
  }

  // ---------- sums after one change ----------

  lemma OpChanged(ops: seq<Op>, t: nat, op: Op, g: nat)
    requires t < |ops|
    ensures Sum(ops[t := op], UsedByOp(g)) == Sum(ops, UsedByOp(g)) - UsedByOp(g)(ops[t]) + UsedByOp(g)(op)
    ensures UsedByOp(g)(ops[t]) <= Sum(ops, UsedByOp(g))
    ensures Sum(ops[t := op], RefsByOp(g)) == Sum(ops, RefsByOp(g)) - RefsByOp(g)(ops[t]) + RefsByOp(g)(op)
    ensures RefsByOp(g)(ops[t]) <= Sum(ops, RefsByOp(g))
    ensures Sum(ops[t := op], TakesByOp(g)) == Sum(ops, TakesByOp(g)) - TakesByOp(g)(ops[t]) + TakesByOp(g)(op)
    ensures TakesByOp(g)(ops[t]) <= Sum(ops, TakesByOp(g))
  {
    SumSet(ops, t, op, UsedByOp(g));
    SumSet(ops, t, op, RefsByOp(g));
    SumSet(ops, t, op, TakesByOp(g));
  }

  lemma ObjAdded(objs: seq<Obj>, o: Obj, g: nat)
    ensures Sum(objs + [o], UsedByObj(g)) == Sum(objs, UsedByObj(g)) + UsedByObj(g)(o)
    ensures Sum(objs + [o], RefsByObj(g)) == Sum(objs, RefsByObj(g)) + RefsByObj(g)(o)
  {
    SumAppend(objs, o, UsedByObj(g));
    SumAppend(objs, o, RefsByObj(g));
  }

  lemma ObjDestroyed(objs: seq<Obj>, i: nat, g: nat)
    requires i < |objs|
    ensures var rest := objs[i := objs[i].(live := false)];
      && Sum(rest, UsedByObj(g)) == Sum(objs, UsedByObj(g)) - UsedByObj(g)(objs[i])
      && Sum(rest, RefsByObj(g)) == Sum(objs, RefsByObj(g)) - RefsByObj(g)(objs[i])
  {
    SumSet(objs, i, objs[i].(live := false), UsedByObj(g));
    SumSet(objs, i, objs[i].(live := false), RefsByObj(g));
  }

  // A thread goes on to something that concerns no group.
  lemma OpAside(groups: seq<Group>, objs: seq<Obj>, ops: seq<Op>, t: nat, op: Op)
    requires GroupsOk(groups, objs, ops) && t < |ops|
    requires ops[t].Idle? || ops[t].Reserved? || ops[t].Unreserving?
    requires op.Idle? || op.Reserved? || op.Unreserving?
    ensures GroupsOk(groups, objs, ops[t := op])
  {
    var after := ops[t := op];
    forall g | 0 <= g < |groups|
      ensures GroupOk(groups, objs, after, g)
    {
      assert GroupOk(groups, objs, ops, g);
      OpChanged(ops, t, op, g);
    }
  }

  // Without references there is no use.
  lemma NoRefsNoUse(objs: seq<Obj>, ops: seq<Op>, g: nat)
    requires Sum(objs, RefsByObj(g)) == 0 && Sum(ops, RefsByOp(g)) == 0 && Sum(ops, TakesByOp(g)) == 0
    ensures Sum(objs, UsedByObj(g)) == 0 && Sum(ops, UsedByOp(g)) == 0
  {
    SumZero(objs, RefsByObj(g));
    SumZero(objs, UsedByObj(g));
    SumZero(ops, RefsByOp(g));
    SumZero(ops, TakesByOp(g));
    SumZero(ops, UsedByOp(g));
    forall i | 0 <= i < |objs|
      ensures UsedByObj(g)(objs[i]) == 0
    {
      assert RefsByObj(g)(objs[i]) == 0;
    }
    forall t | 0 <= t < |ops|
      ensures UsedByOp(g)(ops[t]) == 0
    {
      assert RefsByOp(g)(ops[t]) == 0 && TakesByOp(g)(ops[t]) == 0;
    }
  }

  // ---------- one step of a thread and its group ----------

  // Only group g and thread t change, and group g stays in order.
  lemma GroupMoved(groups: seq<Group>, objs: seq<Obj>, ops: seq<Op>, g: nat, r: Group, t: nat, op: Op)
    requires GroupsOk(groups, objs, ops) && g < |groups| && t < |ops|
    requires OpOk(groups, op) && OnlyGroup(ops[t], g) && OnlyGroup(op, g)
    requires GroupOk(groups[g := r], objs, ops[t := op], g)
    ensures GroupsOk(groups[g := r], objs, ops[t := op])
  {
    var gs, after := groups[g := r], ops[t := op];
    forall h | 0 <= h < |gs|
      ensures GroupOk(gs, objs, after, h)
    {
      assert GroupOk(groups, objs, ops, h);
      OpChanged(ops, t, op, h);
    }
    forall i | 0 <= i < |after|
      ensures OpOk(gs, after[i])
    {
      if i != t {
        assert OpOk(groups, ops[i]);
      }
    }
  }

  // The thread is at nothing that concerns another group.
  predicate OnlyGroup(op: Op, g: nat) {
    match op
    case Taken(h, n) => h == g
    case Returned(h, n) => h == g
    case Leaving(h) => h == g
    case _ => true
  }

  lemma ObjCharged(groups: seq<Group>, objs: seq<Obj>, ops: seq<Op>, t: nat, g: nat, o: Obj)
    requires GroupsOk(groups, objs, ops) && g < |groups| && t < |ops| && ops[t] == Taken(g, |o.pages|)
    requires o.live && o.group == Some(g)
    ensures GroupsOk(groups[g := groups[g].(refs := groups[g].refs + 1)], objs + [o], ops[t := Idle])
  {
    var gs, os, after := groups[g := groups[g].(refs := groups[g].refs + 1)], objs + [o], ops[t := Idle];
    forall h | 0 <= h < |gs|
      ensures GroupOk(gs, os, after, h)
    {
      assert GroupOk(groups, objs, ops, h);
      OpChanged(ops, t, Idle, h);
      ObjAdded(objs, o, h);
    }
    forall i | 0 <= i < |after|
      ensures OpOk(gs, after[i])
    {
      assert OpOk(groups, ops[i]);
    }
  }

  lemma ObjUncharged(groups: seq<Group>, objs: seq<Obj>, ops: seq<Op>, o: Obj)
    requires GroupsOk(groups, objs, ops) && o.group == None
    ensures GroupsOk(groups, objs + [o], ops)
  {
    var os := objs + [o];
    forall h | 0 <= h < |groups|
      ensures GroupOk(groups, os, ops, h)
    {
      assert GroupOk(groups, objs, ops, h);
      ObjAdded(objs, o, h);
    }
  }

  lemma ObjReturned(groups: seq<Group>, objs: seq<Obj>, ops: seq<Op>, t: nat, o: nat)
    requires GroupsOk(groups, objs, ops) && t < |ops| && ops[t] == Idle && o < |objs| && objs[o].live && objs[o].group.Some?
    ensures GroupsOk(groups, objs[o := objs[o].(live := false)], ops[t := Returned(objs[o].group.value, |objs[o].pages|)])
  {
    var op := Returned(objs[o].group.value, |objs[o].pages|);
    var os, after := objs[o := objs[o].(live := false)], ops[t := op];
    forall h | 0 <= h < |groups|
      ensures GroupOk(groups, os, after, h)
    {
      assert GroupOk(groups, objs, ops, h);
      OpChanged(ops, t, op, h);
      ObjDestroyed(objs, o, h);
    }
  }

  lemma ObjDropped(groups: seq<Group>, objs: seq<Obj>, ops: seq<Op>, o: nat)
    requires GroupsOk(groups, objs, ops) && o < |objs| && objs[o].group == None
    ensures GroupsOk(groups, objs[o := objs[o].(live := false)], ops)
  {
    var os := objs[o := objs[o].(live := false)];
    forall h | 0 <= h < |groups|
      ensures GroupOk(groups, os, ops, h)
    {
      assert GroupOk(groups, objs, ops, h);
      ObjDestroyed(objs, o, h);
    }
  }

  // The pages that a thread has taken from its group are all set aside.
  lemma EnoughReserved(x: seq<Arena>, groups: seq<Group>, ops: seq<Op>, t: nat, g: nat, count: nat)
    requires Balanced(x, groups, ops) && t < |ops| && ops[t] == Taken(g, count)
    ensures count <= SumReserved(x)
  {
    SumSet(ops, t, Idle, Weight());
  }

  lemma MappedStill(x: seq<Arena>, y: seq<Arena>, ps: seq<Page>, r: bool, kmap: bool)
    requires Held(x, y, ps, r) && (kmap ==> forall k :: 0 <= k < |ps| ==> ps[k].a < |x| && x[ps[k].a].kmap)
    ensures kmap ==> forall p :: p in ps ==> p.a < |y| && y[p.a].kmap
  {
    forall p | kmap && p in ps
      ensures p.a < |y| && y[p.a].kmap
    {
      var k :| 0 <= k < |ps| && ps[k] == p;
      assert SameArena(x[p.a], y[p.a]);
    }
  }

  lemma BalancedAfter(x: seq<Arena>, y: seq<Arena>, groups: seq<Group>, ops: seq<Op>, t: nat, g: nat, count: nat)
    requires Balanced(x, groups, ops) && t < |ops| && ops[t] == Taken(g, count) && g < |groups|
    requires SumReserved(y) == SumReserved(x) - count
    ensures Balanced(y, groups[g := groups[g].(refs := groups[g].refs + 1)], ops[t := Idle])
  {
    SumSet(ops, t, Idle, Weight());
    SumSet(groups, g, groups[g].(refs := groups[g].refs + 1), Left());
  }

  lemma RestoredKeeps(x: seq<Arena>, y: seq<Arena>, groups: seq<Group>, objs: seq<Obj>, ops: seq<Op>)
    requires Restored(x, y) && ObjsOk(x, objs) && Balanced(x, groups, ops)
    ensures ObjsOk(y, objs) && Balanced(y, groups, ops)
  {
    FlagsKeepObjs(x, y, objs);
    SameReserved(x, y);
  }

  lemma {:induction false} NothingReserved(x: seq<Arena>)
    requires forall a :: 0 <= a < |x| ==> x[a].reservedCount == 0
    ensures SumReserved(x) == 0
  {
    if x != [] {
      NothingReserved(x[1..]);
    }
  }

  lemma {:induction false} SameReserved(x: seq<Arena>, y: seq<Arena>)
    requires |x| == |y| && forall a :: 0 <= a < |x| ==> x[a].reservedCount == y[a].reservedCount
    ensures SumReserved(x) == SumReserved(y)
  {
    if x != [] {
      SameReserved(x[1..], y[1..]);
    }
  }

  // ---------- the steps ----------

  class Memory {
    const page: nat
    var arenas: seq<Arena>
    var groups: seq<Group>
    var objs: seq<Obj>
    ghost var ops: seq<Op>

    ghost predicate Valid()
      reads this
    {
      && AllOk(arenas)
      && Balanced(arenas, groups, ops)
      && GroupsOk(groups, objs, ops)
      && ObjsOk(arenas, objs)
    }

    constructor (page: nat, arenas: seq<Arena>, threads: nat)
      requires AllOk(arenas) && forall a :: 0 <= a < |arenas| ==> arenas[a].reservedCount == 0
      ensures Valid() && this.page == page && this.arenas == arenas
      ensures groups == [] && objs == [] && ops == seq(threads, _ => Idle)
    {
      this.page, this.arenas, groups, objs := page, arenas, [], [];
      ops := seq(threads, _ => Idle);
      new;
      NothingReserved(arenas);
      SumZero(ops, Weight());
    }

    // res_group_create, first half: sets the pages aside.
    method SetAside(ghost t: nat, pages: nat) returns (ok: bool)
      requires Valid() && t < |ops| && ops[t] == Idle
      modifies this
      ensures Valid() && groups == old(groups) && objs == old(objs) && OnlyReserves(old(arenas), arenas)
      ensures ok <==> pages <= SumFree(old(arenas), |old(arenas)|)
      ensures ops == if ok then old(ops)[t := Reserved(pages)] else old(ops)
    {
      ghost var x := arenas;
      ok, arenas := ReservePages(arenas, pages);
      FlagsKeepObjs(x, arenas, objs);
      if ok {
        OpAside(groups, objs, ops, t, Reserved(pages));
        SumSet(ops, t, Reserved(pages), Weight());
        ops := ops[t := Reserved(pages)];
      }
    }

    // res_group_create, second half: the group starts out with one reference.
    method CreateGroup(ghost t: nat, pages: nat) returns (g: nat)
      requires Valid() && t < |ops| && ops[t] == Reserved(pages)
      modifies this
      ensures Valid() && arenas == old(arenas) && objs == old(objs) && g == |old(groups)|
      ensures groups == old(groups) + [Group(pages, 0, false, 1, 1, true)] && ops == old(ops)[t := Idle]
    {
      g := |groups|;
      var r := Group(pages, 0, false, 1, 1, true);
      SumAppend(groups, r, Left());
      SumSet(ops, t, Idle, Weight());
      OpAside(groups, objs, ops, t, Idle);
      GroupAdded(groups, objs, ops[t := Idle], r);
      groups := groups + [r];
      ops := ops[t := Idle];
    }

    // res_group_take_mem with check_take, where total is a sum of 64-bit words.
    method TakeMem(ghost t: nat, g: nat, pages: nat) returns (status: Status)
      requires Valid() && t < |ops| && ops[t] == Idle && g < |groups| && groups[g].live && groups[g].holders > 0
      requires groups[g].reserved < WORD && pages < WORD
      modifies this
      ensures Valid() && arenas == old(arenas) && objs == old(objs)
      ensures status == ErrObjectDestroyed <==> old(groups)[g].shutdown
      ensures status == NoError <==> !old(groups)[g].shutdown && pages <= old(groups)[g].reserved - old(groups)[g].used
      ensures status == NoError ==>
        && groups == old(groups)[g := old(groups)[g].(used := old(groups)[g].used + pages)]
        && ops == old(ops)[t := Taken(g, pages)]
      ensures status != NoError ==> groups == old(groups) && ops == old(ops)
    {
      assert GroupOk(groups, objs, ops, g);
      var r := groups[g];
      if r.shutdown {
        return ErrObjectDestroyed;
      }
      if r.used + pages >= WORD || r.used + pages > r.reserved {
        return ErrNoMemory;
      }
      Charged(arenas, groups, objs, ops, t, g, pages);
      hide *;
      groups := groups[g := r.(used := r.used + pages)];
      ops := ops[t := Taken(g, pages)];
      status := NoError;
    }

    // pmm_alloc_from_res_group after its group has been charged. It never fails
    // for lack of pages unless it asks for a run or for mapped pages.
    method AllocFromGroup(ghost t: nat, g: nat, count: nat, contiguous: bool, kmap: bool, alignment: nat) returns (ok: bool)
      requires Valid() && t < |ops| && ops[t] == Taken(g, count) && g < |groups| && (alignment > 1 ==> contiguous)
      requires forall a :: 0 <= a < |arenas| ==> Placed(page, arenas[a], alignment)
      modifies this
      ensures Valid()
      ensures !kmap && !(contiguous && (count != 1 || alignment > page)) ==> ok
      ensures ok ==>
        && groups == old(groups)[g := old(groups)[g].(refs := old(groups)[g].refs + 1)]
        && ops == old(ops)[t := Idle]
        && |objs| == |old(objs)| + 1 && objs == old(objs) + [objs[|old(objs)|]]
        && objs[|old(objs)|].group == Some(g) && |objs[|old(objs)|].pages| == count && objs[|old(objs)|].live
        && Held(old(arenas), arenas, objs[|old(objs)|].pages, true)
      ensures ok && kmap ==> forall p :: p in objs[|objs| - 1].pages ==> p.a < |arenas| && arenas[p.a].kmap
      ensures !ok ==> Restored(old(arenas), arenas) && groups == old(groups) && ops == old(ops) && objs == old(objs)
    {
      hide ObjsOk, GroupsOk, Held, SumGive, SumFree, SumReserved, Placed, Restored, ServesAll, RunPages, AllOk, Balanced;
      ghost var x := arenas;
      var ps;
      EnoughReserved(arenas, groups, ops, t, g, count);
      ok, arenas, ps := AllocLocked(page, arenas, count, contiguous, kmap, true, alignment);
      if !ok {
        RestoredKeeps(x, arenas, groups, objs, ops);
        return;
      }
      var o := Obj(Some(g), ps, true);
      MappedStill(x, arenas, ps, true, kmap);
      AllocKeepsObjs(x, arenas, ps, true, objs, o);
      var r := groups[g].(refs := groups[g].refs + 1);
      BalancedAfter(x, arenas, groups, ops, t, g, count);
      ObjCharged(groups, objs, ops, t, g, o);
      hide *;
      groups := groups[g := r];
      objs := objs + [o];
      ops := ops[t := Idle];
    }

    // pmm_alloc_from_res_group without a group.
    method AllocPlain(count: nat, contiguous: bool, kmap: bool, alignment: nat) returns (ok: bool)
      requires Valid() && (alignment > 1 ==> contiguous)
      requires forall a :: 0 <= a < |arenas| ==> Placed(page, arenas[a], alignment)
      modifies this
      ensures Valid() && groups == old(groups) && ops == old(ops)
      ensures !kmap && !(contiguous && (count != 1 || alignment > page)) ==> (ok <==> count <= SumFree(old(arenas), |old(arenas)|))
      ensures ok ==>
        && |objs| == |old(objs)| + 1 && objs == old(objs) + [objs[|old(objs)|]]
        && objs[|old(objs)|].group == None && |objs[|old(objs)|].pages| == count && objs[|old(objs)|].live
        && Held(old(arenas), arenas, objs[|old(objs)|].pages, false)
      ensures ok && kmap ==> forall p :: p in objs[|objs| - 1].pages ==> p.a < |arenas| && arenas[p.a].kmap
      ensures !ok ==> Restored(old(arenas), arenas) && objs == old(objs)
    {
      hide ObjsOk, GroupsOk, Held, SumGive, SumFree, SumReserved, Placed, Restored, ServesAll, RunPages, AllOk;
      ghost var x := arenas;
      var ps;
      ok, arenas, ps := AllocLocked(page, arenas, count, contiguous, kmap, false, alignment);
      if !ok {
        RestoredKeeps(x, arenas, groups, objs, ops);
        return;
      }
      var o := Obj(None, ps, true);
      MappedStill(x, arenas, ps, false, kmap);
      AllocKeepsObjs(x, arenas, ps, false, objs, o);
      ObjUncharged(groups, objs, ops, o);
      objs := objs + [o];
    }

    // pmm_vmm_obj_destroy, first part: gives the pages back.
    method FreeObj(ghost t: nat, o: nat)
      requires Valid() && t < |ops| && ops[t] == Idle && o < |objs| && objs[o].live
      modifies this
      ensures Valid() && groups == old(groups)
      ensures objs == old(objs)[o := old(objs)[o].(live := false)]
      ensures Freed(old(arenas), arenas, old(objs)[o].pages)
      ensures var b := old(objs)[o];
        ops == if b.group.Some? then old(ops)[t := Returned(b.group.value, |b.pages|)] else old(ops)
    {
      ghost var x := arenas;
      var b := objs[o];
      assert ObjOk(arenas, b);
      var n;
      arenas, n := FreeLocked(arenas, b.pages);
      FreeKeepsObjs(x, arenas, objs, o);
      if b.group.Some? {
        SumSet(ops, t, Returned(b.group.value, n), Weight());
        ObjReturned(groups, objs, ops, t, o);
        ops := ops[t := Returned(b.group.value, n)];
      } else {
        ObjDropped(groups, objs, ops, o);
      }
      objs := objs[o := b.(live := false)];
    }

    // res_group_release_mem, after an allocation that failed or an object that
    // has been freed. The kernel asserts that so many pages are used.
    method ReleaseMem(ghost t: nat, g: nat, pages: nat)
      requires Valid() && t < |ops| && g < |groups| && (ops[t] == Taken(g, pages) || ops[t] == Returned(g, pages))
      modifies this
      ensures Valid() && arenas == old(arenas) && objs == old(objs)
      ensures old(groups)[g].used >= pages
      ensures groups == old(groups)[g := old(groups)[g].(used := old(groups)[g].used - pages)]
      ensures ops == old(ops)[t := if old(ops[t]).Taken? then Idle else Leaving(g)]
    {
      ghost var op := if ops[t].Taken? then Idle else Leaving(g);
      Released(arenas, groups, objs, ops, t, g, pages, op);
      hide *;
      var r := groups[g].(used := groups[g].used - pages);
      groups := groups[g := r];
      ops := ops[t := op];
    }

    // res_group_shutdown, under the lock: what is not used stops being the
    // group's.
    method Shutdown(ghost t: nat, g: nat) returns (unused: nat)
      requires Valid() && t < |ops| && ops[t] == Idle && g < |groups| && groups[g].live && groups[g].holders > 0
      requires !groups[g].shutdown
      modifies this
      ensures Valid() && arenas == old(arenas) && objs == old(objs)
      ensures var r := old(groups)[g];
        && unused == r.reserved - r.used && groups == old(groups)[g := r.(reserved := r.used, shutdown := true)]
      ensures ops == old(ops)[t := Unreserving(unused)]
    {
      assert GroupOk(groups, objs, ops, g);
      unused := groups[g].reserved - groups[g].used;
      var r := groups[g].(reserved := groups[g].reserved - unused, shutdown := true);
      SumSet(groups, g, r, Left());
      SumSet(ops, t, Unreserving(unused), Weight());
      OpChanged(ops, t, Unreserving(unused), g);
      GroupMoved(groups, objs, ops, g, r, t, Unreserving(unused));
      groups := groups[g := r];
      ops := ops[t := Unreserving(unused)];
    }

    // pmm_unreserve_pages: its assertion that nothing is left holds.
    method Unreserve(ghost t: nat, pages: nat)
      requires Valid() && t < |ops| && ops[t] == Unreserving(pages)
      modifies this
      ensures Valid() && groups == old(groups) && objs == old(objs)
      ensures OnlyReserves(old(arenas), arenas) && SumReserved(arenas) == SumReserved(old(arenas)) - pages
      ensures ops == old(ops)[t := Idle]
    {
      ghost var x := arenas;
      SumSet(ops, t, Idle, Weight());
      OpAside(groups, objs, ops, t, Idle);
      var left;
      arenas, left := UnreservePages(arenas, pages);
      assert left == 0;
      FlagsKeepObjs(x, arenas, objs);
      ops := ops[t := Idle];
    }

    // res_group_add_ref for a reference held outside of objects.
    method AddRef(g: nat)
      requires Valid() && g < |groups| && groups[g].live && groups[g].holders > 0
      modifies this
      ensures Valid() && arenas == old(arenas) && objs == old(objs) && ops == old(ops)
      ensures groups == old(groups)[g := old(groups)[g].(refs := old(groups)[g].refs + 1, holders := old(groups)[g].holders + 1)]
    {
      var r := groups[g].(refs := groups[g].refs + 1, holders := groups[g].holders + 1);
      SumSet(groups, g, r, Left());
      RefAdded(groups, objs, ops, g);
      groups := groups[g := r];
    }

    // res_group_del_ref, either of a holder or of an object just freed. The last
    // reference destroys the group: the assertions of res_group_destroy hold.
    method DropRef(ghost t: nat, g: nat, holder: bool) returns (destroyed: bool)
      requires Valid() && t < |ops| && g < |groups|
      requires if holder then ops[t] == Idle && groups[g].live && groups[g].holders > 0 else ops[t] == Leaving(g)
      // A holder leaves only after a shutdown, and not during an allocation
      // that it is the last to stand for.
      requires holder && groups[g].holders == 1 ==> groups[g].shutdown && Sum(ops, TakesByOp(g)) == 0
      modifies this
      ensures Valid() && arenas == old(arenas) && objs == old(objs)
      ensures destroyed <==> old(groups)[g].refs == 1
      ensures destroyed ==> old(groups)[g].shutdown && old(groups)[g].used == 0
      ensures old(groups)[g].refs > 0
      ensures var r := old(groups)[g].(refs := old(groups)[g].refs - 1, holders := old(groups)[g].holders - (if holder then 1 else 0));
        groups == old(groups)[g := if destroyed then r.(reserved := 0, live := false) else r]
      ensures ops == old(ops)[t := if destroyed then Unreserving(old(groups)[g].reserved) else Idle]
    {
      DroppedUse(groups, objs, ops, t, g, holder);
      var r := groups[g].(refs := groups[g].refs - 1, holders := groups[g].holders - (if holder then 1 else 0));
      destroyed := r.refs == 0;
      ghost var op := Idle;
      if destroyed {
        op := Unreserving(r.reserved);
        r := r.(reserved := 0, live := false);
      }
      SumSet(groups, g, r, Left());
      SumSet(ops, t, op, Weight());
      RefDropped(groups, objs, ops, t, g, holder, r, op);
      groups := groups[g := r];
      ops := ops[t := op];
    }
  }

  lemma RefAdded(groups: seq<Group>, objs: seq<Obj>, ops: seq<Op>, g: nat)
    requires GroupsOk(groups, objs, ops) && g < |groups| && groups[g].live && groups[g].holders > 0
    ensures GroupsOk(groups[g := groups[g].(refs := groups[g].refs + 1, holders := groups[g].holders + 1)], objs, ops)
  {
    var gs := groups[g := groups[g].(refs := groups[g].refs + 1, holders := groups[g].holders + 1)];
    forall h | 0 <= h < |gs|
      ensures GroupOk(gs, objs, ops, h)
    {
      assert GroupOk(groups, objs, ops, h);
    }
    forall t | 0 <= t < |ops|
      ensures OpOk(gs, ops[t])
    {
      assert OpOk(groups, ops[t]);
    }
  }

  lemma Charged(x: seq<Arena>, groups: seq<Group>, objs: seq<Obj>, ops: seq<Op>, t: nat, g: nat, pages: nat)
    requires GroupsOk(groups, objs, ops) && Balanced(x, groups, ops) && t < |ops| && g < |groups| && ops[t] == Idle
    requires groups[g].holders > 0 && groups[g].used + pages <= groups[g].reserved
    ensures var gs := groups[g := groups[g].(used := groups[g].used + pages)];
      GroupsOk(gs, objs, ops[t := Taken(g, pages)]) && Balanced(x, gs, ops[t := Taken(g, pages)])
  {
    assert GroupOk(groups, objs, ops, g);
    var op := Taken(g, pages);
    OpChanged(ops, t, op, g);
    var r := groups[g].(used := groups[g].used + pages);
    SumSet(groups, g, r, Left());
    SumSet(ops, t, op, Weight());
    GroupMoved(groups, objs, ops, g, r, t, op);
  }

  lemma Released(x: seq<Arena>, groups: seq<Group>, objs: seq<Obj>, ops: seq<Op>, t: nat, g: nat, pages: nat, op: Op)
    requires GroupsOk(groups, objs, ops) && Balanced(x, groups, ops) && t < |ops| && g < |groups|
    requires (ops[t] == Taken(g, pages) && op == Idle) || (ops[t] == Returned(g, pages) && op == Leaving(g))
    ensures groups[g].used >= pages
    ensures var gs := groups[g := groups[g].(used := groups[g].used - pages)];
      GroupsOk(gs, objs, ops[t := op]) && Balanced(x, gs, ops[t := op])
  {
    assert GroupOk(groups, objs, ops, g);
    OpChanged(ops, t, op, g);
    var r := groups[g].(used := groups[g].used - pages);
    SumSet(groups, g, r, Left());
    SumSet(ops, t, op, Weight());
    GroupMoved(groups, objs, ops, g, r, t, op);
  }

  // Whoever drops the last reference leaves the group shut down and unused.
  lemma DroppedUse(groups: seq<Group>, objs: seq<Obj>, ops: seq<Op>, t: nat, g: nat, holder: bool)
    requires GroupsOk(groups, objs, ops) && t < |ops| && g < |groups|
    requires if holder then ops[t] == Idle && groups[g].live && groups[g].holders > 0 else ops[t] == Leaving(g)
    requires holder && groups[g].holders == 1 ==> groups[g].shutdown && Sum(ops, TakesByOp(g)) == 0
    ensures groups[g].refs > 0 && groups[g].live
    ensures groups[g].refs == 1 ==> groups[g].used == 0 && groups[g].shutdown
  {
    assert GroupOk(groups, objs, ops, g);
    OpChanged(ops, t, Idle, g);
    var after := ops[t := Idle];
    if groups[g].refs == 1 {
      NoRefsNoUse(objs, after, g);
    }
  }

  lemma RefDropped(groups: seq<Group>, objs: seq<Obj>, ops: seq<Op>, t: nat, g: nat, holder: bool, r: Group, op: Op)
    requires GroupsOk(groups, objs, ops) && t < |ops| && g < |groups| && groups[g].refs > 0 && groups[g].live
    requires if holder then ops[t] == Idle && groups[g].holders > 0 else ops[t] == Leaving(g)
    requires holder && groups[g].holders == 1 ==> groups[g].shutdown && Sum(ops, TakesByOp(g)) == 0
    requires groups[g].refs == 1 ==> groups[g].used == 0
    requires var q := groups[g].(refs := groups[g].refs - 1, holders := groups[g].holders - (if holder then 1 else 0));
      if q.refs == 0 then op == Unreserving(q.reserved) && r == q.(reserved := 0, live := false)
      else op == Idle && r == q
    ensures GroupsOk(groups[g := r], objs, ops[t := op])
  {
    assert GroupOk(groups, objs, ops, g);
    OpChanged(ops, t, op, g);
    GroupMoved(groups, objs, ops, g, r, t, op);
  }

  lemma GroupAdded(groups: seq<Group>, objs: seq<Obj>, ops: seq<Op>, r: Group)
    requires GroupsOk(groups, objs, ops) && r.used == 0 && r.live && r.refs == r.holders > 0
    ensures GroupsOk(groups + [r], objs, ops)
  {
    NoneYet(groups, objs, ops, |groups|);
    forall g | 0 <= g < |groups|
      ensures GroupOk(groups + [r], objs, ops, g)
    {
      assert GroupOk(groups, objs, ops, g);
    }
    forall t | 0 <= t < |ops|
      ensures OpOk(groups + [r], ops[t])
    {
      assert OpOk(groups, ops[t]);
    }
  }

  lemma NoneYet(groups: seq<Group>, objs: seq<Obj>, ops: seq<Op>, g: nat)
    requires GroupsOk(groups, objs, ops) && g >= |groups|
    ensures Sum(objs, UsedByObj(g)) == 0 && Sum(objs, RefsByObj(g)) == 0
    ensures Sum(ops, UsedByOp(g)) == 0 && Sum(ops, RefsByOp(g)) == 0 && Sum(ops, TakesByOp(g)) == 0
  {
    SumZero(objs, RefsByObj(g));
    SumZero(objs, UsedByObj(g));
    SumZero(ops, RefsByOp(g));
    SumZero(ops, TakesByOp(g));
    SumZero(ops, UsedByOp(g));
    forall t | 0 <= t < |ops|
      ensures UsedByOp(g)(ops[t]) == 0 && RefsByOp(g)(ops[t]) == 0 && TakesByOp(g)(ops[t]) == 0
    {
      assert OpOk(groups, ops[t]);
    }
  }
}
