// The allocator of address space identifiers.
module AsidAllocator {
  // An identifier is a counter value: its low bits are the identifier that the
  // hardware sees and its high bits the generation.

  import opened Common

  type Space = nat    // the address of an address space

  function Gen(m: nat, v: nat): nat
    requires m > 0
  {
    v / m
  }

  function Hw(m: nat, v: nat): nat
    requires m > 0
  {
    v % m
  }

  // The identifier of a space; 0 when none has been allocated.
  function Id(asid: map<Space, nat>, s: Space): nat {
    if s in asid then asid[s] else 0
  }

  lemma Compose(m: nat, v: nat)
    requires m > 0
    ensures v == Gen(m, v) * m + Hw(m, v) && Hw(m, v) < m
  {
  }

  lemma Times(d: int, m: nat)
    ensures d >= 1 ==> d * m >= m
    ensures d <= 0 ==> d * m <= 0
    ensures d <= -1 ==> d * m + m <= 0
  {
  }

  // How far two values are apart.
  lemma Distance(m: nat, v: nat, w: nat) returns (d: int)
    requires m > 0
    ensures d == Gen(m, w) as int - Gen(m, v) as int
    ensures w - v == d * m + (Hw(m, w) as int - Hw(m, v) as int) && Hw(m, v) < m && Hw(m, w) < m
    ensures d >= 1 ==> d * m >= m
    ensures d <= 0 ==> d * m <= 0
    ensures d <= -1 ==> d * m + m <= 0
  {
    Compose(m, v);
    Compose(m, w);
    d := Gen(m, w) as int - Gen(m, v) as int;
    assert Gen(m, w) * m == Gen(m, v) * m + d * m;
    Times(d, m);
  }

  lemma GenHwDetermine(m: nat, v: nat, w: nat)
    requires m > 0 && Gen(m, v) == Gen(m, w) && Hw(m, v) == Hw(m, w)
    ensures v == w
  {
    var d := Distance(m, v, w);
    assert d * m == 0;
  }

  lemma CloseValuesDiffer(m: nat, v: nat, w: nat)
    requires m > 0 && v < w < v + m
    ensures Hw(m, v) != Hw(m, w)
  {
    var d := Distance(m, v, w);
  }

  lemma GenMonotone(m: nat, v: nat, w: nat)
    requires m > 0 && v <= w
    ensures Gen(m, v) <= Gen(m, w)
  {
    var d := Distance(m, v, w);
  }

  // The generation changes exactly where the low bits become zero.
  lemma SameGen(m: nat, v: nat)
    requires m > 0
    ensures Gen(m, v + 1) == Gen(m, v) <==> Hw(m, v + 1) != 0
  {
    var d := Distance(m, v, v + 1);
  }

  lemma Rebase(m: nat, v: nat, base: nat)
    requires m > 0 && Hw(m, base) == 0 && Gen(m, v) == Gen(m, base)
    ensures base + Hw(m, v) == v
  {
    var d := Distance(m, base, v);
  }

  lemma BaseOf(m: nat, v: nat)
    requires m > 0
    ensures v - Hw(m, v) >= 0 && Hw(m, v - Hw(m, v)) == 0 && Gen(m, v - Hw(m, v)) == Gen(m, v)
  {
    Compose(m, v);
    var d := Distance(m, v - Hw(m, v), v);
  }

  // ---------- the invariants ----------

  // vmm_asid_current
  predicate Current(m: nat, asid: map<Space, nat>, a: Option<Space>, ref: nat)
    requires m > 0
  {
    a == None || (Id(asid, a.value) != 0 && Gen(m, Id(asid, a.value)) == Gen(m, ref))
  }

  // The hardware sees the same identifier for v and for the space active on
  // CPU i, which belongs to another generation.
  predicate ConflictAt(m: nat, active: seq<Option<Space>>, asid: map<Space, nat>, i: nat, v: nat)
    requires m > 0 && i < |active|
  {
    && active[i].Some? && !Current(m, asid, active[i], v)
    && Hw(m, Id(asid, active[i].value)) == Hw(m, v)
  }

  // Every identifier in use is one that was handed out to that space, and no
  // value is handed out twice.
  ghost predicate Owned(last: nat, asid: map<Space, nat>, owner: map<nat, Space>) {
    && (forall s :: s in asid && asid[s] != 0 ==> asid[s] in owner && owner[asid[s]] == s)
    && (forall v :: v in owner ==> 0 < v <= last)
  }

  // The hardware identifiers of the spaces that are active are distinct.
  ghost predicate ActiveDistinct(m: nat, active: seq<Option<Space>>, asid: map<Space, nat>)
    requires m > 0
  {
    && (forall i :: 0 <= i < |active| && active[i].Some? ==> Id(asid, active[i].value) != 0)
    && (forall i, j :: 0 <= i < |active| && 0 <= j < |active| && active[i].Some? && active[j].Some? && active[i] != active[j] ==>
          Hw(m, Id(asid, active[i].value)) != Hw(m, Id(asid, active[j].value)))
  }

  // No identifier of the current generation looks to the hardware like that of
  // an active space of an older generation.
  ghost predicate OldAvoided(m: nat, last: nat, active: seq<Option<Space>>, asid: map<Space, nat>)
    requires m > 0
  {
    forall s, i :: 0 <= i < |active| && s in asid && asid[s] != 0 && Gen(m, asid[s]) == Gen(m, last) ==>
      !ConflictAt(m, active, asid, i, asid[s])
  }

  ghost predicate AllCurrent(m: nat, last: nat, active: seq<Option<Space>>, asid: map<Space, nat>)
    requires m > 0
  {
    forall i :: 0 <= i < |active| ==> Current(m, asid, active[i], last)
  }

  ghost predicate Inv(m: nat, last: nat, stale: bool, active: seq<Option<Space>>, asid: map<Space, nat>, owner: map<nat, Space>) {
    && 0 < m && |active| <= m
    && Owned(last, asid, owner)
    && ActiveDistinct(m, active, asid)
    && OldAvoided(m, last, active, asid)
    && (!stale ==> AllCurrent(m, last, active, asid))
  }

  // A translation cached by a CPU since its last flush: the hardware
  // identifier and the space it was made for.
  datatype Cached = Cached(hw: nat, space: Space)

  ghost predicate TlbOk(m: nat, active: seq<Option<Space>>, asid: map<Space, nat>, ver: nat, tlb: set<Cached>, owner: map<nat, Space>, cpu: nat)
    requires m > 0 && cpu < |active|
  {
    && Hw(m, ver) == 0
    && (forall e :: e in tlb ==> ver + e.hw in owner && owner[ver + e.hw] == e.space)
    && (active[cpu].Some? ==> Cached(Hw(m, Id(asid, active[cpu].value)), active[cpu].value) in tlb)
  }

  // ---------- how far the search for a free value goes ----------

  ghost predicate Busy(m: nat, active: seq<Option<Space>>, asid: map<Space, nat>, cpu: nat, v: nat)
    requires m > 0
  {
    exists i :: 0 <= i < |active| && i != cpu && ConflictAt(m, active, asid, i, v)
  }

  // Another CPU has a space active whose word has the low bits of v, and not the
  // rest.
  ghost predicate Taken(m: nat, active: seq<Option<Space>>, asid: map<Space, nat>, cpu: nat, v: nat)
    requires m > 0
  {
    exists i :: 0 <= i < |active| && i != cpu && active[i].Some? && active[i].value in asid &&
      asid[active[i].value] % m == v % m && asid[active[i].value] / m != v / m
  }

  lemma Plain(m: nat, asid: map<Space, nat>, a: Option<Space>, ref: nat)
    requires m > 0
    ensures Current(m, asid, a, ref) <==> a == None || (a.value in asid && asid[a.value] != 0 && asid[a.value] / m == ref / m)
    ensures a.Some? && a.value in asid ==> Version(m, asid, a, ref) == if Current(m, asid, a, ref) then ref else asid[a.value] - asid[a.value] % m
  {
  }

  lemma PlainActive(m: nat, active: seq<Option<Space>>, asid: map<Space, nat>)
    requires m > 0 && ActiveDistinct(m, active, asid)
    ensures forall i :: 0 <= i < |active| && active[i].Some? ==> active[i].value in asid && asid[active[i].value] != 0
    ensures forall i, j :: 0 <= i < |active| && 0 <= j < |active| && active[i].Some? && active[j].Some? && active[i] != active[j] ==>
      asid[active[i].value] % m != asid[active[j].value] % m
  {
  }

  lemma PlainBusy(m: nat, active: seq<Option<Space>>, asid: map<Space, nat>, cpu: nat, lo: nat, hi: nat)
    requires m > 0 && ActiveDistinct(m, active, asid)
    requires forall v :: lo < v < hi ==> Busy(m, active, asid, cpu, v)
    ensures forall v :: lo < v < hi ==> Taken(m, active, asid, cpu, v)
  {
    forall v | lo < v < hi
      ensures Taken(m, active, asid, cpu, v)
    {
      assert Busy(m, active, asid, cpu, v);
      var i :| 0 <= i < |active| && i != cpu && ConflictAt(m, active, asid, i, v);
      assert active[i].value in asid && asid[active[i].value] % m == v % m && asid[active[i].value] / m != v / m;
    }
  }

  // Values in a row are busy because of different CPUs.
  lemma {:induction false} BusyCpus(m: nat, active: seq<Option<Space>>, asid: map<Space, nat>, cpu: nat, lo: nat, hi: nat) returns (hit: set<nat>)
    requires 0 < m && lo <= hi <= lo + m
    requires forall v :: lo <= v < hi ==> Busy(m, active, asid, cpu, v)
    ensures |hit| == hi - lo
    ensures forall i :: i in hit ==>
      && i < |active| && i != cpu && active[i].Some?
      && exists v :: lo <= v < hi && Hw(m, v) == Hw(m, Id(asid, active[i].value))
    decreases hi - lo
  {
    hit := {};
    if lo < hi {
      var h := BusyCpus(m, active, asid, cpu, lo, hi - 1);
      assert Busy(m, active, asid, cpu, hi - 1);
      var i :| 0 <= i < |active| && i != cpu && ConflictAt(m, active, asid, i, hi - 1);
      if i in h {
        var v :| lo <= v < hi - 1 && Hw(m, v) == Hw(m, Id(asid, active[i].value));
        CloseValuesDiffer(m, v, hi - 1);
      }
      hit := h + {i};
      assert Hw(m, hi - 1) == Hw(m, Id(asid, active[i].value));
    }
  }

  lemma {:induction false} BoundedSet(s: set<nat>, n: nat)
    requires forall i :: i in s ==> i < n
    ensures |s| <= n
  {
    if n > 0 {
      BoundedSet(s - {n - 1}, n - 1);
    } else {
      assert s == {};
    }
  }

  // Fewer values in a row are busy than there are CPUs.
  lemma BusyBound(m: nat, active: seq<Option<Space>>, asid: map<Space, nat>, cpu: nat, lo: nat, hi: nat)
    requires 0 < |active| <= m && cpu < |active| && lo <= hi
    requires forall v :: lo <= v < hi ==> Busy(m, active, asid, cpu, v)
    ensures hi - lo <= |active| - 1
  {
    if hi - lo > |active| - 1 {
      var hit := BusyCpus(m, active, asid, cpu, lo, lo + |active|);
      BoundedSet(hit + {cpu}, |active|);
    }
  }

  // ---------- one activation keeps the invariants ----------

  // Switching to a space that is current, or active elsewhere, or to none.
  lemma ActivateKeeps(m: nat, last: nat, stale: bool, active: seq<Option<Space>>, asid: map<Space, nat>, owner: map<nat, Space>, cpu: nat, a: Option<Space>)
    requires Inv(m, last, stale, active, asid, owner) && cpu < |active|
    requires Current(m, asid, a, last) || a in active
    ensures Inv(m, last, stale, active[cpu := a], asid, owner)
  {
    var act := active[cpu := a];
    if a.Some? && a in active {
      var k :| 0 <= k < |active| && active[k] == a;
    }
    forall s, i | 0 <= i < |act| && s in asid && asid[s] != 0 && Gen(m, asid[s]) == Gen(m, last)
      ensures !ConflictAt(m, act, asid, i, asid[s])
    {
      if i == cpu && a.Some? && a in active {
        var k :| 0 <= k < |active| && active[k] == a;
        assert !ConflictAt(m, active, asid, k, asid[s]);
      } else if i != cpu {
        assert !ConflictAt(m, active, asid, i, asid[s]);
      }
    }
    if a.Some? && a !in active {
      forall i | 0 <= i < |act| && act[i].Some? && act[i] != a
        ensures Hw(m, Id(asid, act[i].value)) != Hw(m, Id(asid, a.value))
      {
        NewcomerDiffers(m, last, stale, active, asid, owner, a.value, i);
      }
    }
  }

  // A space of the current generation differs from every active space.
  lemma NewcomerDiffers(m: nat, last: nat, stale: bool, active: seq<Option<Space>>, asid: map<Space, nat>, owner: map<nat, Space>, a: Space, i: nat)
    requires Inv(m, last, stale, active, asid, owner) && i < |active|
    requires Current(m, asid, Some(a), last) && active[i].Some? && active[i] != Some(a)
    ensures Hw(m, Id(asid, active[i].value)) != Hw(m, Id(asid, a))
  {
    assert !ConflictAt(m, active, asid, i, asid[a]);
    var s := active[i].value;
    if Hw(m, Id(asid, s)) == Hw(m, Id(asid, a)) {
      assert Gen(m, Id(asid, s)) == Gen(m, Id(asid, a));
      GenHwDetermine(m, Id(asid, s), Id(asid, a));
    }
  }

  // Giving the first value that is not busy to a space that is active nowhere
  // else, and switching to it.
  lemma AllocateKeeps(m: nat, last: nat, stale: bool, active: seq<Option<Space>>, asid: map<Space, nat>, owner: map<nat, Space>,
                      cpu: nat, a: Space, v: nat, stale': bool)
    requires Inv(m, last, stale, active, asid, owner) && cpu < |active|
    requires forall i :: 0 <= i < |active| && i != cpu ==> active[i] != Some(a)
    requires last < v && !Busy(m, active, asid, cpu, v)
    requires !stale' ==> AllCurrent(m, v, active[cpu := Some(a)], asid[a := v])
    ensures Inv(m, v, stale', active[cpu := Some(a)], asid[a := v], owner[v := a])
  {
    var act, id := active[cpu := Some(a)], asid[a := v];
    forall i | 0 <= i < |act|
      ensures !ConflictAt(m, act, id, i, v)
    {
      if i != cpu {
        assert !ConflictAt(m, active, asid, i, v);
      }
    }
    OthersAvoided(m, last, stale, active, asid, owner, a, v, act, id, cpu);
    forall i | 0 <= i < |act| && act[i].Some? && act[i] != Some(a)
      ensures Hw(m, Id(id, act[i].value)) != Hw(m, v)
    {
      var s := act[i].value;
      assert !ConflictAt(m, act, id, i, v);
      if Hw(m, Id(asid, s)) == Hw(m, v) {
        GenHwDetermine(m, Id(asid, s), v);
      }
    }
  }

  lemma OthersAvoided(m: nat, last: nat, stale: bool, active: seq<Option<Space>>, asid: map<Space, nat>, owner: map<nat, Space>,
                      a: Space, v: nat, act: seq<Option<Space>>, id: map<Space, nat>, cpu: nat)
    requires Inv(m, last, stale, active, asid, owner) && cpu < |active|
    requires forall i :: 0 <= i < |active| && i != cpu ==> active[i] != Some(a)
    requires last < v && act == active[cpu := Some(a)] && id == asid[a := v]
    ensures forall s, i :: 0 <= i < |act| && s in id && s != a && id[s] != 0 && Gen(m, id[s]) == Gen(m, v) ==>
      !ConflictAt(m, act, id, i, id[s])
  {
    forall s, i | 0 <= i < |act| && s in id && s != a && id[s] != 0 && Gen(m, id[s]) == Gen(m, v)
      ensures !ConflictAt(m, act, id, i, id[s])
    {
      GenMonotone(m, asid[s], last);
      GenMonotone(m, last, v);
      assert !ConflictAt(m, active, asid, i, asid[s]);
    }
  }

  lemma NoneBusy(m: nat, active: seq<Option<Space>>, asid: map<Space, nat>, a: Space, cpu: nat, v: nat,
                 act: seq<Option<Space>>, id: map<Space, nat>)
    requires 0 < m && cpu < |active|
    requires forall i :: 0 <= i < |active| && i != cpu ==> active[i] != Some(a)
    requires act == active[cpu := Some(a)] && id == asid[a := v]
    requires forall i :: 0 <= i < |act| ==> !ConflictAt(m, act, id, i, v)
    ensures !Busy(m, active, asid, cpu, v)
  {
    forall i | 0 <= i < |active| && i != cpu
      ensures !ConflictAt(m, active, asid, i, v)
    {
      assert !ConflictAt(m, act, id, i, v);
    }
  }

  lemma OldStaysOld(m: nat, s: Space, asid: map<Space, nat>, a: Space, last: nat, v: nat)
    requires 0 < m && s != a && last < v && Id(asid, s) <= last
    requires !Current(m, asid[a := v], Some(s), v)
    ensures !Current(m, asid[a := v + 1], Some(s), v + 1)
  {
    GenMonotone(m, Id(asid, s), v);
    GenMonotone(m, v, v + 1);
  }

  // ---------- cached translations ----------

  // What a CPU has cached once it has switched to a.
  ghost function Switched(m: nat, asid: map<Space, nat>, a: Option<Space>, flush: bool, tlb: set<Cached>): set<Cached>
    requires m > 0
  {
    (if flush then {} else tlb) + (if a.Some? then {Cached(Hw(m, Id(asid, a.value)), a.value)} else {})
  }

  function Version(m: nat, asid: map<Space, nat>, a: Option<Space>, ver: nat): nat
    requires m > 0
  {
    if Current(m, asid, a, ver) then ver else Compose(m, Id(asid, a.value)); Id(asid, a.value) - Hw(m, Id(asid, a.value))
  }

  // The CPU that switches: at most one space per hardware identifier, with a
  // flush exactly when the space belongs to another generation.
  lemma SwitchKeepsTlb(m: nat, active: seq<Option<Space>>, asid: map<Space, nat>, ver: nat, tlb: set<Cached>, owner: map<nat, Space>, last: nat, cpu: nat)
    requires m > 0 && cpu < |active| && Hw(m, ver) == 0
    requires Owned(last, asid, owner) && (active[cpu].Some? ==> Id(asid, active[cpu].value) != 0)
    requires forall e :: e in tlb ==> ver + e.hw in owner && owner[ver + e.hw] == e.space
    ensures TlbOk(m, active, asid, Version(m, asid, active[cpu], ver),
                  Switched(m, asid, active[cpu], !Current(m, asid, active[cpu], ver), tlb), owner, cpu)
  {
    if active[cpu].Some? {
      var v := Id(asid, active[cpu].value);
      BaseOf(m, v);
      Rebase(m, v, Version(m, asid, active[cpu], ver));
    }
  }

  // The other CPUs: their active space keeps its identifier.
  lemma OthersKeepTlb(m: nat, active: seq<Option<Space>>, asid: map<Space, nat>, ver: nat, tlb: set<Cached>, owner: map<nat, Space>, cpu: nat,
                      active': seq<Option<Space>>, asid': map<Space, nat>, owner': map<nat, Space>)
    requires m > 0 && cpu < |active| == |active'| && TlbOk(m, active, asid, ver, tlb, owner, cpu)
    requires active'[cpu] == active[cpu] && (active[cpu].Some? ==> Id(asid', active[cpu].value) == Id(asid, active[cpu].value))
    requires forall v :: v in owner ==> v in owner' && owner'[v] == owner[v]
    ensures TlbOk(m, active', asid', ver, tlb, owner', cpu)
  {
  }

  // ---------- the allocator ----------

  class Allocator {
    const m: nat                        // 2 to the number of bits that the hardware compares
    const cpus: nat
    var last: nat                       // last_asid
    var oldActive: bool                 // old_asid_active
    var active: seq<Option<Space>>      // active_aspace
    var ver: seq<nat>                   // active_asid_version
    var asid: map<Space, nat>           // the asid field of every space
    ghost var owner: map<nat, Space>    // who was given each value
    ghost var tlb: seq<set<Cached>>     // what each CPU has cached since its last flush

    ghost predicate Valid()
      reads this
    {
      && 0 < m && |active| == cpus && |ver| == cpus && |tlb| == cpus
      && Inv(m, last, oldActive, active, asid, owner)
      && (forall c :: 0 <= c < cpus ==> TlbOk(m, active, asid, ver[c], tlb[c], owner, c))
    }

    constructor (m: nat, cpus: nat)
      requires 0 < cpus <= m
      ensures Valid() && this.m == m && this.cpus == cpus
    {
      this.m, this.cpus := m, cpus;
      last, oldActive, asid, owner := 0, false, map[], map[];
      active := seq(cpus, _ => None);
      ver := seq(cpus, _ => 0);
      tlb := seq(cpus, _ => {});
    }

    // The loop of vmm_asid_allocate that passes over values in use by an older
    // generation.
    method Skip(a: Space, cpu: nat, ghost act0: seq<Option<Space>>, ghost id0: map<Space, nat>, ghost last0: nat)
      requires 0 < cpus <= m && cpu < cpus && |active| == cpus == |act0| && active == act0[cpu := Some(a)]
      requires last == last0 + 1 && asid == id0[a := last]
      requires forall i :: 0 <= i < cpus && i != cpu ==> act0[i] != Some(a)
      requires forall s :: s in id0 ==> id0[s] <= last0
      modifies this`last, this`oldActive, this`asid
      ensures asid == id0[a := last] && last0 < last <= last0 + cpus
      ensures !Busy(m, act0, id0, cpu, last)
      ensures forall v :: last0 < v < last ==> Busy(m, act0, id0, cpu, v)
      ensures !oldActive <==> AllCurrent(m, last, active, asid)
    {
      hide Gen, Hw;
      var i := 0;
      oldActive := false;
      BusyBound(m, act0, id0, cpu, last, last);
      while i < cpus
        invariant 0 <= i <= cpus && last0 < last <= last0 + cpus
        invariant asid == id0[a := last]
        invariant forall v :: last0 < v < last ==> Busy(m, act0, id0, cpu, v)
        invariant forall j :: 0 <= j < i ==> !ConflictAt(m, active, asid, j, last)
        invariant forall j :: 0 <= j < i && !Current(m, asid, active[j], last) ==> oldActive
        invariant oldActive ==> !AllCurrent(m, last, active, asid)
        decreases last0 + cpus - last, cpus - i
      {
        if !Current(m, asid, active[i], last) {
          oldActive := true;
          if Hw(m, Id(asid, active[i].value)) == Hw(m, last) {
            assert ConflictAt(m, act0, id0, i, last);
            BusyBound(m, act0, id0, cpu, last0 + 1, last + 1);
            OldStaysOld(m, active[i].value, id0, a, last0, last);
            last := last + 1;
            asid := asid[a := last];
            i := 0;
            continue;
          }
        }
        i := i + 1;
      }
      NoneBusy(m, act0, id0, a, cpu, last, active, asid);
    }

    // vmm_asid_allocate
    method Allocate(a: Option<Space>, cpu: nat)
      requires Valid() && cpu < cpus
      modifies this`last, this`oldActive, this`active, this`asid, this`owner
      ensures active == old(active)[cpu := a]
      ensures Inv(m, last, oldActive, active, asid, owner)
      ensures var keep := Current(m, old(asid), a, old(last)) || (exists i :: 0 <= i < cpus && i != cpu && old(active)[i] == a);
        && (keep ==> last == old(last) && asid == old(asid) && owner == old(owner) && oldActive == old(oldActive))
        && (!keep ==>
              && asid == old(asid)[a.value := last] && owner == old(owner)[last := a.value]
              && old(last) < last <= old(last) + cpus
              && !Busy(m, old(active), old(asid), cpu, last)
              && (forall v :: old(last) < v < last ==> Busy(m, old(active), old(asid), cpu, v))
              && (!oldActive <==> AllCurrent(m, last, active, asid)))
    {
      hide Gen, Hw;
      ghost var act0, id0, last0 := active, asid, last;
      active := active[cpu := a];
      if Current(m, asid, a, last) {
        ActivateKeeps(m, last, oldActive, act0, asid, owner, cpu, a);
        return;
      }
      if oldActive {
        var i := 0;
        while i < cpus
          invariant 0 <= i <= cpus
          invariant forall j :: 0 <= j < i && j != cpu ==> act0[j] != a
        {
          if i != cpu && active[i] == a {
            ActivateKeeps(m, last, oldActive, act0, asid, owner, cpu, a);
            return;
          }
          i := i + 1;
        }
      }
      assert forall i :: 0 <= i < cpus && i != cpu ==> act0[i] != a;
      last := last + 1;
      asid := asid[a.value := last];
      if Hw(m, last) == 0 {
        oldActive := true;
      }
      if oldActive {
        Skip(a.value, cpu, act0, id0, last0);
      } else {
        SameGen(m, last0);
        assert AllCurrent(m, last, active, asid);
      }
      ghost var owner0 := owner;
      owner := owner[last := a.value];
      AllocateKeeps(m, last0, old(oldActive), act0, id0, owner0, cpu, a.value, last, oldActive);
    }

    // vmm_asid_activate: says whether the CPU has to flush its translations.
    method Activate(a: Option<Space>, cpu: nat) returns (flush: bool)
      requires Valid() && cpu < cpus
      modifies this
      ensures Valid() && active == old(active)[cpu := a]
      ensures ver == old(ver)[cpu := Version(m, asid, a, old(ver)[cpu])]
      ensures flush <==> !Current(m, asid, a, old(ver)[cpu])
      ensures forall i :: 0 <= i < cpus && i != cpu && old(active)[i].Some? ==>
        Id(asid, old(active)[i].value) == Id(old(asid), old(active)[i].value)
      ensures Current(m, asid, a, last) || exists i :: 0 <= i < cpus && i != cpu && old(active)[i] == a
      ensures old(last) <= last <= old(last) + cpus
      ensures tlb == old(tlb)[cpu := Switched(m, asid, a, flush, old(tlb)[cpu])]
      ensures forall c, e, e' :: 0 <= c < cpus && e in tlb[c] && e' in tlb[c] && e.hw == e'.hw ==> e == e'
      ensures forall i, j :: 0 <= i < cpus && 0 <= j < cpus && active[i].Some? && active[j].Some? && active[i] != active[j] ==>
        Hw(m, Id(asid, active[i].value)) != Hw(m, Id(asid, active[j].value))
      // The same in terms of the stored words: their low bits are what the
      // hardware compares, and the rest is the generation.
      ensures forall i :: 0 <= i < cpus && active[i].Some? ==> active[i].value in asid && asid[active[i].value] != 0
      ensures forall i, j :: 0 <= i < cpus && 0 <= j < cpus && active[i].Some? && active[j].Some? && active[i] != active[j] ==>
        asid[active[i].value] % m != asid[active[j].value] % m
      ensures flush <==> a.Some? && asid[a.value] / m != old(ver)[cpu] / m
      ensures ver == if flush then old(ver)[cpu := asid[a.value] - asid[a.value] % m] else old(ver)
      ensures var keep := a == None || (a.value in old(asid) && old(asid)[a.value] != 0 && old(asid)[a.value] / m == old(last) / m) ||
                          exists i :: 0 <= i < cpus && i != cpu && old(active)[i] == a;
        if keep then last == old(last) && asid == old(asid)
        else asid == old(asid)[a.value := last] && old(last) < last && forall v :: old(last) < v < last ==> Taken(m, old(active), old(asid), cpu, v)
    {
      ghost var act0, id0, last0, ver0 := active, asid, last, ver;
      flush := Switch(a, cpu);
      PlainSwitch(act0, id0, last0, ver0, a, cpu, flush);
      hide *;
    }

    lemma PlainSwitch(act0: seq<Option<Space>>, id0: map<Space, nat>, last0: nat, ver0: seq<nat>, a: Option<Space>, cpu: nat, flush: bool)
      requires Valid() && cpu < cpus == |act0| == |ver0| && active == act0[cpu := a] && ActiveDistinct(m, act0, id0)
      requires flush <==> !Current(m, asid, a, ver0[cpu])
      requires ver == ver0[cpu := Version(m, asid, a, ver0[cpu])]
      requires var keep := Current(m, id0, a, last0) || (exists i :: 0 <= i < cpus && i != cpu && act0[i] == a);
        && (keep ==> last == last0 && asid == id0)
        && (!keep ==> asid == id0[a.value := last] && last0 < last && forall v :: last0 < v < last ==> Busy(m, act0, id0, cpu, v))
      ensures forall i :: 0 <= i < cpus && active[i].Some? ==> active[i].value in asid && asid[active[i].value] != 0
      ensures forall i, j :: 0 <= i < cpus && 0 <= j < cpus && active[i].Some? && active[j].Some? && active[i] != active[j] ==>
        asid[active[i].value] % m != asid[active[j].value] % m
      ensures flush <==> a.Some? && asid[a.value] / m != ver0[cpu] / m
      ensures ver == if flush then ver0[cpu := asid[a.value] - asid[a.value] % m] else ver0
      ensures var keep := a == None || (a.value in id0 && id0[a.value] != 0 && id0[a.value] / m == last0 / m) ||
                          exists i :: 0 <= i < cpus && i != cpu && act0[i] == a;
        if keep then last == last0 && asid == id0
        else asid == id0[a.value := last] && last0 < last && forall v :: last0 < v < last ==> Taken(m, act0, id0, cpu, v)
    {
      Plain(m, id0, a, last0);
      Plain(m, asid, a, ver0[cpu]);
      PlainActive(m, active, asid);
      hide Gen, Hw, Current, Version, ActiveDistinct, Busy, Taken, TlbOk;
      if !(Current(m, id0, a, last0) || exists i :: 0 <= i < cpus && i != cpu && act0[i] == a) {
        PlainBusy(m, act0, id0, cpu, last0, last);
      }
    }

    // The steps of vmm_asid_activate.
    method Switch(a: Option<Space>, cpu: nat) returns (flush: bool)
      requires Valid() && cpu < cpus
      modifies this
      ensures Valid() && active == old(active)[cpu := a]
      ensures ver == old(ver)[cpu := Version(m, asid, a, old(ver)[cpu])]
      ensures flush <==> !Current(m, asid, a, old(ver)[cpu])
      ensures forall i :: 0 <= i < cpus && i != cpu && old(active)[i].Some? ==>
        Id(asid, old(active)[i].value) == Id(old(asid), old(active)[i].value)
      ensures Current(m, asid, a, last) || exists i :: 0 <= i < cpus && i != cpu && old(active)[i] == a
      ensures old(last) <= last <= old(last) + cpus
      ensures var keep := Current(m, old(asid), a, old(last)) || (exists i :: 0 <= i < cpus && i != cpu && old(active)[i] == a);
        && (keep ==> last == old(last) && asid == old(asid))
        && (!keep ==> asid == old(asid)[a.value := last] && old(last) < last && forall v :: old(last) < v < last ==> Busy(m, old(active), old(asid), cpu, v))
      ensures tlb == old(tlb)[cpu := Switched(m, asid, a, flush, old(tlb)[cpu])]
      ensures forall c, e, e' :: 0 <= c < cpus && e in tlb[c] && e' in tlb[c] && e.hw == e'.hw ==> e == e'
      ensures forall i, j :: 0 <= i < cpus && 0 <= j < cpus && active[i].Some? && active[j].Some? && active[i] != active[j] ==>
        Hw(m, Id(asid, active[i].value)) != Hw(m, Id(asid, active[j].value))
    {
      hide Gen, Hw;
      ghost var act0, id0, owner0 := active, asid, owner;
      Allocate(a, cpu);
      flush := !Current(m, asid, a, ver[cpu]);
      forall c | 0 <= c < cpus && c != cpu
        ensures TlbOk(m, active, asid, ver[c], tlb[c], owner, c)
      {
        OthersKeepTlb(m, act0, id0, ver[c], tlb[c], owner0, c, active, asid, owner);
      }
      SwitchKeepsTlb(m, active, asid, ver[cpu], tlb[cpu], owner, last, cpu);
      tlb := tlb[cpu := Switched(m, asid, a, flush, tlb[cpu])];
      ver := ver[cpu := Version(m, asid, a, ver[cpu])];
    }
  }
}
