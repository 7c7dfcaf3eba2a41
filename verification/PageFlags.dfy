module PageFlags {
  import opened Common

  // The mapping flags of the virtual memory manager.
  datatype Flags = Flags(cache: nat, user: bool, ro: bool, noExecute: bool, ns: bool, tagged: bool, invalid: bool)

  const CACHED: nat := 0
  const UNCACHED: nat := 1
  const UNCACHED_DEVICE: nat := 2

  datatype MemoryType = StronglyOrdered | Device | Normal | NormalTagged

  // The attribute fields of a page or block descriptor.
  datatype Attrs = Attrs(accessed: bool, memory: MemoryType, innerShareable: bool, apUser: bool, apReadOnly: bool,
                         uxn: bool, pxn: bool, ns: bool, guarded: bool, nonGlobal: bool)

  const NO_ATTRS: Attrs := Attrs(false, StronglyOrdered, false, false, false, false, false, false, false, false)

  // mmu_flags_to_pte_attr: bti tells whether the address space asks for branch
  // target identification and supported whether the processor has it.
  function Encode(bti: bool, supported: bool, f: Flags): Option<Attrs> {
    if !f.ro && !f.noExecute then None
    else if f.tagged && f.cache != CACHED then None
    else if f.cache > UNCACHED_DEVICE then None
    else
      var memory :=
        if f.cache == CACHED then (if f.tagged then NormalTagged else Normal)
        else if f.cache == UNCACHED then StronglyOrdered
        else Device;
      var guarded := bti && !f.noExecute;
      if guarded && !supported then None
      else Some(Attrs(true, memory, f.cache == CACHED, f.user, f.ro,
                      f.noExecute || !f.user, f.noExecute || f.user, f.ns, guarded, false))
  }

  // The flags that arch_mmu_query reports for a descriptor.
  function Decode(a: Attrs): Flags {
    Flags(match a.memory case StronglyOrdered => UNCACHED case Device => UNCACHED_DEVICE case _ => CACHED,
          a.apUser, a.apReadOnly, if a.apUser then a.uxn else a.pxn, a.ns, a.memory == NormalTagged, false)
  }

  // What a caller maps with is what a query reports, but for the marker that
  // says no flags were given, which is not stored.
  lemma RoundTrip(bti: bool, supported: bool, f: Flags, nonGlobal: bool)
    requires Encode(bti, supported, f).Some?
    ensures Decode(Encode(bti, supported, f).value.(nonGlobal := nonGlobal)) == f.(invalid := false)
  {
    var a := Encode(bti, supported, f).value.(nonGlobal := nonGlobal);
    assert f.cache == CACHED || f.cache == UNCACHED || f.cache == UNCACHED_DEVICE;
    assert Decode(a).cache == f.cache && Decode(a).tagged == f.tagged;
  }

  // No descriptor is writable and executable, and user code is never
  // executable in privileged mode nor privileged code in user mode.
  lemma WriteOrExecute(bti: bool, supported: bool, f: Flags)
    requires Encode(bti, supported, f).Some?
    ensures var a := Encode(bti, supported, f).value;
      && (!a.apReadOnly ==> a.uxn && a.pxn)
      && (!a.uxn ==> a.pxn && a.apUser) && (!a.pxn ==> a.uxn && !a.apUser)
      && (a.guarded ==> supported && (!a.uxn || !a.pxn))
  {
  }
}
