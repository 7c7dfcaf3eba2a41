// The initialisation hooks of a boot, called level by level.
module InitLevels {
  import opened Common

  datatype Hook = Hook(level: nat, flags: set<nat>)

  // The hook is called in the range of levels from start to stop.
  predicate Matches(table: seq<Hook>, flags: set<nat>, start: nat, stop: nat, h: nat) {
    h < |table| && table[h].flags * flags != {} && start <= table[h].level <= stop
  }

  // By level, and by position in the table within a level.
  predicate Less(table: seq<Hook>, h: nat, k: nat)
    requires h < |table| && k < |table|
  {
    table[h].level < table[k].level || (table[h].level == table[k].level && h < k)
  }

  ghost predicate Ordered(table: seq<Hook>, calls: seq<nat>) {
    && (forall i :: 0 <= i < |calls| ==> calls[i] < |table|)
    && (forall i, j :: 0 <= i < j < |calls| ==> Less(table, calls[i], calls[j]))
  }

  // The calls of one range: every matching hook exactly once, in order.
  ghost predicate Calls(table: seq<Hook>, flags: set<nat>, start: nat, stop: nat, calls: seq<nat>) {
    && Ordered(table, calls)
    && (forall h :: h in calls <==> Matches(table, flags, start, stop, h))
  }

  // Whether hook h comes after all that have been called so far.
  predicate After(table: seq<Hook>, last: Option<nat>, lastLevel: int, h: nat)
    requires h < |table|
  {
    table[h].level > lastLevel || (table[h].level == lastLevel && last.Some? && last.value < h)
  }

  predicate Pending(table: seq<Hook>, flags: set<nat>, start: nat, stop: nat, last: Option<nat>, lastLevel: int, h: nat) {
    Matches(table, flags, start, stop, h) && After(table, last, lastLevel, h)
  }

  // The inner loop of lk_init_level: the lowest hook not yet called.
  method FindNext(table: seq<Hook>, flags: set<nat>, start: nat, stop: nat, last: Option<nat>, lastLevel: int)
    returns (found: Option<nat>)
    requires start - 1 <= lastLevel
    requires last.Some? ==> Matches(table, flags, start, stop, last.value) && table[last.value].level == lastLevel
    ensures found == None ==> forall h: nat :: !Pending(table, flags, start, stop, last, lastLevel, h)
    ensures found.Some? ==> Pending(table, flags, start, stop, last, lastLevel, found.value)
    ensures found.Some? ==> forall h: nat :: Pending(table, flags, start, stop, last, lastLevel, h) ==>
      h == found.value || Less(table, found.value, h)
  {
    found := None;
    var seenLast := false;
    var p := 0;
    while p < |table|
      invariant 0 <= p <= |table|
      invariant seenLast <==> last.Some? && last.value < p
      invariant found == None ==> forall h: nat :: h < p ==> !Pending(table, flags, start, stop, last, lastLevel, h)
      invariant found.Some? ==> found.value < p && table[found.value].level > lastLevel
      invariant found.Some? ==> Pending(table, flags, start, stop, last, lastLevel, found.value)
      invariant found.Some? ==> forall h: nat :: h < p && Pending(table, flags, start, stop, last, lastLevel, h) ==>
        h == found.value || Less(table, found.value, h)
    {
      if last == Some(p) {
        seenLast := true;
      }
      var hook := table[p];
      if hook.flags * flags == {} || hook.level > stop || hook.level < lastLevel ||
         (found.Some? && table[found.value].level <= hook.level) {
      } else if hook.level >= start && hook.level > lastLevel {
        found := Some(p);
      } else if hook.level == lastLevel && last != Some(p) && seenLast {
        found := Some(p);
        break;
      }
      p := p + 1;
    }
  }

  // lk_init_level. It only remembers the last hook called and its level.
  method InitLevel(table: seq<Hook>, flags: set<nat>, start: nat, stop: nat) returns (calls: seq<nat>)
    requires start > 0
    ensures Calls(table, flags, start, stop, calls)
    ensures forall h: nat :: h in calls <==>
      h < |table| && start <= table[h].level <= stop && exists f :: f in table[h].flags && f in flags
    ensures forall i, j :: 0 <= i < j < |calls| ==>
      && calls[i] < |table| && calls[j] < |table|
      && (table[calls[i]].level < table[calls[j]].level || (table[calls[i]].level == table[calls[j]].level && calls[i] < calls[j]))
  {
    calls := CallHooks(table, flags, start, stop);
    forall h: nat
      ensures Matches(table, flags, start, stop, h) <==>
        h < |table| && start <= table[h].level <= stop && exists f :: f in table[h].flags && f in flags
    {
      if h < |table| && table[h].flags * flags != {} {
        var f :| f in table[h].flags * flags;
        assert f in table[h].flags && f in flags;
      }
      if f :| h < |table| && f in table[h].flags && f in flags {
        assert f in table[h].flags * flags;
      }
    }
  }

  method CallHooks(table: seq<Hook>, flags: set<nat>, start: nat, stop: nat) returns (calls: seq<nat>)
    requires start > 0
    ensures Calls(table, flags, start, stop, calls)
  {
    var last, lastLevel: int := None, start - 1;
    calls := [];
    while true
      invariant start - 1 <= lastLevel
      invariant last.Some? ==> Matches(table, flags, start, stop, last.value) && table[last.value].level == lastLevel
      invariant last == None ==> lastLevel == start - 1 && calls == []
      invariant last.Some? ==> |calls| > 0 && calls[|calls| - 1] == last.value
      invariant Ordered(table, calls)
      invariant forall h: nat :: h in calls <==>
        Matches(table, flags, start, stop, h) && !After(table, last, lastLevel, h)
      decreases stop + 1 - lastLevel, if last.Some? then |table| - last.value else |table| + 1
    {
      var found := FindNext(table, flags, start, stop, last, lastLevel);
      if found == None {
        break;
      }
      ghost var calls0, last0, level0 := calls, last, lastLevel;
      calls := calls + [found.value];
      lastLevel := table[found.value].level;
      last := found;
      forall h: nat
        ensures h in calls <==> Matches(table, flags, start, stop, h) && !After(table, last, lastLevel, h)
      {
        assert h in calls <==> h in calls0 || h == found.value;
        if Pending(table, flags, start, stop, last0, level0, h) {
          assert h == found.value || Less(table, found.value, h);
        }
      }
    }
    forall h: nat
      ensures h in calls <==> Matches(table, flags, start, stop, h)
    {
      assert !Pending(table, flags, start, stop, last, lastLevel, h);
    }
  }

  // ---------- what a range of calls is ----------

  // Only one sequence of calls fits a range.
  lemma {:induction false} CallsUnique(table: seq<Hook>, flags: set<nat>, start: nat, stop: nat, c: seq<nat>, d: seq<nat>)
    requires Calls(table, flags, start, stop, c) && Calls(table, flags, start, stop, d)
    ensures c == d
  {
    SameOrdered(table, c, d);
  }

  lemma {:induction false} SameOrdered(table: seq<Hook>, c: seq<nat>, d: seq<nat>)
    requires Ordered(table, c) && Ordered(table, d) && forall h :: h in c <==> h in d
    ensures c == d
  {
    assert d == [] || d[0] in d;
    if c != [] {
      assert c[0] in d && d != [];
      SameFirst(table, c, d);
      forall h
        ensures h in c[1..] <==> h in d[1..]
      {
        RestOf(table, c, h);
        RestOf(table, d, h);
      }
      SameOrdered(table, c[1..], d[1..]);
    }
  }

  lemma SameFirst(table: seq<Hook>, c: seq<nat>, d: seq<nat>)
    requires Ordered(table, c) && Ordered(table, d) && c != [] && d != [] && d[0] in c && c[0] in d
    ensures c[0] == d[0]
  {
    var i :| 0 <= i < |c| && c[i] == d[0];
    var j :| 0 <= j < |d| && d[j] == c[0];
  }

  lemma RestOf(table: seq<Hook>, c: seq<nat>, h: nat)
    requires Ordered(table, c) && c != []
    ensures h in c[1..] <==> h in c && h != c[0]
  {
    if h in c && h != c[0] {
      var i :| 0 <= i < |c| && c[i] == h;
      assert c[1..][i - 1] == h;
    }
  }

  // The calls of two ranges that meet are the calls of the whole range.
  lemma CallsJoin(table: seq<Hook>, flags: set<nat>, start: nat, mid: nat, stop: nat, c: seq<nat>, d: seq<nat>)
    requires 0 < start <= mid <= stop + 1
    requires Calls(table, flags, start, mid - 1, c) && Calls(table, flags, mid, stop, d)
    ensures Calls(table, flags, start, stop, c + d)
  {
    forall i, j | 0 <= i < |c| && 0 <= j < |d|
      ensures Less(table, c[i], d[j])
    {
      assert c[i] in c && d[j] in d;
      assert Matches(table, flags, start, mid - 1, c[i]) && Matches(table, flags, mid, stop, d[j]);
    }
    forall h
      ensures h in c + d <==> Matches(table, flags, start, stop, h)
    {
      assert h in c + d <==> h in c || h in d;
    }
  }

  function Concat(runs: seq<seq<nat>>): seq<nat> {
    if runs == [] then [] else runs[0] + Concat(runs[1..])
  }

  // A boot calls the ranges from each of its bounds up to the next. All of it
  // together is one sort of the table.
  lemma {:induction false} BootIsOneSort(table: seq<Hook>, flags: set<nat>, bounds: seq<nat>, runs: seq<seq<nat>>)
    requires |bounds| == |runs| + 1 && 0 < bounds[0]
    requires forall i, j :: 0 <= i <= j < |bounds| ==> bounds[i] <= bounds[j]
    requires forall i :: 0 <= i < |runs| ==> Calls(table, flags, bounds[i], bounds[i + 1] - 1, runs[i])
    ensures bounds[|runs|] > 0 && Calls(table, flags, bounds[0], bounds[|runs|] - 1, Concat(runs))
    decreases |runs|
  {
    if runs != [] {
      forall i | 0 <= i < |runs[1..]|
        ensures Calls(table, flags, bounds[1..][i], bounds[1..][i + 1] - 1, runs[1..][i])
      {
        assert Calls(table, flags, bounds[i + 1], bounds[i + 1 + 1] - 1, runs[i + 1]);
      }
      BootIsOneSort(table, flags, bounds[1..], runs[1..]);
      CallsJoin(table, flags, bounds[0], bounds[1], bounds[|runs|] - 1, runs[0], Concat(runs[1..]));
    }
  }

  // The levels of the primary boot sequence, from lk_main to bootstrap2.
  datatype Levels = Levels(earliest: nat, archEarly: nat, platformEarly: nat, targetEarly: nat, heap: nat, kernel: nat,
                           threading: nat, arch: nat, platform: nat, target: nat, apps: nat, last: nat) {
    predicate Ok() {
      0 < earliest <= archEarly <= platformEarly <= targetEarly <= heap <= kernel
      && kernel <= threading <= arch <= platform <= target <= apps <= last
    }
  }

  method PrimaryBoot(table: seq<Hook>, primary: set<nat>, l: Levels) returns (calls: seq<nat>)
    requires l.Ok()
    ensures Calls(table, primary, l.earliest, l.last, calls)
  {
    var c := InitLevel(table, primary, l.earliest, l.archEarly - 1);
    calls := Then(table, primary, l.earliest, c, l.archEarly, l.platformEarly - 1);
    calls := Then(table, primary, l.earliest, calls, l.platformEarly, l.targetEarly - 1);
    calls := Then(table, primary, l.earliest, calls, l.targetEarly, l.heap - 1);
    calls := Then(table, primary, l.earliest, calls, l.heap, l.kernel - 1);
    calls := Then(table, primary, l.earliest, calls, l.kernel, l.threading - 1);
    calls := Then(table, primary, l.earliest, calls, l.threading, l.arch - 1);
    calls := Then(table, primary, l.earliest, calls, l.arch, l.platform - 1);
    calls := Then(table, primary, l.earliest, calls, l.platform, l.target - 1);
    calls := Then(table, primary, l.earliest, calls, l.target, l.apps - 1);
    calls := Then(table, primary, l.earliest, calls, l.apps, l.last);
  }

  method Then(table: seq<Hook>, flags: set<nat>, start: nat, before: seq<nat>, mid: nat, stop: nat) returns (calls: seq<nat>)
    requires 0 < start <= mid <= stop + 1 && Calls(table, flags, start, mid - 1, before)
    ensures Calls(table, flags, start, stop, calls)
  {
    var c := InitLevel(table, flags, mid, stop);
    CallsJoin(table, flags, start, mid, stop, before, c);
    calls := before + c;
  }
}
