// The scheduler: the choice of the next thread, and the switch to it.
module Scheduler {
  // Every method of Scheduler is one stretch of code under the thread lock.

  import opened Common
  import opened Lists
  import opened Threads

  // ---------- the choice of the next thread ----------

  predicate Eligible(th: Table, c: nat, t: T) {
    t in th && (th[t].pinned < 0 || th[t].pinned == c)
  }

  // t is the first thread of queue p that may run on processor c, and no queue
  // above p has one.
  ghost predicate First(th: Table, runq: seq<seq<T>>, c: nat, p: nat, i: nat) {
    && p < |runq| && i < |runq[p]| && Eligible(th, c, runq[p][i])
    && (forall j :: 0 <= j < i ==> !Eligible(th, c, runq[p][j]))
    && NoneAbove(th, runq, c, p + 1)
  }

  ghost predicate NoneAbove(th: Table, runq: seq<seq<T>>, c: nat, p: nat) {
    forall q, j :: p <= q < |runq| && 0 <= j < |runq[q]| ==> !Eligible(th, c, runq[q][j])
  }

  // The highest set bit below n.
  method HighestBit(bits: seq<bool>, n: nat) returns (p: int)
    requires n <= |bits|
    ensures -1 <= p < n && (p >= 0 ==> bits[p]) && forall q :: p < q < n ==> !bits[q]
  {
    p := n - 1;
    while p >= 0 && !bits[p]
      invariant -1 <= p < n && forall q :: p < q < n ==> !bits[q]
    {
      p := p - 1;
    }
  }

  // get_top_thread without the choice of the idle thread: the position of the
  // first thread for processor c, or -1 if there is none.
  method FindTop(th: Table, runq: seq<seq<T>>, bits: seq<bool>, c: nat) returns (p: int, i: nat)
    requires RunOk(th, runq, bits)
    ensures -1 <= p
    ensures p >= 0 ==> First(th, runq, c, p, i)
    ensures p == -1 ==> NoneAbove(th, runq, c, 0)
  {
    i := 0;
    p := HighestBit(bits, |bits|);
    EmptyAbove(th, runq, bits, c, p + 1, |bits|);
    while p >= 0
      invariant -1 <= p < |bits| && (p >= 0 ==> bits[p]) && NoneAbove(th, runq, c, p + 1)
    {
      i := 0;
      while i < |runq[p]|
        invariant 0 <= i <= |runq[p]|
        invariant forall j :: 0 <= j < i ==> !Eligible(th, c, runq[p][j])
      {
        if Eligible(th, c, runq[p][i]) {
          return;
        }
        i := i + 1;
      }
      var q := HighestBit(bits, p);
      EmptyAbove(th, runq, bits, c, q + 1, p);
      p := q;
    }
  }

  lemma EmptyAbove(th: Table, runq: seq<seq<T>>, bits: seq<bool>, c: nat, p: nat, n: nat)
    requires RunOk(th, runq, bits) && p <= n <= |bits| && forall q :: p <= q < n ==> !bits[q]
    requires NoneAbove(th, runq, c, n)
    ensures NoneAbove(th, runq, c, p)
  {
    assert forall q :: p <= q < n ==> runq[q] == [];
  }

  // ---------- the switch ----------

  function Resumed(v: Thread, c: nat): Thread {
    v.(state := Running, curr := c, quantum := if v.quantum <= 0 then 5 else v.quantum)
  }

  function Switched(th: Table, o: T, t: T, c: nat): Table
    requires t in th && o in th
  {
    if t == o then th[t := th[t].(state := Running)]
    else th[o := th[o].(curr := -1)][t := Resumed(th[t], c)]
  }

  // What thread_resched makes of the threads when processor c goes from the
  // thread it has to the next.
  ghost predicate Rescheduled(th: Table, runq: seq<seq<T>>, current: seq<T>, idleOf: seq<T>, c: nat,
                              th': Table, runq': seq<seq<T>>, current': seq<T>) {
    && c < |current| && c < |idleOf| && c < |current'| && current[c] in th && current'[c] in th
    && current' == current[c := current'[c]]
    && th' == Switched(th, current[c], current'[c], c)
    && (if NoneAbove(th, runq, c, 0) then current'[c] == idleOf[c] && runq' == runq
        else exists p: nat, i: nat :: First(th, runq, c, p, i) && runq[p][i] == current'[c]
                            && runq' == runq[p := Without(runq[p], current'[c])])
  }

  // The thread that runs next may run there, and no ready thread that may run
  // there has a higher priority.
  lemma HighestPriority(th: Table, runq: seq<seq<T>>, bits: seq<bool>, current: seq<T>, idleOf: seq<T>, mid: Option<nat>, c: nat,
                        th': Table, runq': seq<seq<T>>, current': seq<T>, u: T)
    requires RunOk(th, runq, bits) && CpuOk(th, current, idleOf, mid)
    requires Rescheduled(th, runq, current, idleOf, c, th', runq', current')
    ensures Eligible(th, c, current'[c])
    ensures u in th && th[u].Queued() && Eligible(th, c, u) ==>
      th[current'[c]].Queued() && th[u].priority <= th[current'[c]].priority
  {
    if u in th && th[u].Queued() {
      var q, j := InQueue(th, runq, bits, u);
      if !NoneAbove(th, runq, c, 0) {
        var p: nat, i: nat :| First(th, runq, c, p, i) && runq[p][i] == current'[c];
        TopIsHighest(th, runq, bits, c, p, i, q, j);
      }
    }
    if !NoneAbove(th, runq, c, 0) {
      var p: nat, i: nat :| First(th, runq, c, p, i) && runq[p][i] == current'[c];
      assert Eligible(th, c, runq[p][i]);
    }
  }

  // A ready thread that waits for a processor and may have this one.
  ghost predicate MayRun(v: Thread, c: nat) {
    v.state == Ready && !v.idle && (v.pinned < 0 || v.pinned == c)
  }

  // The thread of processor c may run there, and no ready thread that may run
  // there has a higher priority; an idle thread runs only if there is none.
  ghost predicate TopRuns(th: Table, current: seq<T>, c: nat) {
    && c < |current| && current[c] in th && (th[current[c]].pinned < 0 || th[current[c]].pinned == c)
    && (forall u :: u in th && MayRun(th[u], c) ==>
          !th[current[c]].idle && th[u].priority <= th[current[c]].priority)
  }

  // So it is after every switch.
  lemma TopAfter(th: Table, runq: seq<seq<T>>, bits: seq<bool>, current: seq<T>, idleOf: seq<T>, mid: Option<nat>, c: nat,
                 th': Table, runq': seq<seq<T>>, current': seq<T>)
    requires RunOk(th, runq, bits) && CpuOk(th, current, idleOf, mid)
    requires Rescheduled(th, runq, current, idleOf, c, th', runq', current')
    ensures TopRuns(th', current', c)
  {
    var t := current'[c];
    HighestPriority(th, runq, bits, current, idleOf, mid, c, th', runq', current', t);
    forall u | u in th' && MayRun(th'[u], c)
      ensures !th'[t].idle && th'[u].priority <= th'[t].priority
    {
      assert u != t && u in th && th[u].Queued() && Eligible(th, c, u);
      HighestPriority(th, runq, bits, current, idleOf, mid, c, th', runq', current', u);
    }
  }

  lemma InQueue(th: Table, runq: seq<seq<T>>, bits: seq<bool>, u: T) returns (q: nat, j: nat)
    requires RunOk(th, runq, bits) && u in th && th[u].Queued()
    ensures q == th[u].priority < |runq| && j < |runq[q]| && runq[q][j] == u
  {
    q := th[u].priority;
    assert u in runq[q];
    j :| 0 <= j < |runq[q]| && runq[q][j] == u;
  }

  lemma TopIsHighest(th: Table, runq: seq<seq<T>>, bits: seq<bool>, c: nat, p: nat, i: nat, q: nat, j: nat)
    requires RunOk(th, runq, bits) && First(th, runq, c, p, i) && q < |runq| && j < |runq[q]|
    ensures runq[p][i] in th && th[runq[p][i]].Queued() && th[runq[p][i]].priority == p
    ensures Eligible(th, c, runq[q][j]) ==> q <= p
  {
    assert QueueOk(th, runq[p], p) && runq[p][i] in runq[p];
  }

  // Among ready threads of the same priority that may run there, the first in
  // the queue is taken.
  lemma FirstInQueue(th: Table, runq: seq<seq<T>>, current: seq<T>, idleOf: seq<T>, c: nat,
                     th': Table, runq': seq<seq<T>>, current': seq<T>, p: nat, i: nat)
    requires Rescheduled(th, runq, current, idleOf, c, th', runq', current')
    requires First(th, runq, c, p, i)
    ensures current'[c] == runq[p][i]
  {
    FirstIsSome(th, runq, c, p, i);
    var q: nat, j: nat :| First(th, runq, c, q, j) && runq[q][j] == current'[c];
    OneFirst(th, runq, c, p, i, q, j);
  }

  // What a switch changes: the processor goes over to one thread, which leaves its
  // queue, and nothing else happens to any thread or queue.
  lemma SwitchMeaning(th: Table, runq: seq<seq<T>>, current: seq<T>, idleOf: seq<T>, c: nat,
                      th': Table, runq': seq<seq<T>>, current': seq<T>)
    requires Rescheduled(th, runq, current, idleOf, c, th', runq', current')
    ensures c < |current| == |current'| && th'.Keys == th.Keys && current[c] in th && current'[c] in th && |runq'| == |runq|
    ensures forall d :: 0 <= d < |current| && d != c ==> current'[d] == current[d]
    ensures forall u :: u in th && u != current[c] && u != current'[c] ==> th'[u] == th[u]
    ensures current'[c] != current[c] ==> th'[current[c]] == th[current[c]].(curr := -1)
    ensures var v, v' := th[current'[c]], th'[current'[c]];
      && v' == v.(state := Running, curr := v'.curr, quantum := v'.quantum)
      && (if current'[c] == current[c] then v'.curr == v.curr && v'.quantum == v.quantum
          else v'.curr == c && v'.quantum == if v.quantum <= 0 then 5 else v.quantum)
    ensures forall p :: 0 <= p < |runq| ==>
      runq'[p] == runq[p] || (TakenOut(runq[p], runq'[p], current'[c]) && forall q :: 0 <= q < |runq| && q != p ==> runq'[q] == runq[q])
  {
    if !NoneAbove(th, runq, c, 0) {
      var p: nat, i: nat :| First(th, runq, c, p, i) && runq[p][i] == current'[c] && runq' == runq[p := Without(runq[p], current'[c])];
      WithoutSplits(runq[p], current'[c]);
    }
  }

  lemma WithoutEnds(q: seq<T>, t: T)
    requires q != []
    ensures q[0] != t ==> Without(q, t) != [] && Without(q, t)[0] == q[0]
    ensures q[|q| - 1] != t ==> Without(q, t) != [] && Without(q, t)[|Without(q, t)| - 1] == q[|q| - 1]
  {
    WithoutSplits(q, t);
    if t in q {
      var i :| 0 <= i < |q| && q[i] == t && Without(q, t) == q[..i] + q[i + 1..];
    }
  }

  lemma NotFromTail(th: Table, runq: seq<seq<T>>, bits: seq<bool>, c: nat, k: nat, i: nat, o: T, u: T)
    requires RunOk(th, runq, bits) && First(th, runq, c, k, i) && runq[k][i] == o
    requires o in th && th[o].Queued() && th[o].priority < |runq| && StandsLast(runq[th[o].priority], o)
    requires u in th && u != o && MayRun(th[u], c)
    ensures th[u].priority < th[o].priority
  {
    var p := th[o].priority;
    TopIsHighest(th, runq, bits, c, k, i, k, i);
    var q, j := InQueue(th, runq, bits, u);
    assert Eligible(th, c, runq[q][j]);
    TopIsHighest(th, runq, bits, c, k, i, q, j);
    assert QueueOk(th, runq[p], p);
    hide RunOk, QueueOk, NoneAbove;
    assert i == |runq[p]| - 1;
    assert q == p ==> j < i;
  }

  // A thread at the tail of its queue runs next if and only if nobody else of its
  // priority or a higher one may. If not, it stays at the tail.
  lemma TailGivesWay(th: Table, runq: seq<seq<T>>, bits: seq<bool>, current: seq<T>, idleOf: seq<T>, c: nat,
                     th': Table, runq': seq<seq<T>>, current': seq<T>, o: T)
    requires RunOk(th, runq, bits) && Rescheduled(th, runq, current, idleOf, c, th', runq', current')
    requires o in th && th[o].Queued() && th[o].priority < |runq| && StandsLast(runq[th[o].priority], o)
    requires idleOf[c] in th && th[idleOf[c]].idle
    ensures current'[c] == o <==>
      Eligible(th, c, o) && forall u :: u in th && u != o && MayRun(th[u], c) ==> th[u].priority < th[o].priority
    ensures current'[c] != o ==> th[o].priority < |runq'| && StandsLast(runq'[th[o].priority], o)
  {
    hide RunOk, NoneAbove;
    if current'[c] == o {
      TopOfAll(th, runq, bits, current, idleOf, c, th', runq', current', o);
      var k: nat, i: nat :| First(th, runq, c, k, i) && runq[k][i] == current'[c];
      forall u | u in th && u != o && MayRun(th[u], c)
        ensures th[u].priority < th[o].priority
      {
        NotFromTail(th, runq, bits, c, k, i, o, u);
      }
    } else {
      if Eligible(th, c, o) {
        TopMayRun(th, runq, bits, current, idleOf, c, th', runq', current', o);
      }
      WithoutEnds(runq[th[o].priority], current'[c]);
    }
  }

  // Who else may run does not depend on the thread that stops.
  lemma Rivals(th: Table, th': Table, o: T, c: nat)
    requires o in th && o in th' && th' == th[o := th'[o]] && th[o].state == Running
    ensures (forall u :: u in th' && u != o && MayRun(th'[u], c) ==> th'[u].priority < th'[o].priority) <==>
            (forall u :: u in th && MayRun(th[u], c) ==> th[u].priority < th'[o].priority)
    ensures (forall u :: u in th' && MayRun(th'[u], c) ==> th'[u].priority <= th'[o].priority) <==>
            (forall u :: u in th && MayRun(th[u], c) ==> th[u].priority <= th'[o].priority)
  {
    forall u | u in th && u != o
      ensures u in th' && th'[u] == th[u]
    {
    }
  }

  lemma BlockedNotIdle(th: Table, current: seq<T>, idleOf: seq<T>, mid: Option<nat>, t: T)
    requires CpuOk(th, current, idleOf, mid) && t in th && th[t].state == Blocked
    ensures !th[t].idle
  {
    assert PlaceOk(th, current, idleOf, t);
  }

  lemma WokenRivals(th: Table, th': Table, o: T, t: T, ret: int, c: nat)
    requires o in th && t in th && o != t && th[o].state == Running && th[t].state == Blocked && !th[o].idle && !th[t].idle
    requires th' == th[o := th[o].(state := Ready)][t := th[t].(state := Ready, blocking := None, ret := ret)]
    ensures t in th' && Eligible(th', c, t) == (th[t].pinned < 0 || th[t].pinned == c)
    ensures (forall u :: u in th' && MayRun(th'[u], c) ==> th'[u].priority <= th'[t].priority) <==>
            && (th[o].pinned < 0 || th[o].pinned == c ==> th[o].priority <= th[t].priority)
            && (forall u :: u in th && MayRun(th[u], c) ==> th[u].priority <= th[t].priority)
  {
    assert MayRun(th'[o], c) == (th[o].pinned < 0 || th[o].pinned == c);
    forall u | u in th && u != o && u != t
      ensures u in th' && th'[u] == th[u]
    {
    }
  }

  ghost predicate StandsLast(q: seq<T>, t: T) {
    q != [] && q[|q| - 1] == t
  }

  // Whoever runs instead of an eligible queued thread is of its priority or a
  // higher one.
  lemma TopMayRun(th: Table, runq: seq<seq<T>>, bits: seq<bool>, current: seq<T>, idleOf: seq<T>, c: nat,
                  th': Table, runq': seq<seq<T>>, current': seq<T>, o: T)
    requires RunOk(th, runq, bits) && Rescheduled(th, runq, current, idleOf, c, th', runq', current')
    requires o in th && th[o].Queued() && Eligible(th, c, o) && current'[c] != o
    ensures current'[c] in th && MayRun(th[current'[c]], c) && th[current'[c]].priority >= th[o].priority
  {
    var q, j := InQueue(th, runq, bits, o);
    assert Eligible(th, c, runq[q][j]);
    var k: nat, i: nat :| First(th, runq, c, k, i) && runq[k][i] == current'[c];
    TopIsHighest(th, runq, bits, c, k, i, q, j);
  }

  // A thread at the head of its queue that may run does so if and only if nobody
  // of a higher priority may. If it does not, it stays at the head.
  lemma HeadGoesFirst(th: Table, runq: seq<seq<T>>, bits: seq<bool>, current: seq<T>, idleOf: seq<T>, c: nat,
                      th': Table, runq': seq<seq<T>>, current': seq<T>, o: T)
    requires RunOk(th, runq, bits) && Rescheduled(th, runq, current, idleOf, c, th', runq', current')
    requires o in th && th[o].Queued() && th[o].priority < |runq| && StandsFirst(runq[th[o].priority], o)
    requires idleOf[c] in th && th[idleOf[c]].idle
    ensures current'[c] == o <==>
      Eligible(th, c, o) && forall u :: u in th && MayRun(th[u], c) ==> th[u].priority <= th[o].priority
    ensures current'[c] != o ==> th[o].priority < |runq'| && StandsFirst(runq'[th[o].priority], o)
  {
    hide RunOk, NoneAbove;
    var p := th[o].priority;
    if current'[c] == o {
      TopOfAll(th, runq, bits, current, idleOf, c, th', runq', current', o);
    }
    if Eligible(th, c, o) {
      HeadTaken(th, runq, bits, current, idleOf, c, th', runq', current', o);
    }
    if current'[c] != o {
      WithoutEnds(runq[p], current'[c]);
    }
  }

  lemma HeadTaken(th: Table, runq: seq<seq<T>>, bits: seq<bool>, current: seq<T>, idleOf: seq<T>, c: nat,
                  th': Table, runq': seq<seq<T>>, current': seq<T>, o: T)
    requires RunOk(th, runq, bits) && Rescheduled(th, runq, current, idleOf, c, th', runq', current')
    requires o in th && th[o].Queued() && th[o].priority < |runq| && StandsFirst(runq[th[o].priority], o) && Eligible(th, c, o)
    ensures current'[c] in th && (current'[c] == o || (MayRun(th[current'[c]], c) && th[current'[c]].priority > th[o].priority))
  {
    var p := th[o].priority;
    assert Eligible(th, c, runq[p][0]);
    var k: nat, i: nat :| First(th, runq, c, k, i) && runq[k][i] == current'[c];
    TopIsHighest(th, runq, bits, c, k, i, p, 0);
    assert k == p ==> i == 0;
  }

  ghost predicate StandsFirst(q: seq<T>, t: T) {
    q != [] && q[0] == t
  }

  // A queued thread that is taken may run, and nobody of a higher priority may.
  lemma TopOfAll(th: Table, runq: seq<seq<T>>, bits: seq<bool>, current: seq<T>, idleOf: seq<T>, c: nat,
                 th': Table, runq': seq<seq<T>>, current': seq<T>, o: T)
    requires RunOk(th, runq, bits) && Rescheduled(th, runq, current, idleOf, c, th', runq', current')
    requires o in th && th[o].Queued() && current'[c] == o && idleOf[c] in th && th[idleOf[c]].idle
    ensures forall u :: u in th && MayRun(th[u], c) ==> th[u].priority <= th[o].priority
    ensures Eligible(th, c, o) && !NoneAbove(th, runq, c, 0)
  {
    forall u | u in th && MayRun(th[u], c)
      ensures th[u].priority <= th[o].priority
    {
      var q, j := InQueue(th, runq, bits, u);
      assert Eligible(th, c, runq[q][j]);
      var k: nat, i: nat :| First(th, runq, c, k, i) && runq[k][i] == current'[c];
      TopIsHighest(th, runq, bits, c, k, i, q, j);
    }
    var k: nat, i: nat :| First(th, runq, c, k, i) && runq[k][i] == current'[c];
  }

  lemma FirstIsSome(th: Table, runq: seq<seq<T>>, c: nat, p: nat, i: nat)
    requires First(th, runq, c, p, i)
    ensures !NoneAbove(th, runq, c, 0)
  {
    assert Eligible(th, c, runq[p][i]);
  }

  lemma OneFirst(th: Table, runq: seq<seq<T>>, c: nat, p: nat, i: nat, q: nat, j: nat)
    requires First(th, runq, c, p, i) && First(th, runq, c, q, j)
    ensures p == q && i == j
  {
    assert Eligible(th, c, runq[p][i]) && Eligible(th, c, runq[q][j]);
  }

  lemma SwitchKeeps(th: Table, runq: seq<seq<T>>, bits: seq<bool>, waits: map<W, Wait>, current: seq<T>, idleOf: seq<T>, c: nat, t: T,
                    runq': seq<seq<T>>, bits': seq<bool>)
    requires RunOk(th, runq, bits) && WaitOk(th, waits) && CpuOk(th, current, idleOf, Some(c)) && c < |current|
    requires t in th && th[t].state == Ready && c < |idleOf| && (th[t].idle ==> idleOf[c] == t) && current[c] in th
    requires if th[t].Queued()
      then runq' == runq[th[t].priority := Without(runq[th[t].priority], t)]
           && bits' == bits[th[t].priority := bits[th[t].priority] && Without(runq[th[t].priority], t) != []]
      else th[t].idle && runq' == runq && bits' == bits
    ensures RunOk(Switched(th, current[c], t, c), runq', bits')
    ensures WaitOk(Switched(th, current[c], t, c), waits)
    ensures CpuOk(Switched(th, current[c], t, c), current[c := t], idleOf, None)
  {
    NotElsewhere(th, current, idleOf, c, t);
    hide RunOk, WaitOk, CpuOk, Switched;
    SwitchQueues(th, runq, bits, waits, current[c], t, c, runq', bits');
    SwitchCpus(th, current, idleOf, c, t);
  }

  lemma SwitchCpus(th: Table, current: seq<T>, idleOf: seq<T>, c: nat, t: T)
    requires CpuOk(th, current, idleOf, Some(c)) && c < |current| && t in th && current[c] in th
    requires t == current[c] || th[t].curr == -1
    requires c < |idleOf| && (th[t].idle ==> idleOf[c] == t)
    ensures CpuOk(Switched(th, current[c], t, c), current[c := t], idleOf, None)
  {
    assert CpuAt(th, current, Some(c), c);
    hide CpuOk;
    CpuSwitches(th, current, idleOf, c, t, Switched(th, current[c], t, c));
  }

  lemma SwitchQueues(th: Table, runq: seq<seq<T>>, bits: seq<bool>, waits: map<W, Wait>, o: T, t: T, c: nat, runq': seq<seq<T>>, bits': seq<bool>)
    requires RunOk(th, runq, bits) && WaitOk(th, waits) && t in th && o in th
    requires th[t].state == Ready
    requires if th[t].Queued()
      then runq' == runq[th[t].priority := Without(runq[th[t].priority], t)]
           && bits' == bits[th[t].priority := bits[th[t].priority] && Without(runq[th[t].priority], t) != []]
      else runq' == runq && bits' == bits
    ensures RunOk(Switched(th, o, t, c), runq', bits') && WaitOk(Switched(th, o, t, c), waits)
  {
    var th1 := if t == o then th else th[o := th[o].(curr := -1)];
    var v := if t == o then th[t].(state := Running) else Resumed(th[t], c);
    if t != o {
      RunOther(th, runq, bits, o, th[o].(curr := -1));
      WaitOther(th, waits, o, th[o].(curr := -1));
    }
    hide RunOk, WaitOk;
    SwitchIn(th1, runq, bits, waits, t, v, runq', bits');
  }

  lemma SwitchIn(th: Table, runq: seq<seq<T>>, bits: seq<bool>, waits: map<W, Wait>, t: T, v: Thread, runq': seq<seq<T>>, bits': seq<bool>)
    requires RunOk(th, runq, bits) && WaitOk(th, waits) && t in th
    requires th[t].state == Ready && v.state == Running && v.priority == th[t].priority && v.blocking == th[t].blocking
    requires if th[t].Queued()
      then runq' == runq[th[t].priority := Without(runq[th[t].priority], t)]
           && bits' == bits[th[t].priority := bits[th[t].priority] && Without(runq[th[t].priority], t) != []]
      else runq' == runq && bits' == bits
    ensures RunOk(th[t := v], runq', bits') && WaitOk(th[t := v], waits)
  {
    WaitOther(th, waits, t, v);
    if th[t].Queued() {
      DequeueOk(th, runq, bits, t, v);
    } else {
      RunOther(th, runq, bits, t, v);
    }
  }

  // A ready thread is at no other processor.
  lemma NotElsewhere(th: Table, current: seq<T>, idleOf: seq<T>, c: nat, t: T)
    requires CpuOk(th, current, idleOf, Some(c)) && c < |current| && t in th && th[t].state != Running
    ensures t == current[c] || th[t].curr == -1
  {
    assert PlaceOk(th, current, idleOf, t);
    if th[t].curr >= 0 {
      assert CpuAt(th, current, Some(c), th[t].curr);
    }
  }

  // A thread that is not running is at no processor but the one between threads.
  lemma NowhereElse(th: Table, current: seq<T>, idleOf: seq<T>, mid: Option<nat>, t: T)
    requires CpuOk(th, current, idleOf, mid) && t in th && th[t].state != Running
    requires mid.Some? && mid.value < |current| ==> current[mid.value] != t
    ensures th[t].curr == -1
  {
    Somewhere(th, current, idleOf, mid, t);
  }

  lemma Somewhere(th: Table, current: seq<T>, idleOf: seq<T>, mid: Option<nat>, t: T)
    requires CpuOk(th, current, idleOf, mid) && t in th
    ensures th[t].curr == -1 || (0 <= th[t].curr < |current| && current[th[t].curr] == t)
    ensures th[t].curr >= 0 ==> th[t].state == Running || mid == Some(th[t].curr)
  {
    assert PlaceOk(th, current, idleOf, t);
    if th[t].curr >= 0 {
      assert CpuAt(th, current, mid, th[t].curr);
    }
  }

  // ---------- changes of one thread ----------

  // The thread of processor c becomes ready.
  lemma CurrentReady(th: Table, runq: seq<seq<T>>, bits: seq<bool>, waits: map<W, Wait>, current: seq<T>, idleOf: seq<T>, c: nat,
                     v: Thread, head: bool)
    requires RunOk(th, runq, bits) && WaitOk(th, waits) && CpuOk(th, current, idleOf, None) && c < |current| && current[c] in th
    requires v.state == Ready && v.priority < |runq| && th[current[c]] == v.(state := Running, priority := th[current[c]].priority, quantum := th[current[c]].quantum)
    ensures WaitOk(th[current[c] := v], waits) && CpuOk(th[current[c] := v], current, idleOf, Some(c))
    ensures if v.idle then RunOk(th[current[c] := v], runq, bits)
            else RunOk(th[current[c] := v], runq[v.priority := Inserted(runq[v.priority], current[c], head)], bits[v.priority := true])
  {
    var t := current[c];
    assert CpuAt(th, current, None, c);
    WaitOther(th, waits, t, v);
    CpuLeaves(th, current, idleOf, c, v);
    hide WaitOk, CpuOk;
    if v.idle {
      RunOther(th, runq, bits, t, v);
    } else {
      EnqueueOk(th, runq, bits, t, v, head);
    }
  }

  // The thread of processor c stops for another reason.
  lemma CurrentStops(th: Table, runq: seq<seq<T>>, bits: seq<bool>, waits: map<W, Wait>, current: seq<T>, idleOf: seq<T>, c: nat, state: State)
    requires RunOk(th, runq, bits) && WaitOk(th, waits) && CpuOk(th, current, idleOf, None) && c < |current| && current[c] in th
    requires !th[current[c]].idle && (state == Sleeping || state == Death)
    ensures var th' := th[current[c] := th[current[c]].(state := state)];
      RunOk(th', runq, bits) && WaitOk(th', waits) && CpuOk(th', current, idleOf, Some(c))
  {
    var t := current[c];
    var v := th[t].(state := state);
    assert CpuAt(th, current, None, c);
    WaitOther(th, waits, t, v);
    CpuLeaves(th, current, idleOf, c, v);
    hide WaitOk, CpuOk;
    RunOther(th, runq, bits, t, v);
  }

  lemma CurrentBlocks(th: Table, runq: seq<seq<T>>, bits: seq<bool>, waits: map<W, Wait>, current: seq<T>, idleOf: seq<T>, c: nat, w: W)
    requires RunOk(th, runq, bits) && WaitOk(th, waits) && CpuOk(th, current, idleOf, None) && c < |current| && current[c] in th
    requires !th[current[c]].idle && w in waits
    ensures var th' := th[current[c] := th[current[c]].(state := Blocked, blocking := Some(w), ret := 0)];
      RunOk(th', runq, bits) && WaitOk(th', waits[w := Joined(waits[w], current[c])]) && CpuOk(th', current, idleOf, Some(c))
  {
    var t := current[c];
    var v := th[t].(state := Blocked, blocking := Some(w), ret := 0);
    assert CpuAt(th, current, None, c);
    BlockOk(th, waits, t, v, w);
    CpuLeaves(th, current, idleOf, c, v);
    hide WaitOk, CpuOk;
    RunOther(th, runq, bits, t, v);
  }

  function Woken(v: Thread, ret: int): Thread {
    v.(state := Ready, blocking := None, ret := ret)
  }

  // A blocked thread leaves its wait queue for the head of its run queue.
  lemma BlockedWakes(th: Table, runq: seq<seq<T>>, bits: seq<bool>, waits: map<W, Wait>, current: seq<T>, idleOf: seq<T>, mid: Option<nat>, t: T, ret: int)
    requires RunOk(th, runq, bits) && WaitOk(th, waits) && CpuOk(th, current, idleOf, mid) && t in th && th[t].state == Blocked
    requires mid.Some? && mid.value < |current| ==> current[mid.value] != t
    ensures th[t].blocking.Some? && th[t].blocking.value in waits && t in waits[th[t].blocking.value].list && th[t].priority < |runq| == |bits|
    ensures var th', p, w := th[t := Woken(th[t], ret)], th[t].priority, th[t].blocking.value;
      && RunOk(th', runq[p := Inserted(runq[p], t, true)], bits[p := true])
      && WaitOk(th', waits[w := Left(waits[w], t)]) && CpuOk(th', current, idleOf, mid)
  {
    var v := Woken(th[t], ret);
    NowhereElse(th, current, idleOf, mid, t);
    assert PlaceOk(th, current, idleOf, t);
    UnblockOk(th, waits, t, v);
    CpuOther(th, current, idleOf, mid, t, v);
    hide CpuOk;
    EnqueueOk(th, runq, bits, t, v, true);
  }

  // A suspended or sleeping thread goes to the head of its run queue.
  lemma AsideReady(th: Table, runq: seq<seq<T>>, bits: seq<bool>, waits: map<W, Wait>, current: seq<T>, idleOf: seq<T>, t: T)
    requires RunOk(th, runq, bits) && WaitOk(th, waits) && CpuOk(th, current, idleOf, None) && t in th
    requires th[t].state == Suspended || th[t].state == Sleeping
    ensures th[t].priority < |runq| == |bits|
    ensures var th', p := th[t := th[t].(state := Ready)], th[t].priority;
      && RunOk(th', runq[p := Inserted(runq[p], t, true)], bits[p := true])
      && WaitOk(th', waits) && CpuOk(th', current, idleOf, None)
  {
    var v := th[t].(state := Ready);
    NowhereElse(th, current, idleOf, None, t);
    assert PlaceOk(th, current, idleOf, t);
    WaitOther(th, waits, t, v);
    CpuOther(th, current, idleOf, None, t, v);
    hide CpuOk, WaitOk;
    EnqueueOk(th, runq, bits, t, v, true);
  }

  // Those of a list that have priority p, the last one first.
  function Latest(th: Table, list: seq<T>, p: nat): seq<T> {
    if list == [] then []
    else
      var n := |list| - 1;
      (if list[n] in th && th[list[n]].priority == p then [list[n]] else []) + Latest(th, list[..n], p)
  }

  // The threads of a list go to the heads of their run queues, one by one.
  function PushAll(th: Table, runq: seq<seq<T>>, list: seq<T>): seq<seq<T>> {
    seq(|runq|, p requires 0 <= p < |runq| => Latest(th, list, p) + runq[p])
  }

  lemma PushNone(th: Table, runq: seq<seq<T>>)
    ensures PushAll(th, runq, []) == runq
  {
    assert forall p :: 0 <= p < |runq| ==> PushAll(th, runq, [])[p] == runq[p];
  }

  lemma PushNext(th: Table, runq: seq<seq<T>>, list: seq<T>, n: nat)
    requires n < |list| && list[n] in th && th[list[n]].priority < |runq|
    ensures var p, q := th[list[n]].priority, PushAll(th, runq, list[..n]);
      PushAll(th, runq, list[..n + 1]) == q[p := [list[n]] + q[p]]
  {
    assert list[..n + 1][..n] == list[..n];
    var r, k := PushAll(th, runq, list[..n]), th[list[n]].priority;
    var q, q' := PushAll(th, runq, list[..n + 1]), r[k := [list[n]] + r[k]];
    forall p | 0 <= p < |runq|
      ensures q[p] == q'[p]
    {
      var l := Latest(th, list[..n], p);
      assert [list[n]] + l + runq[p] == [list[n]] + (l + runq[p]);
    }
    assert q == q';
  }

  // The table with the threads of a list awake.
  function WokenTable(th: Table, list: seq<T>, ret: int): Table {
    map t | t in th :: if t in list then th[t].(state := Ready, blocking := None, ret := ret) else th[t]
  }

  // Those of a list wait no longer and have been given an answer, and no other
  // thread's answer or wait has changed.
  ghost predicate Answered(th: Table, th': Table, list: seq<T>, ret: int) {
    && th'.Keys == th.Keys
    && (forall t :: t in list ==> t in th' && th'[t].ret == ret && th'[t].blocking == None && th'[t].state in {Ready, Running})
    && (forall t :: t in th && t !in list ==> th'[t].ret == th[t].ret && th'[t].blocking == th[t].blocking)
  }

  lemma ListAnswered(th0: Table, th1: Table, th2: Table, list: seq<T>, ret: int)
    requires th1.Keys == th0.Keys && forall t :: t in th0 ==> th1[t].ret == th0[t].ret && th1[t].blocking == th0[t].blocking
    requires th2 == WokenTable(th1, list, ret) && forall t :: t in list ==> t in th0
    ensures Answered(th0, th2, list, ret)
  {
  }

  lemma SwitchAnswers(th0: Table, th: Table, runq: seq<seq<T>>, current: seq<T>, idleOf: seq<T>, c: nat,
                      th': Table, runq': seq<seq<T>>, current': seq<T>, list: seq<T>, ret: int)
    requires Rescheduled(th, runq, current, idleOf, c, th', runq', current') && Answered(th0, th, list, ret)
    ensures Answered(th0, th', list, ret)
  {
    SwitchMeaning(th, runq, current, idleOf, c, th', runq', current');
    hide Rescheduled;
    forall t | t in th
      ensures t in th' && th'[t].ret == th[t].ret && th'[t].blocking == th[t].blocking && (th'[t].state == th[t].state || th'[t].state == Running)
    {
    }
  }

  // No thread leaves the dead state.
  ghost predicate DeadStay(th: Table, th': Table) {
    forall t :: t in th && th[t].state == Death ==> t in th' && th'[t].state == Death
  }

  lemma DeadTrans(th: Table, th1: Table, th2: Table)
    requires DeadStay(th, th1) && DeadStay(th1, th2)
    ensures DeadStay(th, th2)
  {
  }

  lemma DeadWrite(th: Table, t: T, v: Thread)
    requires t in th ==> th[t].state != Death || v.state == Death
    ensures DeadStay(th, th[t := v])
  {
  }

  lemma DeadSwitch(th: Table, o: T, t: T, c: nat)
    requires t in th && o in th && th[t].state == Ready
    ensures DeadStay(th, Switched(th, o, t, c))
  {
  }

  lemma DeadSame(th: Table)
    ensures DeadStay(th, th)
  {
  }

  lemma StillDead(th: Table, th': Table, t: T)
    requires DeadStay(th, th') && t in th && th[t].state == Death
    ensures t in th' && th'[t].state == Death
  {
  }

  // A dead thread is at no processor.
  lemma DeadNotRunning(th: Table, current: seq<T>, idleOf: seq<T>, t: T, c: nat)
    requires CpuOk(th, current, idleOf, None) && t in th && th[t].state == Death && c < |current|
    ensures current[c] != t
  {
    assert CpuAt(th, current, None, c);
  }

  // The thread of processor c goes to the head of its queue while it has quantum
  // left, to the tail otherwise, and the processor goes on to the next thread.
  ghost predicate Preempted(th: Table, runq: seq<seq<T>>, current: seq<T>, idleOf: seq<T>, c: nat,
                            th': Table, runq': seq<seq<T>>, current': seq<T>) {
    && c < |current| && current[c] in th && th[current[c]].priority < |runq|
    && var v := th[current[c]].(state := Ready);
       Rescheduled(th[current[c] := v],
                   if v.idle then runq else runq[v.priority := Inserted(runq[v.priority], current[c], v.quantum > 0)],
                   current, idleOf, c, th', runq', current')
  }

  // Every thread keeps its pinning.
  ghost predicate SamePins(th: Table, th': Table) {
    th'.Keys == th.Keys && forall u :: u in th ==> th'[u].pinned == th[u].pinned
  }

  lemma SameTable(th: Table)
    ensures SamePins(th, th) && DeadStay(th, th)
  {
  }

  lemma OnePin(th: Table, t: T, cpu: int, th': Table)
    requires t in th && SamePins(th[t := th[t].(pinned := cpu)], th')
    ensures th'.Keys == th.Keys && forall u :: u in th' ==> th'[u].pinned == if u == t then cpu else th[u].pinned
  {
  }

  // When a thread has been pinned anew, processor c is preempted: if the thread
  // is ready, may run there and has the higher priority, or if it is the one
  // that runs there.
  predicate PinPreempts(th: Table, current: seq<T>, c: nat, t: T, cpu: int) {
    && c < |current| && current[c] in th && t in th && th[t].pinned != cpu && !(cpu >= 0 && cpu == th[t].curr)
    && (|| (th[t].state == Ready && (cpu == -1 || cpu == c) && th[current[c]].priority < th[t].priority)
        || (th[t].state == Running && cpu != -1 && t == current[c]))
  }

  // If the highest thread runs on a processor, it still does once another one
  // has been pinned anew, unless that preempts the processor.
  lemma TopRunsOn(th: Table, current: seq<T>, idleOf: seq<T>, c: nat, t: T, cpu: int)
    requires CpuOk(th, current, idleOf, None) && c < |current| && current[c] in th && t in th && !th[t].idle
    requires !PinPreempts(th, current, c, t, cpu) && -1 <= cpu
    requires th[current[c]].idle ==> th[current[c]].priority < th[t].priority
    ensures TopRuns(th, current, c) ==> TopRuns(th[t := th[t].(pinned := cpu)], current, c)
  {
    assert CpuAt(th, current, None, c);
    if th[t].state != Running {
      NowhereElse(th, current, idleOf, None, t);
    }
    var th' := th[t := th[t].(pinned := cpu)];
    forall u | TopRuns(th, current, c) && u in th' && MayRun(th'[u], c)
      ensures !th'[current[c]].idle && th'[u].priority <= th'[current[c]].priority
    {
      assert u != t ==> MayRun(th[u], c);
    }
  }

  lemma CurrentThread(th: Table, current: seq<T>, idleOf: seq<T>, mid: Option<nat>, runq: seq<seq<T>>, bits: seq<bool>, c: nat)
    requires CpuOk(th, current, idleOf, mid) && RunOk(th, runq, bits) && c < |current|
    ensures current[c] in th && th[current[c]].priority < |runq| == |bits| && th[current[c]].curr == c
    ensures mid == None ==> th[current[c]].state == Running
    ensures c < |idleOf| && idleOf[c] in th && th[idleOf[c]].idle && th[idleOf[c]].priority < |runq|
    ensures forall t :: t in th && th[t].idle && th[t].pinned == c ==> t == idleOf[c]
  {
    assert CpuAt(th, current, mid, c);
    forall t | t in th && th[t].idle && th[t].pinned == c
      ensures t == idleOf[c]
    {
      assert PlaceOk(th, current, idleOf, t);
    }
  }

  class Scheduler {
    var threads: Table
    var runq: seq<seq<T>>           // run_queue
    var bits: seq<bool>             // run_queue_bitmap
    var waits: map<W, Wait>
    var current: seq<T>             // the thread of each processor
    const idleOf: seq<T>            // the idle thread of each processor

    // mid is the processor whose thread has stopped and that has not yet gone
    // on to the next.
    ghost predicate Valid(mid: Option<nat>)
      reads this
    {
      RunOk(threads, runq, bits) && WaitOk(threads, waits) && CpuOk(threads, current, idleOf, mid)
    }

    // Every processor starts out in its idle thread.
    constructor (cpus: nat, priorities: nat)
      requires priorities > 0
      ensures Valid(None) && |current| == cpus && |runq| == priorities && waits == map[]
      ensures forall t :: t in threads ==> threads[t].idle && threads[t].state == Running
    {
      threads := map t: T | t < cpus :: Thread(Running, 0, t, t, true, 0, None, 0);
      runq, bits := seq(priorities, _ => []), seq(priorities, _ => false);
      waits := map[];
      current, idleOf := seq(cpus, c => c), seq(cpus, c => c);
      new;
      assert forall t: nat :: t in threads <==> t < cpus;
      BootOk(threads, current, idleOf, cpus);
    }

    // thread_create: the thread is suspended.
    method Create(t: T, priority: nat)
      requires Valid(None) && t !in threads && priority < |runq|
      modifies this`threads
      ensures Valid(None) && threads == old(threads)[t := Thread(Suspended, priority, -1, -1, false, 0, None, 0)]
      ensures DeadStay(old(threads), threads)
    {
      var v := Thread(Suspended, priority, -1, -1, false, 0, None, 0);
      RunOther(threads, runq, bits, t, v);
      WaitOther(threads, waits, t, v);
      CpuOther(threads, current, idleOf, None, t, v);
      hide RunOk, WaitOk, CpuOk;
      threads := threads[t := v];
    }

    method CreateWaitQueue(w: W)
      requires Valid(None) && w !in waits
      modifies this`waits
      ensures Valid(None) && waits == old(waits)[w := Wait([], 0)]
    {
      NewQueue(threads, waits, w);
      waits := waits[w := Wait([], 0)];
    }

    // thread_resched
    method Resched(c: nat)
      requires Valid(Some(c)) && c < |current|
      modifies this`threads, this`runq, this`bits, this`current
      ensures Valid(None)
      ensures Rescheduled(old(threads), old(runq), old(current), idleOf, c, threads, runq, current)
      ensures Eligible(old(threads), c, current[c]) && old(threads)[current[c]].state == Ready
      ensures DeadStay(old(threads), threads) && TopRuns(threads, current, c)
    {
      hide RunOk, WaitOk, CpuOk, First, NoneAbove, Rescheduled, DeadStay, TopRuns;
      CurrentThread(threads, current, idleOf, Some(c), runq, bits, c);
      var p, i := FindTop(threads, runq, bits, c);
      if p >= 0 {
        TakeTop(threads, runq, bits, waits, current, idleOf, c, p, i);
        hide *;
        var t := runq[p][i];
        bits := bits[p := bits[p] && Without(runq[p], t) != []];
        runq := runq[p := Without(runq[p], t)];
        threads := Switched(threads, current[c], t, c);
        current := current[c := t];
      } else {
        TakeIdle(threads, runq, bits, waits, current, idleOf, c);
        hide *;
        threads := Switched(threads, current[c], idleOf[c], c);
        current := current[c := idleOf[c]];
      }
    }

    // The thread of processor c stops running and goes to the head or the tail
    // of its run queue, unless it is the idle thread.
    method StopReady(c: nat, v: Thread, head: bool)
      requires Valid(None) && c < |current| && current[c] in threads
      requires v.state == Ready && v.priority < |runq|
      requires threads[current[c]] == v.(state := Running, priority := threads[current[c]].priority, quantum := threads[current[c]].quantum)
      modifies this`threads, this`runq, this`bits
      ensures Valid(Some(c)) && threads == old(threads)[current[c] := v] && DeadStay(old(threads), threads)
      ensures runq == if v.idle then old(runq) else old(runq)[v.priority := Inserted(old(runq)[v.priority], current[c], head)]
    {
      hide RunOk, WaitOk, CpuOk, DeadStay;
      CurrentReady(threads, runq, bits, waits, current, idleOf, c, v, head);
      CurrentThread(threads, current, idleOf, None, runq, bits, c);
      DeadWrite(threads, current[c], v);
      var t := current[c];
      threads := threads[t := v];
      if !v.idle {
        bits := bits[v.priority := true];
        runq := runq[v.priority := Inserted(runq[v.priority], t, head)];
      }
    }

    // The thread of processor c makes way for those about to wake up.
    method StandBack(c: nat)
      requires Valid(None) && c < |current| && current[c] in threads && !threads[current[c]].idle
      modifies this`threads, this`runq, this`bits
      ensures Valid(Some(c)) && old(threads[current[c]].priority < |runq|) && DeadStay(old(threads), threads)
      ensures threads == old(threads[current[c] := threads[current[c]].(state := Ready)])
      ensures runq == old(runq[threads[current[c]].priority := [current[c]] + runq[threads[current[c]].priority]])
      ensures MidAwake(Some(c))
    {
      CurrentThread(threads, current, idleOf, None, runq, bits, c);
      StopReady(c, threads[current[c]].(state := Ready), true);
    }

    // thread_yield
    method Yield(c: nat)
      requires Valid(None) && c < |current|
      modifies this`threads, this`runq, this`bits, this`current
      ensures Valid(None) && old(current[c] in threads && threads[current[c]].priority < |runq|)
      ensures var th, p := old(threads[current[c] := threads[current[c]].(state := Ready, quantum := 0)]), old(threads[current[c]].priority);
        Rescheduled(th, if old(threads[current[c]].idle) then old(runq) else old(runq[p := runq[p] + [current[c]]]),
                    old(current), idleOf, c, threads, runq, current)
      ensures DeadStay(old(threads), threads)
      ensures TopRuns(threads, current, c)
      ensures var o := old(current)[c];
        !old(threads)[o].idle ==>
          && (current[c] == o <==>
                && (old(threads)[o].pinned < 0 || old(threads)[o].pinned == c)
                && forall u :: u in old(threads) && MayRun(old(threads)[u], c) ==> old(threads)[u].priority < old(threads)[o].priority)
          && (current[c] != o ==> old(threads)[o].priority < |runq| && StandsLast(runq[old(threads)[o].priority], o))
    {
      hide RunOk, WaitOk, CpuOk, Rescheduled, DeadStay, TopRuns;
      CurrentThread(threads, current, idleOf, None, runq, bits, c);
      StopReady(c, threads[current[c]].(state := Ready, quantum := 0), false);
      ghost var th, q, b := threads, runq, bits;
      Resched(c);
      DeadTrans(old(threads), th, threads);
      if !old(threads)[old(current)[c]].idle {
        Rivals(old(threads), th, old(current)[c], c);
        TailGivesWay(th, q, b, old(current), idleOf, c, threads, runq, current, old(current)[c]);
      }
    }

    // thread_preempt_inner: back to the head of the queue while there is quantum
    // left, and to the tail otherwise.
    method Preempt(c: nat)
      requires Valid(None) && c < |current|
      modifies this`threads, this`runq, this`bits, this`current
      ensures Valid(None) && old(current[c] in threads)
      ensures Preempted(old(threads), old(runq), old(current), idleOf, c, threads, runq, current)
      ensures DeadStay(old(threads), threads)
      ensures old(threads[current[c]].pinned) >= 0 && old(threads[current[c]].pinned) != c ==> current[c] != old(current)[c]
      ensures TopRuns(threads, current, c)
      ensures var o := old(current)[c];
        !old(threads)[o].idle ==>
          && (current[c] == o <==>
                && (old(threads)[o].pinned < 0 || old(threads)[o].pinned == c)
                && forall u :: u in old(threads) && MayRun(old(threads)[u], c) ==>
                     old(threads)[u].priority < old(threads)[o].priority
                     || (old(threads)[o].quantum > 0 && old(threads)[u].priority == old(threads)[o].priority))
          && (current[c] != o ==>
                && old(threads)[o].priority < |runq|
                && (if old(threads)[o].quantum > 0 then StandsFirst(runq[old(threads)[o].priority], o)
                    else StandsLast(runq[old(threads)[o].priority], o)))
    {
      hide RunOk, WaitOk, CpuOk, Rescheduled, DeadStay, TopRuns;
      CurrentThread(threads, current, idleOf, None, runq, bits, c);
      var v := threads[current[c]].(state := Ready);
      StopReady(c, v, v.quantum > 0);
      ghost var th, q, b := threads, runq, bits;
      Resched(c);
      DeadTrans(old(threads), th, threads);
      if !v.idle {
        Rivals(old(threads), th, old(current)[c], c);
        if v.quantum > 0 {
          HeadGoesFirst(th, q, b, old(current), idleOf, c, threads, runq, current, old(current)[c]);
        } else {
          TailGivesWay(th, q, b, old(current), idleOf, c, threads, runq, current, old(current)[c]);
        }
      }
    }

    // thread_set_priority, of a thread that is not idle.
    method SetPriority(c: nat, priority: int)
      requires Valid(None) && c < |current| && current[c] in threads && !threads[current[c]].idle && |runq| > 1
      modifies this`threads, this`runq, this`bits, this`current
      ensures Valid(None)
      ensures var p := if priority <= 0 then 1 else if priority > old(|runq|) - 1 then old(|runq|) - 1 else priority;
        var v := old(threads[current[c]]).(state := Ready, priority := p);
        Rescheduled(old(threads[current[c] := v]), old(runq[p := [current[c]] + runq[p]]),
                    old(current), idleOf, c, threads, runq, current)
      ensures DeadStay(old(threads), threads)
      ensures TopRuns(threads, current, c)
      ensures var o, p := old(current)[c], if priority <= 0 then 1 else if priority > old(|runq|) - 1 then old(|runq|) - 1 else priority;
        && o in threads && threads[o].priority == p
        && (current[c] == o <==>
              && (old(threads)[o].pinned < 0 || old(threads)[o].pinned == c)
              && forall u :: u in old(threads) && MayRun(old(threads)[u], c) ==> old(threads)[u].priority <= p)
        && (current[c] != o ==> p < |runq| && StandsFirst(runq[p], o))
    {
      hide RunOk, WaitOk, CpuOk, Rescheduled, DeadStay, TopRuns;
      var p := if priority <= 0 then 1 else if priority > |runq| - 1 then |runq| - 1 else priority;
      CurrentThread(threads, current, idleOf, None, runq, bits, c);
      StopReady(c, threads[current[c]].(state := Ready, priority := p), true);
      ghost var th, q, b := threads, runq, bits;
      Resched(c);
      DeadTrans(old(threads), th, threads);
      Rivals(old(threads), th, old(current)[c], c);
      HeadGoesFirst(th, q, b, old(current), idleOf, c, threads, runq, current, old(current)[c]);
      SwitchMeaning(th, q, old(current), idleOf, c, threads, runq, current);
    }

    // The thread of processor c stops running for another reason.
    method StopAs(c: nat, state: State)
      requires Valid(None) && c < |current| && current[c] in threads && !threads[current[c]].idle
      requires state == Sleeping || state == Death
      modifies this`threads
      ensures Valid(Some(c)) && threads == old(threads)[current[c] := old(threads)[current[c]].(state := state)]
      ensures old(threads)[current[c]].state == Running && DeadStay(old(threads), threads)
    {
      CurrentThread(threads, current, idleOf, None, runq, bits, c);
      CurrentStops(threads, runq, bits, waits, current, idleOf, c, state);
      DeadWrite(threads, current[c], threads[current[c]].(state := state));
      hide RunOk, WaitOk, CpuOk, DeadStay;
      threads := threads[current[c] := threads[current[c]].(state := state)];
    }

    // thread_sleep_ns, once its timer has been set.
    method Sleep(c: nat)
      requires Valid(None) && c < |current| && current[c] in threads && !threads[current[c]].idle
      modifies this`threads, this`runq, this`bits, this`current
      ensures Valid(None)
      ensures Rescheduled(old(threads[current[c] := threads[current[c]].(state := Sleeping)]), old(runq), old(current), idleOf, c,
                          threads, runq, current)
      ensures DeadStay(old(threads), threads)
      ensures TopRuns(threads, current, c)
    {
      hide RunOk, WaitOk, CpuOk, Rescheduled, DeadStay, TopRuns;
      StopAs(c, Sleeping);
      ghost var th := threads;
      Resched(c);
      DeadTrans(old(threads), th, threads);
    }

    // A suspended or sleeping thread goes to the head of its run queue: what
    // thread_sleep_handler does at the end of a sleep.
    method MakeReady(t: T)
      requires Valid(None) && t in threads && (threads[t].state == Suspended || threads[t].state == Sleeping)
      modifies this`threads, this`runq, this`bits
      ensures Valid(None) && old(threads[t].priority < |runq|)
      ensures threads == old(threads[t := threads[t].(state := Ready)])
      ensures runq == old(runq[threads[t].priority := [t] + runq[threads[t].priority]])
      ensures DeadStay(old(threads), threads)
    {
      hide RunOk, WaitOk, CpuOk, DeadStay;
      AsideReady(threads, runq, bits, waits, current, idleOf, t);
      DeadWrite(threads, t, threads[t].(state := Ready));
      var p := threads[t].priority;
      threads := threads[t := threads[t].(state := Ready)];
      bits := bits[p := true];
      runq := runq[p := Inserted(runq[p], t, true)];
    }

    // thread_resume up to the release of the lock. If resched is returned, the
    // caller then yields, which is a step of its own.
    method Resume(t: T, intsDisabled: bool) returns (resched: bool)
      requires Valid(None) && t in threads && threads[t].state != Death
      modifies this`threads, this`runq, this`bits
      ensures Valid(None) && (resched <==> old(threads[t].state) == Suspended && !intsDisabled)
      ensures old(threads[t].state) != Suspended ==> threads == old(threads) && runq == old(runq)
      ensures old(threads[t].state) == Suspended ==>
        && old(threads[t].priority < |runq|) && threads == old(threads[t := threads[t].(state := Ready)])
        && runq == old(runq[threads[t].priority := [t] + runq[threads[t].priority]])
      ensures DeadStay(old(threads), threads)
    {
      resched := false;
      if threads[t].state == Suspended {
        MakeReady(t);
        resched := !intsDisabled;
      }
    }

    // wait_queue_block up to the switch: nothing happens if there is no time to
    // wait. The timer for other timeouts is set before the switch.
    method Block(c: nat, w: W, timeout: nat) returns (timedOut: bool)
      requires Valid(None) && c < |current| && current[c] in threads && !threads[current[c]].idle && w in waits
      modifies this`threads, this`runq, this`bits, this`current, this`waits
      ensures Valid(None) && (timedOut <==> timeout == 0)
      ensures timedOut ==> threads == old(threads) && runq == old(runq) && current == old(current) && waits == old(waits)
      ensures !timedOut ==>
        && waits == old(waits[w := Wait(waits[w].list + [current[c]], waits[w].count + 1)])
        && Rescheduled(old(threads[current[c] := threads[current[c]].(state := Blocked, blocking := Some(w), ret := 0)]), old(runq), old(current),
                       idleOf, c, threads, runq, current)
      ensures DeadStay(old(threads), threads)
      ensures !timedOut ==> TopRuns(threads, current, c)
    {
      hide RunOk, WaitOk, CpuOk, Rescheduled, DeadStay, TopRuns, Eligible;
      CurrentThread(threads, current, idleOf, None, runq, bits, c);
      if timeout == 0 {
        DeadSame(threads);
        return true;
      }
      CurrentBlocks(threads, runq, bits, waits, current, idleOf, c, w);
      var t := current[c];
      waits := waits[w := Joined(waits[w], t)];
      threads := threads[t := threads[t].(state := Blocked, blocking := Some(w), ret := 0)];
      DeadWrite(old(threads), t, threads[t]);
      ghost var th := threads;
      Resched(c);
      DeadTrans(old(threads), th, threads);
      timedOut := false;
    }

    // Takes a blocked thread out of its wait queue, to the head of its run queue.
    method Wake(t: T, ret: int, ghost mid: Option<nat>)
      requires Valid(mid) && t in threads && threads[t].state == Blocked
      requires mid.Some? && mid.value < |current| ==> current[mid.value] != t
      modifies this`threads, this`runq, this`bits, this`waits
      ensures Valid(mid) && threads == old(threads[t := threads[t].(state := Ready, blocking := None, ret := ret)])
      ensures var p := old(threads)[t].priority;
        p < |old(runq)| && runq == old(runq)[p := [t] + old(runq)[p]]
      ensures old(threads)[t].blocking.Some? && old(threads)[t].blocking.value in old(waits)
      ensures var w := old(threads)[t].blocking.value;
        && w in waits && waits == old(waits)[w := Wait(waits[w].list, old(waits)[w].count - 1)]
        && t in old(waits)[w].list && TakenOut(old(waits)[w].list, waits[w].list, t)
        && (old(waits)[w].list[0] == t ==> waits[w].list == old(waits)[w].list[1..])
      ensures DeadStay(old(threads), threads)
    {
      hide RunOk, WaitOk, CpuOk, DeadStay;
      DeadWrite(threads, t, Woken(threads[t], ret));
      BlockedWakes(threads, runq, bits, waits, current, idleOf, mid, t, ret);
      var p, w := threads[t].priority, threads[t].blocking.value;
      WithoutSplits(waits[w].list, t);
      threads := threads[t := Woken(threads[t], ret)];
      waits := waits[w := Left(waits[w], t)];
      bits := bits[p := true];
      runq := runq[p := Inserted(runq[p], t, true)];
    }

    // thread_unblock_from_wait_queue, as wait_queue_timeout_handler calls it.
    method UnblockFromWaitQueue(t: T, ret: int) returns (woken: bool)
      requires Valid(None) && t in threads
      modifies this`threads, this`runq, this`bits, this`waits
      ensures Valid(None) && (woken <==> old(threads)[t].state == Blocked)
      ensures woken ==> threads == old(threads[t := threads[t].(state := Ready, blocking := None, ret := ret)])
      ensures woken ==> old(threads[t].priority < |runq|) && runq == old(runq[threads[t].priority := [t] + runq[threads[t].priority]])
      ensures woken ==> old(threads)[t].blocking.Some? && old(threads)[t].blocking.value in old(waits)
      ensures woken ==> var w := old(threads)[t].blocking.value;
        && w in waits && waits == old(waits)[w := Wait(waits[w].list, old(waits)[w].count - 1)]
        && t in old(waits)[w].list && TakenOut(old(waits)[w].list, waits[w].list, t)
      ensures !woken ==> threads == old(threads) && runq == old(runq) && waits == old(waits)
      ensures DeadStay(old(threads), threads)
    {
      woken := threads[t].state == Blocked;
      if woken {
        Wake(t, ret, None);
      }
    }

    // wait_queue_wake_one
    method WakeOne(c: nat, w: W, reschedule: bool, ret: int) returns (n: nat)
      requires Valid(None) && c < |current| && w in waits && current[c] in threads
      requires reschedule ==> !threads[current[c]].idle
      modifies this`threads, this`runq, this`bits, this`current, this`waits
      ensures Valid(None) && n == (if old(waits[w].list) == [] then 0 else 1)
      ensures n == 0 ==> threads == old(threads) && runq == old(runq) && current == old(current) && waits == old(waits)
      ensures n == 1 ==> waits == old(waits[w := Wait(waits[w].list[1..], waits[w].count - 1)])
      ensures n == 1 ==> old(waits[w].list[0] in threads && threads[waits[w].list[0]].priority < |runq| && threads[current[c]].priority < |runq|)
      ensures n == 1 && !reschedule ==> var t, p := old(waits[w].list[0]), old(threads[waits[w].list[0]].priority);
        && current == old(current) && threads == old(threads[t := threads[t].(state := Ready, blocking := None, ret := ret)])
        && runq == old(runq[p := [t] + runq[p]])
      ensures n == 1 && reschedule ==>
        var t, p, o := old(waits[w].list[0]), old(threads[waits[w].list[0]].priority), old(current[c]);
        var q := old(runq[threads[o].priority := [o] + runq[threads[o].priority]]);
        Rescheduled(old(threads[o := threads[o].(state := Ready)][t := threads[t].(state := Ready, blocking := None, ret := ret)]), q[p := [t] + q[p]],
                    old(current), idleOf, c, threads, runq, current)
      ensures DeadStay(old(threads), threads)
      ensures n == 1 && reschedule ==> TopRuns(threads, current, c)
      ensures n == 1 && reschedule ==>
        var th, t, o := old(threads), old(waits[w].list[0]), old(current[c]);
        && (current[c] == t <==>
              && (th[t].pinned < 0 || th[t].pinned == c)
              && (th[o].pinned < 0 || th[o].pinned == c ==> th[o].priority <= th[t].priority)
              && forall u :: u in th && MayRun(th[u], c) ==> th[u].priority <= th[t].priority)
        && (current[c] != t ==> th[t].priority < |runq| && StandsFirst(runq[th[t].priority], t))
    {
      hide RunOk, WaitOk, CpuOk, Rescheduled, DeadStay, TopRuns, Eligible;
      DeadSame(threads);
      n := 0;
      if waits[w].list != [] {
        var t := waits[w].list[0];
        HeadBlocked(threads, waits, runq, bits, w);
        CurrentThread(threads, current, idleOf, None, runq, bits, c);
        BlockedNotIdle(threads, current, idleOf, None, t);
        if reschedule {
          StandBack(c);
          ghost var th1 := threads;
          Wake(t, ret, Some(c));
          ghost var th2, q, b := threads, runq, bits;
          Resched(c);
          DeadTrans(th1, th2, threads);
          DeadTrans(old(threads), th1, threads);
          WokenRivals(old(threads), th2, old(current)[c], t, ret, c);
          HeadGoesFirst(th2, q, b, old(current), idleOf, c, threads, runq, current, t);
        } else {
          Wake(t, ret, None);
        }
        n := 1;
      }
    }

    method WakeHead(w: W, ret: int, ghost mid: Option<nat>)
      requires Valid(mid) && w in waits && waits[w].list != []
      requires mid.Some? && mid.value < |current| ==> current[mid.value] in threads && threads[current[mid.value]].state != Blocked
      modifies this`threads, this`runq, this`bits, this`waits
      ensures Valid(mid) && old(waits[w].list[0] in threads && threads[waits[w].list[0]].state == Blocked)
      ensures threads == old(threads[waits[w].list[0] := threads[waits[w].list[0]].(state := Ready, blocking := None, ret := ret)])
      ensures waits == old(waits[w := Wait(waits[w].list[1..], waits[w].count - 1)])
      ensures var t, p := old(waits[w].list[0]), old(threads[waits[w].list[0]].priority);
        p < |old(runq)| && runq == old(runq)[p := [t] + old(runq)[p]]
    {
      HeadBlocked(threads, waits, runq, bits, w);
      hide RunOk, WaitOk, CpuOk;
      Wake(waits[w].list[0], ret, mid);
    }

    // The thread of the processor between threads is not blocked.
    ghost predicate MidAwake(mid: Option<nat>)
      reads this
    {
      mid.Some? && mid.value < |current| ==> current[mid.value] in threads && threads[current[mid.value]].state != Blocked
    }

    ghost predicate Waking(th0: Table, runq0: seq<seq<T>>, waits0: map<W, Wait>, w: W, list: seq<T>, n: nat, ret: int, mid: Option<nat>)
      reads this
    {
      Valid(mid) && MidAwake(mid) && WokenSoFar(th0, threads, runq0, runq, waits0, waits, w, list, n, ret)
    }

    method WakeNext(w: W, ret: int, ghost mid: Option<nat>, ghost th0: Table, ghost runq0: seq<seq<T>>, ghost waits0: map<W, Wait>,
                    ghost list: seq<T>, ghost n: nat)
      requires Waking(th0, runq0, waits0, w, list, n, ret, mid) && w in waits && waits[w].list != []
      modifies this`threads, this`runq, this`bits, this`waits
      ensures Waking(th0, runq0, waits0, w, list, n + 1, ret, mid) && n < |list| && w in waits
    {
      hide RunOk, WaitOk, CpuOk, WokenSoFar;
      HeadBlocked(threads, waits, runq, bits, w);
      WokenNext(th0, threads, runq0, runq, waits0, waits, w, list, n, ret);
      WakeHead(w, ret, mid);
    }

    // The loop of wait_queue_wake_all.
    method WakeList(w: W, ret: int, ghost mid: Option<nat>) returns (n: nat)
      requires Valid(mid) && w in waits && MidAwake(mid)
      modifies this`threads, this`runq, this`bits, this`waits
      ensures Valid(mid) && n == |old(waits)[w].list| && waits == old(waits)[w := Wait([], 0)]
      ensures threads == WokenTable(old(threads), old(waits)[w].list, ret)
      ensures runq == PushAll(old(threads), old(runq), old(waits)[w].list)
      ensures n == 0 ==> threads == old(threads) && runq == old(runq) && waits == old(waits)
      ensures DeadStay(old(threads), threads)
    {
      n := 0;
      ghost var list, th0, runq0, waits0 := waits[w].list, threads, runq, waits;
      ListBlocked(threads, waits, w);
      WokenNone(threads, runq, waits, w, ret);
      hide WokenSoFar, Waking, Valid, WokenTable, PushAll;
      assert Waking(th0, runq0, waits0, w, list, 0, ret, mid) by {
        StartWaking(th0, runq0, waits0, w, list, ret, mid);
      }
      while waits[w].list != []
        invariant n <= |list| && w in waits && Waking(th0, runq0, waits0, w, list, n, ret, mid)
        decreases |list| - n
      {
        WakeNext(w, ret, mid, th0, runq0, waits0, list, n);
        n := n + 1;
      }
      EndWaking(th0, runq0, waits0, w, list, n, ret, mid);
      WokenFrame(th0, runq0, waits0, w, list, ret);
    }

    lemma StartWaking(th0: Table, runq0: seq<seq<T>>, waits0: map<W, Wait>, w: W, list: seq<T>, ret: int, mid: Option<nat>)
      requires Valid(mid) && MidAwake(mid) && WokenSoFar(th0, threads, runq0, runq, waits0, waits, w, list, 0, ret)
      ensures Waking(th0, runq0, waits0, w, list, 0, ret, mid)
    {
    }

    lemma EndWaking(th0: Table, runq0: seq<seq<T>>, waits0: map<W, Wait>, w: W, list: seq<T>, n: nat, ret: int, mid: Option<nat>)
      requires Waking(th0, runq0, waits0, w, list, n, ret, mid) && w in waits && waits[w].list == []
      ensures Valid(mid) && n == |list| && waits == waits0[w := Wait([], 0)]
      ensures threads == WokenTable(th0, list, ret) && runq == PushAll(th0, runq0, list)
    {
      WokenEnd(th0, threads, runq0, runq, waits0, waits, w, list, n, ret);
    }

    // wait_queue_wake_all
    method WakeAll(c: nat, w: W, reschedule: bool, ret: int) returns (n: nat)
      requires Valid(None) && c < |current| && w in waits && current[c] in threads
      requires reschedule ==> !threads[current[c]].idle
      modifies this`threads, this`runq, this`bits, this`current, this`waits
      ensures Valid(None) && n == |old(waits)[w].list| && waits == old(waits)[w := Wait([], 0)]
      ensures n == 0 ==> threads == old(threads) && runq == old(runq) && current == old(current) && waits == old(waits)
      ensures !reschedule ==>
        && threads == WokenTable(old(threads), old(waits)[w].list, ret) && current == old(current)
        && runq == PushAll(old(threads), old(runq), old(waits)[w].list)
      ensures old(threads[current[c]].priority < |runq|)
      ensures var th, p, list := old(threads[current[c] := threads[current[c]].(state := Ready)]), old(threads[current[c]].priority), old(waits[w].list);
        var q := old(runq[p := [current[c]] + runq[p]]);
        reschedule && n > 0 ==>
          Rescheduled(WokenTable(th, list, ret), PushAll(th, q, list), old(current), idleOf, c, threads, runq, current)
      ensures DeadStay(old(threads), threads)
      ensures n > 0 && reschedule ==> TopRuns(threads, current, c)
      ensures Answered(old(threads), threads, old(waits[w].list), ret)
    {
      hide RunOk, WaitOk, CpuOk, Rescheduled, WokenTable, PushAll, DeadStay, Eligible, TopRuns;
      CurrentThread(threads, current, idleOf, None, runq, bits, c);
      HeadBlocked(threads, waits, runq, bits, w);
      ListBlocked(threads, waits, w);
      if reschedule && waits[w].count > 0 {
        StandBack(c);
        ghost var th1 := threads;
        n := WakeList(w, ret, Some(c));
        ghost var th2, q := threads, runq;
        Resched(c);
        ListAnswered(old(threads), th1, th2, old(waits)[w].list, ret);
        SwitchAnswers(old(threads), th2, q, old(current), idleOf, c, threads, runq, current, old(waits)[w].list, ret);
        DeadTrans(th1, th2, threads);
        DeadTrans(old(threads), th1, threads);
      } else {
        n := WakeList(w, ret, None);
        ListAnswered(old(threads), old(threads), threads, old(waits)[w].list, ret);
      }
    }

    // thread_exit: w is the queue of those who join the thread, or the one of
    // the reaper if the thread is detached.
    method Exit(c: nat, w: W)
      requires Valid(None) && c < |current| && w in waits && current[c] in threads && !threads[current[c]].idle
      modifies this`threads, this`runq, this`bits, this`current, this`waits
      ensures Valid(None) && waits == old(waits)[w := Wait([], 0)]
      ensures var th, list := old(threads[current[c] := threads[current[c]].(state := Death)]), old(waits[w].list);
        Rescheduled(WokenTable(th, list, 0), PushAll(th, old(runq), list), old(current), idleOf, c, threads, runq, current)
      ensures DeadStay(old(threads), threads)
      ensures current[c] != old(current)[c] && old(current)[c] in threads && threads[old(current)[c]].state == Death
      ensures TopRuns(threads, current, c)
      ensures Answered(old(threads), threads, old(waits[w].list), 0)
    {
      hide RunOk, WaitOk, CpuOk, Rescheduled, WokenTable, PushAll, DeadStay, Eligible, TopRuns;
      ListBlocked(threads, waits, w);
      StopAs(c, Death);
      ghost var th1 := threads;
      var n := WakeList(w, 0, Some(c));
      ghost var th2, q := threads, runq;
      Resched(c);
      ListAnswered(old(threads), th1, th2, old(waits)[w].list, 0);
      SwitchAnswers(old(threads), th2, q, old(current), idleOf, c, threads, runq, current, old(waits)[w].list, 0);
      DeadTrans(th1, th2, threads);
      DeadTrans(old(threads), th1, threads);
      StillDead(th1, threads, old(current)[c]);
      StillDead(th1, th2, old(current)[c]);
    }

    // thread_set_pinned_cpu, of a thread that is not idle.
    method SetPinned(c: nat, t: T, cpu: int)
      requires Valid(None) && c < |current| && t in threads && !threads[t].idle && threads[t].state != Death && -1 <= cpu < |current|
      modifies this`threads, this`runq, this`bits, this`current
      ensures Valid(None) && threads.Keys == old(threads.Keys)
      ensures forall u :: u in threads ==> threads[u].pinned == if u == t then cpu else old(threads)[u].pinned
      ensures var th := old(threads[t := threads[t].(pinned := cpu)]);
        if old(PinPreempts(threads, current, c, t, cpu)) then Preempted(th, old(runq), old(current), idleOf, c, threads, runq, current)
        else threads == th && runq == old(runq) && current == old(current)
      ensures t == old(current)[c] && cpu >= 0 && cpu != c && old(threads[t].pinned) != cpu ==> current[c] != t
      ensures DeadStay(old(threads), threads)
      ensures old(PinPreempts(threads, current, c, t, cpu)) ==> TopRuns(threads, current, c)
      // If no ready thread of a higher priority waited for the processor before,
      // none does afterwards, unless its idle thread runs with a priority that is
      // not below that of t.
      ensures old(TopRuns(threads, current, c) && (threads[current[c]].idle ==> threads[current[c]].priority < threads[t].priority)) ==>
        TopRuns(threads, current, c)
    {
      hide RunOk, WaitOk, CpuOk, Rescheduled, DeadStay, Preempted, SamePins, TopRuns, Eligible;
      CurrentThread(threads, current, idleOf, None, runq, bits, c);
      if !PinPreempts(threads, current, c, t, cpu) && (threads[current[c]].idle ==> threads[current[c]].priority < threads[t].priority) {
        TopRunsOn(threads, current, idleOf, c, t, cpu);
      }
      Repinned(threads, runq, bits, waits, current, idleOf, t, cpu);
      ghost var th := threads[t := threads[t].(pinned := cpu)];
      DeadWrite(threads, t, th[t]);
      if threads[t].pinned == cpu {
        assert threads == th;
        SameTable(th);
        OnePin(threads, t, cpu, th);
        return;
      }
      threads := threads[t := threads[t].(pinned := cpu)];
      if cpu >= 0 && cpu == threads[t].curr {
        SameTable(th);
        OnePin(old(threads), t, cpu, th);
        return;
      }
      FollowPin(c, t, cpu);
      OnePin(old(threads), t, cpu, threads);
      DeadTrans(old(threads), th, threads);
    }

    // The thread has been pinned anew and may have to give way, or may go first.
    method FollowPin(c: nat, t: T, cpu: int)
      requires Valid(None) && c < |current| && t in threads && threads[t].pinned == cpu && current[c] in threads
      modifies this`threads, this`runq, this`bits, this`current
      ensures Valid(None) && SamePins(old(threads), threads) && DeadStay(old(threads), threads)
      ensures if old(|| (threads[t].state == Ready && (cpu == -1 || cpu == c) && threads[current[c]].priority < threads[t].priority)
                     || (threads[t].state == Running && cpu != -1 && t == current[c]))
        then Preempted(old(threads), old(runq), old(current), idleOf, c, threads, runq, current) && TopRuns(threads, current, c)
        else threads == old(threads) && runq == old(runq) && current == old(current)
      ensures t == old(current)[c] && cpu >= 0 && cpu != c && old(threads[t].state) == Running ==> current[c] != t
    {
      hide RunOk, WaitOk, CpuOk;
      if threads[t].state == Ready {
        if (cpu == -1 || cpu == c) && threads[current[c]].priority < threads[t].priority {
          Preempt(c);
        }
      } else if threads[t].state == Running && cpu != -1 && t == current[c] {
        Preempt(c);
      }
    }
  }

  lemma BootOk(th: Table, current: seq<T>, idleOf: seq<T>, cpus: nat)
    requires |current| == |idleOf| == cpus && forall c :: 0 <= c < cpus ==> current[c] == idleOf[c] == c
    requires forall t: nat :: t in th <==> t < cpus
    requires forall t :: t in th ==> th[t] == Thread(Running, 0, t, t, true, 0, None, 0)
    ensures CpuOk(th, current, idleOf, None)
  {
    forall c | 0 <= c < |current|
      ensures CpuAt(th, current, None, c)
    {
    }
  }

  lemma NewQueue(th: Table, waits: map<W, Wait>, w: W)
    requires WaitOk(th, waits) && w !in waits
    ensures WaitOk(th, waits[w := Wait([], 0)])
  {
    var after := waits[w := Wait([], 0)];
    forall u | u in after
      ensures ListOk(th, u, after[u])
    {
      if u != w {
        assert ListOk(th, u, waits[u]);
      }
    }
  }

  lemma HeadBlocked(th: Table, waits: map<W, Wait>, runq: seq<seq<T>>, bits: seq<bool>, w: W)
    requires WaitOk(th, waits) && RunOk(th, runq, bits) && w in waits
    ensures waits[w].count == |waits[w].list|
    ensures waits[w].list != [] ==>
      var t := waits[w].list[0];
      t in th && th[t].state == Blocked && th[t].blocking == Some(w) && th[t].priority < |runq|
  {
    assert ListOk(th, w, waits[w]);
    if waits[w].list != [] {
      assert waits[w].list[0] in waits[w].list;
    }
  }

  lemma ListBlocked(th: Table, waits: map<W, Wait>, w: W)
    requires WaitOk(th, waits) && w in waits
    ensures Distinct(waits[w].list) && waits[w].count == |waits[w].list|
    ensures forall t :: t in waits[w].list ==> t in th && th[t].state == Blocked
  {
    assert ListOk(th, w, waits[w]);
  }

  // The first n threads of a list have been woken.
  ghost predicate WokenSoFar(th0: Table, th: Table, runq0: seq<seq<T>>, runq: seq<seq<T>>, waits0: map<W, Wait>, waits: map<W, Wait>,
                             w: W, list: seq<T>, n: nat, ret: int) {
    && n <= |list| && waits == waits0[w := Wait(list[n..], |list| - n)]
    && Distinct(list) && (forall t :: t in list ==> t in th0)
    && th == WokenTable(th0, list[..n], ret) && runq == PushAll(th0, runq0, list[..n])
  }

  lemma WokenNone(th: Table, runq: seq<seq<T>>, waits: map<W, Wait>, w: W, ret: int)
    requires w in waits && Distinct(waits[w].list) && waits[w].count == |waits[w].list| && forall t :: t in waits[w].list ==> t in th
    ensures WokenSoFar(th, th, runq, runq, waits, waits, w, waits[w].list, 0, ret)
  {
    assert waits[w].list == waits[w].list[0..];
    assert waits == waits[w := Wait(waits[w].list[0..], |waits[w].list| - 0)];
    PushNone(th, runq);
  }

  lemma WokenNext(th0: Table, th: Table, runq0: seq<seq<T>>, runq: seq<seq<T>>, waits0: map<W, Wait>, waits: map<W, Wait>,
                  w: W, list: seq<T>, n: nat, ret: int)
    requires WokenSoFar(th0, th, runq0, runq, waits0, waits, w, list, n, ret) && w in waits && waits[w].list != []
    requires waits[w].list[0] in th && th[waits[w].list[0]].priority < |runq|
    ensures n < |list| && waits[w].list[1..] == list[n + 1..]
    ensures var t := waits[w].list[0];
      WokenSoFar(th0, th[t := th[t].(state := Ready, blocking := None, ret := ret)], runq0, runq[th[t].priority := [t] + runq[th[t].priority]],
                 waits0, waits[w := Wait(waits[w].list[1..], waits[w].count - 1)], w, list, n + 1, ret)
  {
    assert waits[w] == Wait(list[n..], |list| - n);
    assert list[..n + 1] == list[..n] + [list[n]];
    assert list[n] !in list[..n];
    PushNext(th0, runq0, list, n);
  }

  lemma WokenEnd(th0: Table, th: Table, runq0: seq<seq<T>>, runq: seq<seq<T>>, waits0: map<W, Wait>, waits: map<W, Wait>,
                 w: W, list: seq<T>, n: nat, ret: int)
    requires WokenSoFar(th0, th, runq0, runq, waits0, waits, w, list, n, ret) && w in waits && waits[w].list == []
    ensures n == |list| && waits == waits0[w := Wait([], 0)]
    ensures th == WokenTable(th0, list, ret) && runq == PushAll(th0, runq0, list)
  {
    assert waits[w] == Wait(list[n..], |list| - n);
    assert list[..n] == list;
  }

  // Waking nobody changes nothing, and waking the blocked revives nobody.
  lemma WokenFrame(th: Table, runq: seq<seq<T>>, waits: map<W, Wait>, w: W, list: seq<T>, ret: int)
    requires w in waits && waits[w].list == list && waits[w].count == |list| && forall t :: t in list ==> t in th && th[t].state == Blocked
    ensures list == [] ==> WokenTable(th, list, ret) == th && PushAll(th, runq, list) == runq && waits[w := Wait([], 0)] == waits
    ensures DeadStay(th, WokenTable(th, list, ret))
  {
    PushNone(th, runq);
  }

  // A thread may be pinned to another processor wherever it is.
  lemma Repinned(th: Table, runq: seq<seq<T>>, bits: seq<bool>, waits: map<W, Wait>, current: seq<T>, idleOf: seq<T>, t: T, cpu: int)
    requires RunOk(th, runq, bits) && WaitOk(th, waits) && CpuOk(th, current, idleOf, None) && t in th && !th[t].idle
    requires -1 <= cpu < |current|
    ensures var th' := th[t := th[t].(pinned := cpu)];
      RunOk(th', runq, bits) && WaitOk(th', waits) && CpuOk(th', current, idleOf, None)
  {
    var v := th[t].(pinned := cpu);
    RunOther(th, runq, bits, t, v);
    WaitOther(th, waits, t, v);
    hide RunOk, WaitOk;
    var th' := th[t := v];
    forall c | 0 <= c < |current|
      ensures CpuAt(th', current, None, c)
    {
      assert CpuAt(th, current, None, c);
    }
    forall u | u in th'
      ensures PlaceOk(th', current, idleOf, u)
    {
      assert PlaceOk(th, current, idleOf, u);
    }
  }

  lemma FirstRescheduled(th: Table, runq: seq<seq<T>>, current: seq<T>, idleOf: seq<T>, c: nat, p: nat, i: nat)
    requires First(th, runq, c, p, i) && c < |current| && c < |idleOf| && current[c] in th
    ensures p < |runq| && i < |runq[p]|
    ensures var t := runq[p][i];
      t in th && Eligible(th, c, t) && Rescheduled(th, runq, current, idleOf, c, Switched(th, current[c], t, c), runq[p := Without(runq[p], t)], current[c := t])
  {
    FirstIsSome(th, runq, c, p, i);
    hide NoneAbove, Switched;
    assert current[c := runq[p][i]][c] == runq[p][i];
  }

  lemma TakeTop(th: Table, runq: seq<seq<T>>, bits: seq<bool>, waits: map<W, Wait>, current: seq<T>, idleOf: seq<T>, c: nat, p: nat, i: nat)
    requires RunOk(th, runq, bits) && WaitOk(th, waits) && CpuOk(th, current, idleOf, Some(c)) && c < |current| && First(th, runq, c, p, i)
    ensures p < |runq| == |bits| && i < |runq[p]| && runq[p][i] in th && current[c] in th
    ensures var t := runq[p][i];
      var th', runq', bits' := Switched(th, current[c], t, c), runq[p := Without(runq[p], t)], bits[p := bits[p] && Without(runq[p], t) != []];
      && RunOk(th', runq', bits') && WaitOk(th', waits) && CpuOk(th', current[c := t], idleOf, None)
      && Rescheduled(th, runq, current, idleOf, c, th', runq', current[c := t]) && Eligible(th, c, t)
      && th[t].state == Ready && DeadStay(th, th') && TopRuns(th', current[c := t], c)
  {
    hide RunOk, WaitOk, CpuOk, First, NoneAbove, DeadStay, Switched, Rescheduled, TopRuns, Eligible;
    TopReady(th, runq, bits, c, p, i);
    var t := runq[p][i];
    CurrentThread(th, current, idleOf, Some(c), runq, bits, c);
    DeadSwitch(th, current[c], t, c);
    SwitchKeeps(th, runq, bits, waits, current, idleOf, c, t, runq[p := Without(runq[p], t)], bits[p := bits[p] && Without(runq[p], t) != []]);
    FirstRescheduled(th, runq, current, idleOf, c, p, i);
    TopAfter(th, runq, bits, current, idleOf, Some(c), c, Switched(th, current[c], t, c), runq[p := Without(runq[p], t)], current[c := t]);
  }

  lemma TakeIdle(th: Table, runq: seq<seq<T>>, bits: seq<bool>, waits: map<W, Wait>, current: seq<T>, idleOf: seq<T>, c: nat)
    requires RunOk(th, runq, bits) && WaitOk(th, waits) && CpuOk(th, current, idleOf, Some(c)) && c < |current| && NoneAbove(th, runq, c, 0)
    ensures c < |idleOf| && idleOf[c] in th && current[c] in th
    ensures var t := idleOf[c];
      var th' := Switched(th, current[c], t, c);
      && RunOk(th', runq, bits) && WaitOk(th', waits) && CpuOk(th', current[c := t], idleOf, None)
      && Rescheduled(th, runq, current, idleOf, c, th', runq, current[c := t]) && Eligible(th, c, t)
      && th[t].state == Ready && DeadStay(th, th') && TopRuns(th', current[c := t], c)
  {
    hide RunOk, WaitOk, CpuOk, NoneAbove, DeadStay, Switched, TopRuns;
    IdleReady(th, current, idleOf, c);
    CurrentThread(th, current, idleOf, Some(c), runq, bits, c);
    DeadSwitch(th, current[c], idleOf[c], c);
    SwitchKeeps(th, runq, bits, waits, current, idleOf, c, idleOf[c], runq, bits);
    assert current[c := idleOf[c]][c] == idleOf[c];
    TopAfter(th, runq, bits, current, idleOf, Some(c), c, Switched(th, current[c], idleOf[c], c), runq, current[c := idleOf[c]]);
  }

  // Between two threads the idle thread of a processor is ready.
  lemma IdleReady(th: Table, current: seq<T>, idleOf: seq<T>, c: nat)
    requires CpuOk(th, current, idleOf, Some(c)) && c < |current|
    ensures idleOf[c] in th && th[idleOf[c]].state == Ready && th[idleOf[c]].idle && th[idleOf[c]].pinned == c
  {
    assert PlaceOk(th, current, idleOf, idleOf[c]);
    assert CpuAt(th, current, Some(c), c);
  }

  lemma TopReady(th: Table, runq: seq<seq<T>>, bits: seq<bool>, c: nat, p: nat, i: nat)
    requires RunOk(th, runq, bits) && First(th, runq, c, p, i)
    ensures p < |runq| == |bits| && i < |runq[p]|
    ensures runq[p][i] in th && th[runq[p][i]].Queued() && th[runq[p][i]].priority == p
  {
    assert QueueOk(th, runq[p], p) && runq[p][i] in runq[p];
  }
}
