// Threads, run queues and wait queues, and what keeps them in agreement.
module Threads {
  import opened Common
  import opened Lists

  type T = nat      // the address of a thread
  type W = nat      // the address of a wait queue

  datatype State = Suspended | Ready | Running | Blocked | Sleeping | Death

  datatype Thread = Thread(state: State, priority: nat, pinned: int, curr: int, idle: bool, quantum: int,
                           blocking: Option<W>, ret: int) {
    // The thread belongs in a run queue.
    predicate Queued() {
      state == Ready && !idle
    }
  }

  datatype Wait = Wait(list: seq<T>, count: int)

  type Table = map<T, Thread>

  // ---------- run queues ----------

  ghost predicate QueueOk(th: Table, q: seq<T>, p: nat) {
    Distinct(q) && forall t :: t in q ==> t in th && th[t].Queued() && th[t].priority == p
  }

  // Bit p is set exactly if queue p holds a thread, and a thread is in the
  // queue of its priority exactly if it is ready and not idle.
  ghost predicate RunOk(th: Table, runq: seq<seq<T>>, bits: seq<bool>) {
    && |runq| == |bits|
    && (forall t :: t in th ==> th[t].priority < |runq|)
    && (forall p :: 0 <= p < |runq| ==> (bits[p] <==> runq[p] != []))
    && (forall p :: 0 <= p < |runq| ==> QueueOk(th, runq[p], p))
    && (forall t :: t in th && th[t].Queued() ==> t in runq[th[t].priority])
  }

  function Inserted(q: seq<T>, t: T, head: bool): seq<T> {
    if head then [t] + q else q + [t]
  }

  lemma InsertedMeaning(q: seq<T>, t: T, head: bool)
    requires Distinct(q) && t !in q
    ensures Distinct(Inserted(q, t, head)) && forall u :: u in Inserted(q, t, head) <==> u in q || u == t
  {
  }

  lemma EnqueueOk(th: Table, runq: seq<seq<T>>, bits: seq<bool>, t: T, v: Thread, head: bool)
    requires RunOk(th, runq, bits) && (t in th ==> !th[t].Queued()) && v.Queued() && v.priority < |runq|
    ensures RunOk(th[t := v], runq[v.priority := Inserted(runq[v.priority], t, head)], bits[v.priority := true])
  {
    var th', p := th[t := v], v.priority;
    var runq' := runq[p := Inserted(runq[p], t, head)];
    forall k | 0 <= k < |runq|
      ensures QueueOk(th', runq'[k], k) && t !in runq[k]
    {
      assert QueueOk(th, runq[k], k);
      InsertedMeaning(runq[k], t, head);
    }
    InsertedMeaning(runq[p], t, head);
    InsertedSome(runq[p], t, head);
  }

  lemma InsertedSome(q: seq<T>, t: T, head: bool)
    ensures Inserted(q, t, head) != []
  {
  }

  lemma DequeueOk(th: Table, runq: seq<seq<T>>, bits: seq<bool>, t: T, v: Thread)
    requires RunOk(th, runq, bits) && t in th && th[t].Queued() && !v.Queued() && v.priority < |runq|
    ensures var p := th[t].priority;
      RunOk(th[t := v], runq[p := Without(runq[p], t)], bits[p := bits[p] && Without(runq[p], t) != []])
  {
    var th', p := th[t := v], th[t].priority;
    var runq' := runq[p := Without(runq[p], t)];
    forall k | 0 <= k < |runq|
      ensures QueueOk(th', runq'[k], k)
    {
      assert QueueOk(th, runq[k], k);
      WithoutMeaning(runq[k], t);
    }
    assert QueueOk(th, runq[p], p);
    WithoutMeaning(runq[p], t);
  }

  // A thread changes that is in no run queue before and after, or that stays
  // in its run queue.
  lemma RunOther(th: Table, runq: seq<seq<T>>, bits: seq<bool>, t: T, v: Thread)
    requires RunOk(th, runq, bits) && v.priority < |runq|
    requires if t in th && th[t].Queued() then v.Queued() && v.priority == th[t].priority else !v.Queued()
    ensures RunOk(th[t := v], runq, bits)
  {
    forall k | 0 <= k < |runq|
      ensures QueueOk(th[t := v], runq[k], k)
    {
      assert QueueOk(th, runq[k], k);
    }
  }

  // ---------- wait queues ----------

  ghost predicate ListOk(th: Table, w: W, q: Wait) {
    Distinct(q.list) && q.count == |q.list| && forall t :: t in q.list ==> t in th && th[t].blocking == Some(w)
  }

  // A thread is in the list of a wait queue exactly if it is blocked on it, and
  // the count of the queue is the length of its list.
  ghost predicate WaitOk(th: Table, waits: map<W, Wait>) {
    && (forall w :: w in waits ==> ListOk(th, w, waits[w]))
    && (forall t :: t in th ==> (th[t].state == Blocked <==> th[t].blocking.Some?))
    && (forall t :: t in th && th[t].blocking.Some? ==>
          th[t].blocking.value in waits && t in waits[th[t].blocking.value].list)
  }

  function Joined(q: Wait, t: T): Wait {
    Wait(q.list + [t], q.count + 1)
  }

  function Left(q: Wait, t: T): Wait {
    Wait(Without(q.list, t), q.count - 1)
  }

  lemma BlockOk(th: Table, waits: map<W, Wait>, t: T, v: Thread, w: W)
    requires WaitOk(th, waits) && t in th && th[t].blocking == None && w in waits
    requires v.state == Blocked && v.blocking == Some(w)
    ensures WaitOk(th[t := v], waits[w := Joined(waits[w], t)])
  {
    forall u | u in waits
      ensures ListOk(th[t := v], u, waits[w := Joined(waits[w], t)][u])
    {
      assert ListOk(th, u, waits[u]) && t !in waits[u].list;
    }
  }

  lemma UnblockOk(th: Table, waits: map<W, Wait>, t: T, v: Thread)
    requires WaitOk(th, waits) && t in th && th[t].blocking.Some? && th[t].blocking.value in waits
    requires v.state != Blocked && v.blocking == None
    ensures var w := th[t].blocking.value;
      WaitOk(th[t := v], waits[w := Left(waits[w], t)])
  {
    var w := th[t].blocking.value;
    forall u | u in waits
      ensures ListOk(th[t := v], u, waits[w := Left(waits[w], t)][u])
    {
      assert ListOk(th, u, waits[u]);
      WithoutMeaning(waits[u].list, t);
    }
    assert ListOk(th, w, waits[w]);
    WithoutMeaning(waits[w].list, t);
  }

  lemma WaitOther(th: Table, waits: map<W, Wait>, t: T, v: Thread)
    requires WaitOk(th, waits)
    requires if t in th then v.blocking == th[t].blocking && (v.state == Blocked <==> th[t].state == Blocked)
             else v.blocking == None && v.state != Blocked
    ensures WaitOk(th[t := v], waits)
  {
    forall u | u in waits
      ensures ListOk(th[t := v], u, waits[u])
    {
      assert ListOk(th, u, waits[u]);
    }
  }

  // ---------- processors ----------

  ghost predicate CpuAt(th: Table, current: seq<T>, mid: Option<nat>, c: nat)
    requires c < |current|
  {
    current[c] in th && th[current[c]].curr == c && (th[current[c]].state == Running <==> mid != Some(c))
  }

  ghost predicate PlaceOk(th: Table, current: seq<T>, idleOf: seq<T>, t: T)
    requires t in th
  {
    && (th[t].curr == -1 || (0 <= th[t].curr < |current| && current[th[t].curr] == t))
    && (th[t].state == Running ==> th[t].curr >= 0)
    && -1 <= th[t].pinned < |idleOf|
    && (th[t].idle ==> th[t].pinned >= 0 && idleOf[th[t].pinned] == t && (th[t].state == Running || th[t].state == Ready))
    && (th[t].idle && th[t].curr >= 0 ==> th[t].curr == th[t].pinned)
  }

  // Each processor runs one thread, and no thread runs on two. Only the
  // processor mid is between two threads.
  ghost predicate CpuOk(th: Table, current: seq<T>, idleOf: seq<T>, mid: Option<nat>) {
    && |current| == |idleOf|
    && (forall c :: 0 <= c < |current| ==> CpuAt(th, current, mid, c))
    && (forall t :: t in th ==> PlaceOk(th, current, idleOf, t))
    && (forall c :: 0 <= c < |idleOf| ==> idleOf[c] in th && th[idleOf[c]].idle && th[idleOf[c]].pinned == c)
  }

  lemma OneCpu(th: Table, current: seq<T>, idleOf: seq<T>, mid: Option<nat>, c: nat, d: nat)
    requires CpuOk(th, current, idleOf, mid) && c < |current| && d < |current| && current[c] == current[d]
    ensures c == d
  {
    assert CpuAt(th, current, mid, c) && CpuAt(th, current, mid, d);
  }

  // A thread that no processor is at changes, and still runs nowhere.
  lemma CpuOther(th: Table, current: seq<T>, idleOf: seq<T>, mid: Option<nat>, t: T, v: Thread)
    requires CpuOk(th, current, idleOf, mid)
    requires v.curr == -1 && v.state != Running && (t in th ==> th[t].curr == -1 && v.idle == th[t].idle)
    requires if v.idle then t in th && v.pinned == th[t].pinned && v.state == Ready else -1 <= v.pinned < |idleOf|
    requires t !in th ==> !v.idle
    ensures CpuOk(th[t := v], current, idleOf, mid)
  {
    var th' := th[t := v];
    forall c | 0 <= c < |current|
      ensures CpuAt(th', current, mid, c)
    {
      assert CpuAt(th, current, mid, c);
    }
    forall u | u in th'
      ensures PlaceOk(th', current, idleOf, u)
    {
      if u in th {
        assert PlaceOk(th, current, idleOf, u);
      }
    }
  }

  // The thread of a processor leaves the running state.
  lemma CpuLeaves(th: Table, current: seq<T>, idleOf: seq<T>, c: nat, v: Thread)
    requires CpuOk(th, current, idleOf, None) && c < |current| && current[c] in th
    requires v.state != Running && v.curr == c && v.idle == th[current[c]].idle && v.pinned == th[current[c]].pinned
    requires v.idle ==> v.state == Ready
    ensures CpuOk(th[current[c] := v], current, idleOf, Some(c))
  {
    var t := current[c];
    var th' := th[t := v];
    assert CpuAt(th, current, None, c);
    forall d | 0 <= d < |current|
      ensures CpuAt(th', current, Some(c), d)
    {
      assert CpuAt(th, current, None, d);
    }
    forall u | u in th'
      ensures PlaceOk(th', current, idleOf, u)
    {
      assert PlaceOk(th, current, idleOf, u);
    }
  }

  // A processor goes over to thread t.
  lemma CpuSwitches(th: Table, current: seq<T>, idleOf: seq<T>, c: nat, t: T, th': Table)
    requires CpuOk(th, current, idleOf, Some(c)) && c < |current| && t in th && current[c] in th
    requires t == current[c] || th[t].curr == -1
    requires th[t].idle ==> idleOf[c] == t
    requires th'.Keys == th.Keys
    requires forall u :: u in th && u != t && u != current[c] ==> th'[u] == th[u]
    requires th'[t].state == Running && th'[t].curr == c && th'[t].idle == th[t].idle && th'[t].pinned == th[t].pinned
    requires t != current[c] ==> th'[current[c]] == th[current[c]].(curr := -1)
    ensures CpuOk(th', current[c := t], idleOf, None)
  {
    var current' := current[c := t];
    assert CpuAt(th, current, Some(c), c);
    forall d | 0 <= d < |current|
      ensures CpuAt(th', current', None, d)
    {
      assert CpuAt(th, current, Some(c), d);
    }
    forall u | u in th'
      ensures PlaceOk(th', current', idleOf, u)
    {
      assert PlaceOk(th, current, idleOf, u);
    }
  }
}
