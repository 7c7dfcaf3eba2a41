// Sorted queues of timers with 64-bit times that wrap around.
module TimerQueue {
  import opened Common
  import opened Lists

  const HALF: nat := 0x8000_0000_0000_0000

  type Id = nat    // the address of a timer

  // The difference of two words, read as a signed word.
  function Delta(a: nat, b: nat): int {
    var d := (a - b) % WORD;
    if d < HALF then d else d - WORD
  }

  predicate Gt(a: nat, b: nat) {
    Delta(a, b) > 0
  }

  predicate Lt(a: nat, b: nat) {
    Delta(a, b) < 0
  }

  // The difference of two words is that of the times, modulo the range.
  lemma DifferenceModulo(a: nat, b: nat)
    ensures (a % WORD - b % WORD) % WORD == (a - b) % WORD
  {
    assert a == a / WORD * WORD + a % WORD;
    assert b == b / WORD * WORD + b % WORD;
  }

  // Words of times that are less than half the range apart compare like the
  // times, wherever the clock wraps.
  lemma WrappedOrder(a: nat, b: nat)
    requires a - b < HALF && b - a < HALF
    ensures Delta(a % WORD, b % WORD) == a - b
  {
    DifferenceModulo(a, b);
  }

  // Times exactly half the range apart do not.
  lemma HalfRangeApart(a: nat)
    ensures Lt((a + HALF) % WORD, a % WORD) && Lt(a % WORD, (a + HALF) % WORD)
  {
  }

  // The times of timers: the word that each one holds, and the time it means.
  datatype Times = Times(sched: map<Id, nat>, due: map<Id, nat>, base: nat) {
    // All times lie in a window of half the range.
    ghost predicate Holds(t: Id) {
      && t in sched && t in due && sched[t] == due[t] % WORD
      && base <= due[t] < base + HALF
    }

    ghost predicate InWindow(time: nat) {
      base <= time < base + HALF
    }
  }

  ghost predicate AllHold(m: Times, q: seq<Id>) {
    forall i :: 0 <= i < |q| ==> m.Holds(q[i])
  }

  ghost predicate Sorted(m: Times, q: seq<Id>)
    requires AllHold(m, q)
  {
    forall i, j :: 0 <= i < j < |q| ==> m.due[q[i]] <= m.due[q[j]]
  }

  ghost predicate QueueOk(m: Times, q: seq<Id>) {
    && AllHold(m, q) && Sorted(m, q)
    && Distinct(q)
  }

  // t goes behind every timer of an earlier or the same time.
  ghost predicate InsertedAt(m: Times, q: seq<Id>, t: Id, q': seq<Id>, k: nat)
    requires AllHold(m, q) && m.Holds(t)
  {
    && k <= |q| && q' == q[..k] + [t] + q[k..]
    && (forall i :: 0 <= i < k ==> m.due[q[i]] <= m.due[t])
    && (forall i :: k <= i < |q| ==> m.due[q[i]] > m.due[t])
  }

  // insert_timer_in_queue
  method Insert(sched: map<Id, nat>, ghost m: Times, q: seq<Id>, t: Id) returns (q': seq<Id>, ghost k: nat)
    requires sched == m.sched && QueueOk(m, q) && m.Holds(t) && t !in q
    ensures InsertedAt(m, q, t, q', k) && QueueOk(m, q')
    ensures k <= |q| && q' == q[..k] + [t] + q[k..]
    ensures forall i :: 0 <= i < k ==> m.due[q[i]] <= m.due[t]
    ensures forall i :: k <= i < |q| ==> m.due[q[i]] > m.due[t]
  {
    var i := 0;
    while i < |q|
      invariant 0 <= i <= |q|
      invariant forall j :: 0 <= j < i ==> m.due[q[j]] <= m.due[t]
    {
      assert m.Holds(q[i]);
      WrappedOrder(m.due[q[i]], m.due[t]);
      if Gt(sched[q[i]], sched[t]) {
        q' := q[..i] + [t] + q[i..];
        k := i;
        InsertedOk(m, q, t, q', k);
        return;
      }
      i := i + 1;
    }
    q' := q + [t];
    k := |q|;
    assert q' == q[..k] + [t] + q[k..];
    InsertedOk(m, q, t, q', k);
  }

  lemma InsertedOk(m: Times, q: seq<Id>, t: Id, q': seq<Id>, k: nat)
    requires QueueOk(m, q) && m.Holds(t) && t !in q && k <= |q| && q' == q[..k] + [t] + q[k..]
    requires forall i :: 0 <= i < k ==> m.due[q[i]] <= m.due[t]
    requires k < |q| ==> m.due[q[k]] > m.due[t]
    ensures InsertedAt(m, q, t, q', k) && QueueOk(m, q')
  {
    forall i | k <= i < |q|
      ensures m.due[q[i]] > m.due[t]
    {
      if i > k {
        assert m.due[q[k]] <= m.due[q[i]];
      }
    }
  }

  lemma {:induction false} TailOk(m: Times, q: seq<Id>)
    requires QueueOk(m, q) && q != []
    ensures QueueOk(m, q[1..]) && q[0] !in q[1..] && forall u :: u in q[1..] ==> m.due[q[0]] <= m.due[u]
  {
  }

  lemma {:induction false} ConsOk(m: Times, t: Id, q: seq<Id>)
    requires QueueOk(m, q) && m.Holds(t) && t !in q && forall u :: u in q ==> u in m.due && m.due[t] <= m.due[u]
    ensures QueueOk(m, [t] + q)
  {
  }

  lemma {:induction false} RemovedMeaning(m: Times, q: seq<Id>, t: Id)
    requires QueueOk(m, q)
    ensures QueueOk(m, Without(q, t)) && t !in Without(q, t)
    ensures forall u :: u in Without(q, t) <==> u in q && u != t
  {
    WithoutMeaning(q, t);
    if q != [] {
      TailOk(m, q);
      if q[0] != t {
        RemovedMeaning(m, q[1..], t);
        assert m.Holds(q[0]);
        hide QueueOk;
        ConsOk(m, q[0], Without(q[1..], t));
      }
    }
  }

  // ---------- the timers that are due ----------

  // The timers of a queue whose time has come.
  function DuePart(m: Times, q: seq<Id>, now: nat): seq<Id> {
    if q == [] then []
    else if q[0] in m.due && m.due[q[0]] <= now then [q[0]] + DuePart(m, q[1..], now)
    else []
  }

  // What is left of a sequence without the timers in a set.
  function Except(q: seq<Id>, s: set<Id>): seq<Id> {
    if q == [] then []
    else if q[0] in s then Except(q[1..], s)
    else [q[0]] + Except(q[1..], s)
  }

  lemma {:induction false} DuePrefix(m: Times, q: seq<Id>, now: nat)
    requires QueueOk(m, q)
    ensures DuePart(m, q, now) <= q
    ensures forall i :: |DuePart(m, q, now)| <= i < |q| ==> m.due[q[i]] > now
    ensures forall t :: t in DuePart(m, q, now) <==> t in q && m.due[t] <= now
  {
    if q != [] {
      if m.due[q[0]] <= now {
        DuePrefix(m, q[1..], now);
      } else {
        forall i | 0 <= i < |q|
          ensures m.due[q[i]] > now
        {
        }
      }
    }
  }

  // A timer of the future leaves the due part alone.
  lemma {:induction false} DueInsert(m: Times, q: seq<Id>, t: Id, q': seq<Id>, k: nat, now: nat)
    requires QueueOk(m, q) && m.Holds(t) && InsertedAt(m, q, t, q', k) && m.due[t] > now
    ensures DuePart(m, q', now) == DuePart(m, q, now)
  {
    if k == 0 {
      assert q'[0] == t;
      if q != [] {
        assert m.due[q[0]] > m.due[t];
      }
    } else {
      assert q'[0] == q[0] && q'[1..] == q[1..][..k - 1] + [t] + q[1..][k - 1..];
      DueInsert(m, q[1..], t, q'[1..], k - 1, now);
    }
  }

  lemma {:induction false} DueRemove(m: Times, q: seq<Id>, t: Id, now: nat)
    requires QueueOk(m, q)
    ensures DuePart(m, Without(q, t), now) == Except(DuePart(m, q, now), {t})
  {
    if q != [] {
      if q[0] == t {
        DuePrefix(m, q[1..], now);
        NothingExcepted(DuePart(m, q[1..], now), t);
        if m.due[q[0]] > now && q[1..] != [] {
          assert m.due[q[1]] >= m.due[q[0]];
        }
      } else {
        DueRemove(m, q[1..], t, now);
      }
    }
  }

  lemma {:induction false} NothingExcepted(q: seq<Id>, t: Id)
    ensures t !in q ==> Except(q, {t}) == q
  {
    if q != [] {
      NothingExcepted(q[1..], t);
    }
  }

  lemma {:induction false} ExceptTwice(q: seq<Id>, s: set<Id>, t: Id)
    ensures Except(Except(q, s), {t}) == Except(q, s + {t})
  {
    if q != [] {
      ExceptTwice(q[1..], s, t);
    }
  }

  // The due part does not depend on the times of other timers.
  lemma {:induction false} DueSame(m: Times, m': Times, q: seq<Id>, now: nat)
    requires forall t :: t in q ==> (t in m.due <==> t in m'.due) && (t in m.due ==> m.due[t] == m'.due[t])
    ensures DuePart(m', q, now) == DuePart(m, q, now)
  {
    if q != [] {
      DueSame(m, m', q[1..], now);
    }
  }
}
