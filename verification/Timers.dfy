// The timers of all CPUs: setting, cancelling and the timer interrupt.
module Timers {
  import opened Common
  import opened Lists
  import opened TimerQueue

  ghost predicate QueuesOk(m: Times, queues: seq<seq<Id>>) {
    && (forall c :: 0 <= c < |queues| ==> QueueOk(m, queues[c]))
    && (forall c, d, t :: 0 <= c < |queues| && 0 <= d < |queues| && t in queues[c] && t in queues[d] ==> c == d)
  }

  // The hardware interrupts no later than the head of the queue, or at once.
  ghost predicate AlarmOk(m: Times, q: seq<Id>, alarm: Option<nat>, clock: nat) {
    q != [] ==> alarm.Some? && q[0] in m.due && (alarm.value <= m.due[q[0]] || alarm.value <= clock)
  }

  // All CPUs but the one in a timer interrupt have their alarm set.
  ghost predicate AlarmsOk(m: Times, queues: seq<seq<Id>>, alarms: seq<Option<nat>>, clock: nat, ticking: Option<nat>) {
    |alarms| == |queues| && forall c :: 0 <= c < |queues| && ticking != Some(c) ==> AlarmOk(m, queues[c], alarms[c], clock)
  }

  // Every periodic timer is queued, but for one that is about to be.
  ghost predicate NoneLost(period: map<Id, nat>, queues: seq<seq<Id>>, firing: Option<Id>) {
    forall t :: t in period && period[t] > 0 && firing != Some(t) ==> Queued(queues, t)
  }

  predicate Queued(queues: seq<seq<Id>>, t: Id) {
    exists c :: 0 <= c < |queues| && t in queues[c]
  }

  // A timer that is in no queue may be given a new time.
  function Retimed(m: Times, t: Id, due: nat): Times {
    Times(m.sched[t := due % WORD], m.due[t := due], m.base)
  }

  lemma RetimedOk(m: Times, queues: seq<seq<Id>>, t: Id, due: nat, now: nat)
    requires QueuesOk(m, queues) && !Queued(queues, t) && m.InWindow(due)
    ensures QueuesOk(Retimed(m, t, due), queues) && Retimed(m, t, due).Holds(t)
    ensures forall c :: 0 <= c < |queues| ==> QueueOk(Retimed(m, t, due), queues[c])
    ensures forall c :: 0 <= c < |queues| ==> DuePart(Retimed(m, t, due), queues[c], now) == DuePart(m, queues[c], now)
  {
    forall c | 0 <= c < |queues|
      ensures QueueOk(Retimed(m, t, due), queues[c]) && DuePart(Retimed(m, t, due), queues[c], now) == DuePart(m, queues[c], now)
    {
      RetimedQueue(m, queues[c], t, due);
      DueSame(m, Retimed(m, t, due), queues[c], now);
    }
  }

  lemma RetimedQueue(m: Times, q: seq<Id>, t: Id, due: nat)
    requires QueueOk(m, q) && t !in q
    ensures QueueOk(Retimed(m, t, due), q)
  {
    var n := Retimed(m, t, due);
    forall i | 0 <= i < |q|
      ensures n.Holds(q[i]) && n.due[q[i]] == m.due[q[i]]
    {
      assert m.Holds(q[i]) && q[i] in q;
    }
  }

  // ---------- what becomes of each timer ----------

  datatype Timing = Timing(period: map<Id, nat>, queues: seq<seq<Id>>, due: map<Id, nat>)

  // The timer has the period, the place and the time that it had.
  ghost predicate Untouched(a: Timing, b: Timing, t: Id) {
    && |b.queues| == |a.queues| && (forall c :: 0 <= c < |a.queues| ==> (t in b.queues[c] <==> t in a.queues[c]))
    && (t in b.period <==> t in a.period) && (t in a.period ==> b.period[t] == a.period[t])
    && (t in b.due <==> t in a.due) && (t in a.due ==> b.due[t] == a.due[t])
  }

  // A timer that has fired on a CPU at now: if it is periodic it is in the queue
  // again, for one period later, and otherwise in none.
  ghost predicate Requeued(cpu: nat, now: nat, a: Timing, b: Timing, t: Id) {
    && |b.queues| == |a.queues|
    && (t in b.period <==> t in a.period) && (t in a.period ==> b.period[t] == a.period[t])
    && (if t in a.period && a.period[t] > 0
        then cpu < |b.queues| && t in b.queues[cpu] && t in b.due && b.due[t] == now + a.period[t]
        else !Queued(b.queues, t))
  }

  // What has become of all timers but those that somebody has set or cancelled
  // in the meantime.
  ghost predicate Ticked(cpu: nat, now: nat, fired: set<Id>, touched: set<Id>, a: Timing, b: Timing) {
    forall t :: t !in touched ==> if t in fired then Requeued(cpu, now, a, b, t) else Untouched(a, b, t)
  }

  lemma TickedMeaning(cpu: nat, now: nat, fired: seq<Id>, touched: set<Id>, a: Timing, b: Timing)
    requires Ticked(cpu, now, Members(fired), touched, a, b)
    ensures forall t :: t in fired && t !in touched ==>
      if t in a.period && a.period[t] > 0 then cpu < |b.queues| && t in b.queues[cpu] && t in b.due && b.due[t] == now + a.period[t]
      else !Queued(b.queues, t)
    ensures forall t :: t !in fired && t !in touched ==> Untouched(a, b, t)
  {
    forall t | t in fired && t !in touched
      ensures Requeued(cpu, now, a, b, t)
    {
      assert t in Members(fired);
    }
    forall t | t !in fired && t !in touched
      ensures Untouched(a, b, t)
    {
      assert t !in Members(fired);
    }
  }

  lemma NoneTicked(cpu: nat, now: nat, a: Timing)
    ensures Ticked(cpu, now, {}, {}, a, a)
  {
  }

  // One more timer fires, which is due.
  lemma TickedNext(cpu: nat, now: nat, fired: set<Id>, touched: set<Id>, t: Id, more: set<Id>, a: Timing, b: Timing, c: Timing)
    requires Ticked(cpu, now, fired, touched, a, b) && Ticked(cpu, now, {t}, more, b, c)
    requires Queued(b.queues, t) && t in b.due && b.due[t] <= now
    ensures Ticked(cpu, now, fired + {t}, touched + more, a, c)
  {
    NotAgain(cpu, now, fired, touched, t, a, b);
    forall u | u !in touched + more
      ensures if u in fired + {t} then Requeued(cpu, now, a, c, u) else Untouched(a, c, u)
    {
      if u in fired {
        assert Requeued(cpu, now, a, b, u) && Untouched(b, c, u);
      } else {
        assert Untouched(a, b, u);
      }
    }
  }

  // A timer that has fired is not due again.
  lemma NotAgain(cpu: nat, now: nat, fired: set<Id>, touched: set<Id>, t: Id, a: Timing, b: Timing)
    requires Ticked(cpu, now, fired, touched, a, b) && Queued(b.queues, t) && t in b.due && b.due[t] <= now
    ensures t in fired ==> t in touched
  {
  }

  lemma FiredAgain(cpu: nat, now: nat, t: Id, touched: set<Id>, s0: Timing, s1: Timing, s2: Timing, s3: Timing)
    requires s1.period == s0.period && forall u :: u != t ==> Untouched(s0, s1, u)
    requires forall u :: u !in touched ==> Untouched(s1, s2, u)
    requires |s1.queues| == |s0.queues| && |s2.queues| == |s1.queues| == |s3.queues| && s3.period == s2.period
    requires t in s2.period && s2.period[t] > 0
    requires cpu < |s3.queues| && t in s3.queues[cpu] && t in s3.due && s3.due[t] == now + s3.period[t]
    requires forall u :: u != t ==> Untouched(s2, s3, u)
    ensures Ticked(cpu, now, {t}, touched, s0, s3)
  {
    forall u | u !in touched
      ensures if u == t then Requeued(cpu, now, s0, s3, u) else Untouched(s0, s3, u)
    {
      assert Untouched(s1, s2, u);
      if u != t {
        UntouchedTrans(s0, s1, s2, u);
        UntouchedTrans(s0, s2, s3, u);
      }
    }
  }

  lemma FiredOnce(cpu: nat, now: nat, t: Id, touched: set<Id>, s0: Timing, s1: Timing, s2: Timing)
    requires s1.period == s0.period && !Queued(s1.queues, t) && forall u :: u != t ==> Untouched(s0, s1, u)
    requires forall u :: u !in touched ==> Untouched(s1, s2, u)
    requires |s1.queues| == |s0.queues| && |s2.queues| == |s1.queues|
    requires !(t in s1.period && s1.period[t] > 0) || Queued(s2.queues, t) || (t in s2.period && s2.period[t] == 0) || t !in s2.period
    ensures Ticked(cpu, now, {t}, touched, s0, s2)
  {
    forall u | u !in touched
      ensures if u == t then Requeued(cpu, now, s0, s2, u) else Untouched(s0, s2, u)
    {
      assert Untouched(s1, s2, u);
      if u != t {
        UntouchedTrans(s0, s1, s2, u);
      }
    }
  }

  // The timer has been put behind those of an earlier or the same time, and
  // before the others.
  ghost predicate PlacedAt(due: map<Id, nat>, queues: seq<seq<Id>>, queues': seq<seq<Id>>, cpu: nat, t: Id, k: nat) {
    && cpu < |queues| && k <= |queues[cpu]| && queues' == queues[cpu := queues[cpu][..k] + [t] + queues[cpu][k..]] && t in due
    && (forall i :: 0 <= i < k ==> queues[cpu][i] in due && due[queues[cpu][i]] <= due[t])
    && (forall i :: k <= i < |queues[cpu]| ==> queues[cpu][i] in due && due[queues[cpu][i]] > due[t])
  }

  lemma ArmedPlace(m: Times, queues: seq<seq<Id>>, queues': seq<seq<Id>>, cpu: nat, t: Id, k: nat)
    requires Armed(m, queues, queues', cpu, t, k)
    ensures cpu < |queues| == |queues'| && t in m.due && t in m.sched && m.sched[t] == m.due[t] % WORD
    ensures PlacedAt(m.due, queues, queues', cpu, t, k)
  {
    forall i | 0 <= i < |queues[cpu]|
      ensures queues[cpu][i] in m.due
    {
      assert m.Holds(queues[cpu][i]);
    }
  }

  lemma ArmedSizes(m: Times, queues: seq<seq<Id>>, queues': seq<seq<Id>>, cpu: nat, t: Id, k: nat)
    requires Armed(m, queues, queues', cpu, t, k)
    ensures cpu < |queues| == |queues'|
  {
  }

  // The timers that some actions set or cancel.
  ghost function Touched(actions: seq<Action>): set<Id> {
    set a | a in actions :: a.t
  }

  ghost function AllTouched(effects: nat -> seq<Action>, n: nat): set<Id> {
    if n == 0 then {} else AllTouched(effects, n - 1) + Touched(effects(n - 1))
  }

  lemma InTouched(actions: seq<Action>, k: nat)
    requires k < |actions|
    ensures actions[k].t in Touched(actions)
  {
  }

  lemma SameUntouched(a: Timing)
    ensures forall t :: Untouched(a, a, t)
  {
  }

  lemma UntouchedTrans(a: Timing, b: Timing, c: Timing, t: Id)
    requires Untouched(a, b, t) && Untouched(b, c, t)
    ensures Untouched(a, c, t)
  {
  }

  lemma ArmedOther(m: Times, queues: seq<seq<Id>>, queues': seq<seq<Id>>, cpu: nat, t: Id, k: nat, u: Id)
    requires Armed(m, queues, queues', cpu, t, k) && u != t
    ensures |queues'| == |queues| && forall c :: 0 <= c < |queues| ==> (u in queues'[c] <==> u in queues[c])
  {
    assert queues[cpu] == queues[cpu][..k] + queues[cpu][k..];
  }

  lemma ArmedTouches(m: Times, period: map<Id, nat>, queues: seq<seq<Id>>, m': Times, period': map<Id, nat>, queues': seq<seq<Id>>, cpu: nat, t: Id, k: nat)
    requires Armed(m', queues, queues', cpu, t, k) && m'.due == m.due[t := m'.due[t]]
    requires (t in period' && period' == period[t := period'[t]]) || period' == period
    ensures forall u :: u != t ==> Untouched(Timing(period, queues, m.due), Timing(period', queues', m'.due), u)
    ensures t in queues'[cpu]
  {
    forall u | u != t
      ensures Untouched(Timing(period, queues, m.due), Timing(period', queues', m'.due), u)
    {
      ArmedOther(m', queues, queues', cpu, t, k, u);
    }
  }

  lemma {:induction false} WithoutOthers(q: seq<Id>, t: Id, u: Id)
    requires u != t
    ensures u in Without(q, t) <==> u in q
  {
    if q != [] && q[0] != t {
      WithoutOthers(q[1..], t, u);
    }
  }

  lemma DisarmedPlace(queues: seq<seq<Id>>, queues': seq<seq<Id>>, t: Id)
    requires Disarmed(queues, queues', t)
    ensures |queues'| == |queues| && forall c :: 0 <= c < |queues| ==>
      if t in queues[c] then TakenOut(queues[c], queues'[c], t) && t !in queues'[c] else queues'[c] == queues[c]
  {
    hide TakenOut;
    forall c | 0 <= c < |queues|
      ensures if t in queues[c] then TakenOut(queues[c], queues'[c], t) && t !in queues'[c] else queues'[c] == queues[c]
    {
      WithoutSplits(queues[c], t);
    }
  }

  lemma DisarmedTouches(period: map<Id, nat>, queues: seq<seq<Id>>, period': map<Id, nat>, queues': seq<seq<Id>>, due: map<Id, nat>, t: Id)
    requires Disarmed(queues, queues', t)
    requires (t in period' && period' == period[t := period'[t]]) || period' == period
    ensures forall u :: u != t ==> Untouched(Timing(period, queues, due), Timing(period', queues', due), u)
  {
    forall u | u != t
      ensures Untouched(Timing(period, queues, due), Timing(period', queues', due), u)
    {
      forall c | 0 <= c < |queues|
        ensures u in queues'[c] <==> u in queues[c]
      {
        WithoutOthers(queues[c], t, u);
      }
    }
  }

  lemma PopTouches(m: Times, period: map<Id, nat>, queues: seq<seq<Id>>, cpu: nat)
    requires QueuesOk(m, queues) && cpu < |queues| && queues[cpu] != []
    ensures var t, queues' := queues[cpu][0], queues[cpu := queues[cpu][1..]];
      && !Queued(queues', t)
      && forall u :: u != t ==> Untouched(Timing(period, queues, m.due), Timing(period, queues', m.due), u)
  {
    var q := queues[cpu];
    assert QueueOk(m, q) && q == [q[0]] + q[1..];
  }

  // What another thread, or a callback, does to timers. Time may pass before.
  datatype Action =
    | Set(elapsed: nat, cpu: nat, t: Id, delay: nat, period: nat)
    | Cancel(elapsed: nat, cpu: nat, t: Id)

  class Timers {
    var queues: seq<seq<Id>>            // the queue of each CPU
    var sched: map<Id, nat>             // scheduled_time
    var period: map<Id, nat>            // periodic_time
    var cpuOf: map<Id, nat>
    var running: set<Id>
    ghost var due: map<Id, nat>         // the times that the words of sched mean
    var base: nat                       // where the window of live times begins
    var clock: nat                      // the time, of which words show the lower bits
    ghost var alarms: seq<Option<nat>>  // what the hardware is set to

    ghost function Now(): Times
      reads this
    {
      Times(sched, due, base)
    }

    ghost function State(): Timing
      reads this
    {
      Timing(period, queues, due)
    }

    ghost predicate Valid(ticking: Option<nat>)
      reads this
    {
      && QueuesOk(Now(), queues) && Now().InWindow(clock)
      && AlarmsOk(Now(), queues, alarms, clock, ticking)
      && (forall t :: t in period ==> t in sched)
    }

    constructor (cpus: nat, clock: nat)
      ensures Valid(None) && queues == seq(cpus, _ => []) && NoneLost(period, queues, None)
    {
      queues, alarms := seq(cpus, _ => []), seq(cpus, _ => None);
      sched, period, cpuOf, running, due := map[], map[], map[], {}, map[];
      this.clock, base := clock, clock;
    }

    // Time passes.
    method Advance(elapsed: nat)
      requires Valid(None) && Now().InWindow(clock + elapsed)
      modifies this`clock
      ensures Valid(None) && clock == old(clock) + elapsed
    {
      LaterAlarms(Now(), queues, alarms, clock, clock + elapsed, None);
      clock := clock + elapsed;
    }

    // The window of live times moves on with the clock and the first timers.
    method MoveWindow(least: nat)
      requires Valid(None) && base <= least <= clock
      requires forall c :: 0 <= c < |queues| && queues[c] != [] ==> queues[c][0] in due && least <= due[queues[c][0]]
      modifies this`base
      ensures Valid(None) && base == least
    {
      WindowMoves(Now(), queues, alarms, clock, least);
      hide QueuesOk, AlarmsOk;
      base := least;
    }

    // timer_set, of a timer that is not queued, within the window of times.
    method TimerSet(cpu: nat, t: Id, delay: nat, per: nat, now: nat, ghost ticking: Option<nat>, ghost late: nat)
      returns (ghost k: nat)
      requires Valid(ticking) && cpu < |queues| && !Queued(queues, t)
      requires now == clock % WORD && 0 < delay && Now().InWindow(clock + delay) && late <= clock
      modifies this
      ensures Valid(ticking) && base == old(base) && clock == old(clock) && running == old(running)
      ensures Now() == Retimed(old(Now()), t, clock + delay)
      ensures period == old(period)[t := per] && cpuOf == old(cpuOf)[t := cpu]
      ensures Armed(Now(), old(queues), queues, cpu, t, k)
      ensures SameDue(old(Now()), old(queues), Now(), queues, late)
      ensures forall f :: NoneLost(old(period), old(queues), f) ==> NoneLost(period, queues, f)
      ensures forall u :: u != t ==> Untouched(old(State()), State(), u)
      ensures |queues| == |old(queues)| && t in due && due[t] == clock + delay && t in sched && sched[t] == (clock + delay) % WORD
      ensures PlacedAt(due, old(queues), queues, cpu, t, k)
      ensures |alarms| == |old(alarms)| == |queues| && alarms == if k == 0 then old(alarms)[cpu := Some(clock + delay)] else old(alarms)
    {
      hide Armed, SameDue, QueuesOk, AlarmsOk, Queued, NoneLost, Untouched, InsertedAt, Times.Holds, PlacedAt;
      var q, words;
      ghost var times, after;
      q, words, times, after, k := Arm(Now(), sched, queues, alarms, clock, clock, ticking, cpu, t, now, delay, late);
      ghost var m := Times(words, times, base);
      SetNoneLost(m, period, queues, q, cpu, t, k, per);
      ArmedPlace(m, queues, q, cpu, t, k);
      ArmedTouches(Now(), period, queues, m, period[t := per], q, cpu, t, k);
      queues, sched, due, alarms := q, words, times, after;
      period, cpuOf := period[t := per], cpuOf[t := cpu];
    }

    // timer_cancel_etc, called on a CPU once no callback of the timer has to be
    // waited for.
    method TimerCancel(cpu: nat, t: Id, ghost ticking: Option<nat>, ghost late: nat)
      requires Valid(ticking) && cpu < |queues|
      modifies this
      ensures Valid(ticking) && base == old(base) && clock == old(clock) && running == old(running)
      ensures sched == old(sched) && due == old(due) && cpuOf == old(cpuOf)
      ensures period == old(period)[t := 0] || (t !in old(sched) && period == old(period))
      ensures Disarmed(old(queues), queues, t)
      ensures |queues| == |old(queues)| && forall c :: 0 <= c < |queues| ==>
        DuePart(Now(), queues[c], late) == Except(DuePart(Now(), old(queues)[c], late), {t})
      ensures forall f :: NoneLost(old(period), old(queues), f) ==> NoneLost(period, queues, f)
      ensures forall u :: u != t ==> Untouched(old(State()), State(), u)
      ensures forall c :: 0 <= c < |queues| ==>
        if t in old(queues)[c] then TakenOut(old(queues)[c], queues[c], t) && t !in queues[c] else queues[c] == old(queues)[c]
      ensures |alarms| == |old(alarms)| == |queues| && forall c :: 0 <= c < |queues| && c != cpu ==> alarms[c] == old(alarms)[c]
      ensures HeadAlarm(old(queues)[cpu], queues[cpu], due, old(alarms)[cpu], alarms[cpu], clock)
    {
      hide Disarmed, QueuesOk, AlarmsOk, Queued, DuePart, Except, NoneLost, Untouched, HeadAlarm;
      ghost var period0, queues0 := period, queues;
      queues, alarms := Disarm(Now(), sched, queues, alarms, clock, clock % WORD, ticking, cpu, t, late);
      CancelNoneLost(period0, queues0, queues, t);
      DisarmedPlace(queues0, queues, t);
      if t in sched {
        period := period[t := 0];
      }
      DisarmedTouches(period0, queues0, period, queues, due, t);
    }

    // One action while the callback of a timer of a CPU runs. A callback that
    // would trip an assertion of the kernel, or leave the window, is passed over.
    method Perform(a: Action, cpu: nat, ghost now: nat, ghost left: seq<Id>, ghost gone: set<Id>) returns (ghost gone': set<Id>)
      requires Valid(Some(cpu)) && cpu < |queues| && now <= clock && PeriodsFit(period, base, now)
      requires DuePart(Now(), queues[cpu], now) == Except(left, gone)
      modifies this
      ensures Valid(Some(cpu)) && now <= clock && PeriodsFit(period, base, now)
      ensures base == old(base) && |queues| == |old(queues)| && running == old(running) && old(period).Keys <= period.Keys
      ensures DuePart(Now(), queues[cpu], now) == Except(left, gone')
      ensures gone <= gone' <= gone + (if a.Cancel? then {a.t} else {})
      ensures Stops(a, |queues|, running) ==> a.t in gone'
      ensures forall f :: NoneLost(old(period), old(queues), f) ==> NoneLost(period, queues, f)
      ensures forall u :: u != a.t ==> Untouched(old(State()), State(), u)
    {
      gone' := gone;
      ghost var s0 := State();
      SameUntouched(s0);
      hide QueuesOk, AlarmsOk, Armed, Disarmed, DuePart, Except, NoneLost, Untouched;
      if clock + a.elapsed < base + HALF {
        LaterAlarms(Now(), queues, alarms, clock, clock + a.elapsed, Some(cpu));
        clock := clock + a.elapsed;
      }
      assert State() == s0;
      match a {
        case Set(_, c, t, delay, per) =>
          if c < |queues| && !Queued(queues, t) && 0 < delay && (t in running ==> t in cpuOf && cpuOf[t] == c)
             && clock + delay < base + HALF && clock + per < base + HALF {
            ghost var k := TimerSet(c, t, delay, per, clock % WORD, Some(cpu), now);
          }
        case Cancel(_, c, t) =>
          if c < |queues| && (t in running ==> t in cpuOf && cpuOf[t] == c) {
            TimerCancel(c, t, Some(cpu), now);
            ExceptTwice(left, gone, t);
            gone' := gone + {t};
          }
      }
    }

    method PerformAll(actions: seq<Action>, cpu: nat, ghost now: nat, ghost left: seq<Id>, ghost gone: set<Id>) returns (ghost gone': set<Id>)
      requires Valid(Some(cpu)) && cpu < |queues| && now <= clock && PeriodsFit(period, base, now)
      requires DuePart(Now(), queues[cpu], now) == Except(left, gone)
      modifies this
      ensures Valid(Some(cpu)) && now <= clock && PeriodsFit(period, base, now)
      ensures base == old(base) && |queues| == |old(queues)| && running == old(running) && old(period).Keys <= period.Keys
      ensures DuePart(Now(), queues[cpu], now) == Except(left, gone')
      ensures gone <= gone' <= gone + Cancelled(actions)
      ensures AllStopped(actions, |queues|, running, gone')
      ensures forall f :: NoneLost(old(period), old(queues), f) ==> NoneLost(period, queues, f)
      ensures forall u :: u !in Touched(actions) ==> Untouched(old(State()), State(), u)
    {
      hide QueuesOk, AlarmsOk, DuePart, Except, NoneLost, Untouched, Touched;
      SameUntouched(State());
      gone' := gone;
      var k := 0;
      assert Cancelled(actions[..0]) == {};
      while k < |actions|
        invariant 0 <= k <= |actions|
        invariant Valid(Some(cpu)) && |queues| == |old(queues)| && now <= clock && PeriodsFit(period, base, now)
        invariant base == old(base) && running == old(running) && old(period).Keys <= period.Keys
        invariant DuePart(Now(), queues[cpu], now) == Except(left, gone')
        invariant gone <= gone' <= gone + Cancelled(actions[..k])
        invariant forall i :: 0 <= i < k && Stops(actions[i], |queues|, running) ==> actions[i].t in gone'
        invariant forall f :: NoneLost(old(period), old(queues), f) ==> NoneLost(period, queues, f)
        invariant forall u :: u !in Touched(actions) ==> Untouched(old(State()), State(), u)
      {
        CancelledSnoc(actions, k);
        InTouched(actions, k);
        ghost var s1 := State();
        gone' := Perform(actions[k], cpu, now, left, gone');
        forall u | u !in Touched(actions)
          ensures Untouched(old(State()), State(), u)
        {
          UntouchedTrans(old(State()), s1, State(), u);
        }
        k := k + 1;
      }
      assert actions[..|actions|] == actions;
    }

    // Fires the head of the queue, which is due, and queues it again if it is
    // periodic and nobody has queued or cancelled it in the meantime.
    method Fire(cpu: nat, now: nat, actions: seq<Action>, ghost left: seq<Id>, ghost gone: set<Id>)
      returns (t: Id, ghost j: nat, ghost gone': set<Id>)
      requires Valid(Some(cpu)) && cpu < |queues| && base <= now <= clock && PeriodsFit(period, base, now)
      requires queues[cpu] != [] && queues[cpu][0] in due && due[queues[cpu][0]] <= now
      requires DuePart(Now(), queues[cpu], now) == Except(left, gone)
      modifies this
      ensures Valid(Some(cpu)) && now <= clock && PeriodsFit(period, base, now)
      ensures base == old(base) && |queues| == |old(queues)| && running == old(running) - {t}
      ensures FirstLeft(left, gone, t, j)
      ensures DuePart(Now(), queues[cpu], now) == Except(left[j + 1..], gone')
      ensures gone <= gone' <= gone + Cancelled(actions)
      ensures AllStopped(actions, |queues|, old(running) + {t}, gone')
      ensures old(NoneLost(period, queues, None)) ==> NoneLost(period, queues, None)
      ensures t == old(queues)[cpu][0] && Ticked(cpu, now, {t}, Touched(actions), old(State()), State())
    {
      hide QueuesOk, AlarmsOk, DuePart, Except, FirstLeft, Queued, Armed, SameDue, NoneLost, AllStopped, Untouched, Ticked, Touched;
      ghost var s0 := State();
      PopTouches(Now(), period, queues, cpu);
      j := NextDue(left, gone, Now(), queues[cpu], now);
      PopOk(Now(), queues, alarms, clock, cpu);
      t := queues[cpu][0];
      PopNoneLost(period, queues, cpu);
      queues := queues[cpu := queues[cpu][1..]];
      running := running + {t};
      ghost var s1 := State();
      var periodic := t in period && period[t] > 0;
      gone' := PerformAll(actions, cpu, now, left[j + 1..], gone);
      running := running - {t};
      FiredNoneLost(period, queues, t);
      ghost var s2 := State();
      if periodic && !Queued(queues, t) && period[t] > 0 {
        ghost var m, after := Now(), queues;
        Rearm(cpu, t, now);
        SameDueAt(m, after, Now(), queues, now, cpu);
        FiredAgain(cpu, now, t, Touched(actions), s0, s1, s2, State());
      } else {
        FiredOnce(cpu, now, t, Touched(actions), s0, s1, s2);
      }
    }

    method Rearm(cpu: nat, t: Id, now: nat)
      requires Valid(Some(cpu)) && cpu < |queues| && base <= now <= clock && PeriodsFit(period, base, now)
      requires !Queued(queues, t) && t in period && period[t] > 0
      modifies this`queues, this`sched, this`due
      ensures Valid(Some(cpu)) && Now() == Retimed(old(Now()), t, now + period[t])
      ensures exists k :: Armed(Now(), old(queues), queues, cpu, t, k)
      ensures SameDue(old(Now()), old(queues), Now(), queues, now)
      ensures old(NoneLost(period, queues, Some(t))) ==> NoneLost(period, queues, None)
      ensures |queues| == |old(queues)| && t in queues[cpu] && t in due && due[t] == now + period[t]
      ensures forall u :: u != t ==> Untouched(old(State()), State(), u)
    {
      hide QueuesOk, AlarmsOk, Queued, Armed, SameDue, NoneLost, Untouched;
      ghost var after, k;
      ghost var queues0, m0 := queues, Now();
      queues, sched, due, after, k := Arm(Now(), sched, queues, alarms, clock, now, Some(cpu), cpu, t, now % WORD, period[t], now);
      OtherAlarms(Now(), queues, after, alarms, clock, cpu);
      RearmNoneLost(Now(), period, queues0, queues, cpu, t, k);
      ArmedTouches(m0, period, queues0, Now(), period, queues, cpu, t, k);
      ArmedSizes(Now(), queues0, queues, cpu, t, k);
    }

    // timer_tick: fires the timers of a CPU that are due at now. What happens
    // during each callback is given by effects.
    method Tick(cpu: nat, now: nat, effects: nat -> seq<Action>)
      returns (fired: seq<Id>, ghost at: seq<nat>, ghost gone: set<Id>)
      requires Valid(None) && cpu < |queues| && base <= now <= clock && PeriodsFit(period, base, now)
      modifies this
      ensures Valid(None) && |queues| == |old(queues)| && base == old(base) && running == old(running) - Members(fired)
      ensures InOrder(old(DuePart(Now(), queues[cpu], now)), fired, at)
      ensures forall t :: t in old(DuePart(Now(), queues[cpu], now)) ==> t in fired || t in gone
      ensures gone <= AllCancelled(effects, |fired|)
      ensures StoppedNotFired(effects, |queues|, old(running), fired)
      ensures queues[cpu] != [] ==>
        && queues[cpu][0] in due && due[queues[cpu][0]] > now
        && |alarms| == |queues| && alarms[cpu] == Some(due[queues[cpu][0]])
      ensures old(NoneLost(period, queues, None)) ==> NoneLost(period, queues, None)
      ensures forall t :: t in fired && t !in AllTouched(effects, |fired|) ==>
        if t in old(period) && old(period)[t] > 0 then t in queues[cpu] && t in due && due[t] == now + old(period)[t]
        else !Queued(queues, t)
      ensures forall t :: t !in fired && t !in AllTouched(effects, |fired|) ==> Untouched(old(State()), State(), t)
    {
      ghost var all := DuePart(Now(), queues[cpu], now);
      ghost var done: nat;
      StartTick(Now(), queues, alarms, clock, cpu, all);
      hide QueuesOk, AlarmsOk, DuePart, Except, Recorded, InOrder, AllCancelled, PeriodsFit, NoneLost;
      assert Firing(cpu, now, all, 0, [], [], {});
      hide StoppedNotFired, StoppedGone, Ticked, Untouched, AllTouched, Queued;
      ghost var s0 := State();
      fired, at, gone, done := FireDue(cpu, now, effects, all);
      TickedMeaning(cpu, now, fired, AllTouched(effects, |fired|), s0, State());
      EndTick(Now(), queues, alarms, clock, cpu, now, all, done, fired, at, gone);
      if queues[cpu] != [] {
        alarms := alarms[cpu := Some(due[queues[cpu][0]])];
      }
    }

    // How far the interrupt of a CPU has got with the timers due on entry.
    ghost predicate Firing(cpu: nat, now: nat, all: seq<Id>, done: nat, fired: seq<Id>, at: seq<nat>, gone: set<Id>)
      reads this
    {
      && Valid(Some(cpu)) && cpu < |queues| && base <= now <= clock && PeriodsFit(period, base, now)
      && done <= |all| && Recorded(all, done, fired, at, gone)
      && DuePart(Now(), queues[cpu], now) == Except(all[done..], gone)
    }

    ghost predicate HeadLater(cpu: nat, now: nat)
      reads this
      requires cpu < |queues|
    {
      queues[cpu] != [] ==> queues[cpu][0] in due && due[queues[cpu][0]] > now
    }

    // The loop of timer_tick.
    method FireDue(cpu: nat, now: nat, effects: nat -> seq<Action>, ghost all: seq<Id>)
      returns (fired: seq<Id>, ghost at: seq<nat>, ghost gone: set<Id>, ghost done: nat)
      requires cpu < |queues| && Firing(cpu, now, all, 0, [], [], {}) && Members([]) == {}
      modifies this
      ensures cpu < |queues| && Firing(cpu, now, all, done, fired, at, gone) && HeadLater(cpu, now)
      ensures running == old(running) - Members(fired) && |queues| == |old(queues)| && base == old(base)
      ensures gone <= AllCancelled(effects, |fired|) && StoppedNotFired(effects, |queues|, old(running), fired)
      ensures old(NoneLost(period, queues, None)) ==> NoneLost(period, queues, None)
      ensures Ticked(cpu, now, Members(fired), AllTouched(effects, |fired|), old(State()), State())
    {
      NoneFired(effects, |queues|, running);
      NoneTicked(cpu, now, State());
      assert AllTouched(effects, 0) == {};
      hide Firing, Members, HeadLater, Cancelled, NoneLost, AllStopped, StoppedNotFired, StoppedGone, Ticked, Touched, Queued;
      done, fired, at, gone := 0, [], [], {};
      var more := true;
      while more
        invariant cpu < |queues| == |old(queues)| && base == old(base) && done <= |all|
        invariant Firing(cpu, now, all, done, fired, at, gone) && (!more ==> HeadLater(cpu, now))
        invariant running == old(running) - Members(fired)
        invariant gone <= AllCancelled(effects, |fired|)
        invariant StoppedNotFired(effects, |queues|, old(running), fired) && StoppedGone(effects, |queues|, old(running), fired, gone)
        invariant old(NoneLost(period, queues, None)) ==> NoneLost(period, queues, None)
        invariant Ticked(cpu, now, Members(fired), AllTouched(effects, |fired|), old(State()), State())
        decreases |all| - done, more
      {
        ghost var busy, fired0, gone0, s1 := running, fired, gone, State();
        more, fired, at, gone, done := FireNext(cpu, now, effects(|fired|), all, done, fired, at, gone);
        if more {
          ghost var t := fired[|fired0|];
          FiredMember(fired0, t);
          TickedNext(cpu, now, Members(fired0), AllTouched(effects, |fired0|), t, Touched(effects(|fired0|)), old(State()), s1, State());
          StoppedNext(effects, |queues|, old(running), busy, fired0, gone0, t, gone);
        }
      }
    }

    method FireNext(cpu: nat, now: nat, actions: seq<Action>, ghost all: seq<Id>, ghost done0: nat, fired0: seq<Id>, ghost at0: seq<nat>, ghost gone0: set<Id>)
      returns (more: bool, fired: seq<Id>, ghost at: seq<nat>, ghost gone: set<Id>, ghost done: nat)
      requires Firing(cpu, now, all, done0, fired0, at0, gone0)
      modifies this
      ensures Firing(cpu, now, all, done, fired, at, gone) && |queues| == |old(queues)| && base == old(base)
      ensures more ==> done0 < done <= |all| && |fired| == |fired0| + 1 && gone <= gone0 + Cancelled(actions)
      ensures more ==> fired == fired0 + [fired[|fired0|]] && running == old(running) - {fired[|fired0|]}
      ensures more ==> gone0 <= gone && fired[|fired0|] !in gone0 && AllStopped(actions, |queues|, old(running) + {fired[|fired0|]}, gone)
      ensures old(NoneLost(period, queues, None)) ==> NoneLost(period, queues, None)
      ensures !more ==> HeadLater(cpu, now) && fired == fired0 && gone == gone0 && done == done0 && running == old(running)
      ensures !more ==> State() == old(State())
      ensures more ==> var t := fired[|fired0|];
        && old(Queued(queues, t) && t in due && due[t] <= now)
        && Ticked(cpu, now, {t}, Touched(actions), old(State()), State())
    {
      hide QueuesOk, AlarmsOk, DuePart, Except, FirstLeft, Recorded, Members, PeriodsFit, Lt, Cancelled, NoneLost, AllStopped, Ticked, Touched;
      fired, at, gone, done, more := fired0, at0, gone0, done0, false;
      if queues[cpu] == [] {
        return;
      }
      HeadTime(Now(), queues, cpu, now);
      if Lt(now % WORD, sched[queues[cpu][0]]) {
        return;
      }
      ghost var j;
      var t;
      t, j, gone := Fire(cpu, now, actions, all[done..], gone);
      RecordedNext(all, done, fired, at, gone0, gone, t, j);
      NotGone(all[done..], gone0, t, j);
      fired := fired + [t];
      at := at + [done + j];
      done := done + j + 1;
      more := true;
    }
  }

  // Time passes and the interrupt comes: without other activity it fires just
  // the timers whose time has come.
  method AdvanceAndTick(s: Timers, cpu: nat, elapsed: nat) returns (fired: seq<Id>)
    requires s.Valid(None) && cpu < |s.queues|
    requires s.Now().InWindow(s.clock + elapsed) && PeriodsFit(s.period, s.base, s.clock + elapsed)
    modifies s
    ensures s.Valid(None)
    ensures forall t :: t in fired <==> t in old(s.queues[cpu]) && t in old(s.due) && old(s.due)[t] <= old(s.clock) + elapsed
    ensures forall t :: t in fired ==>
      if t in old(s.period) && old(s.period)[t] > 0
      then cpu < |s.queues| && t in s.queues[cpu] && t in s.due && s.due[t] == old(s.clock) + elapsed + old(s.period)[t]
      else !Queued(s.queues, t)
    ensures forall t :: t !in fired ==> Untouched(old(s.State()), s.State(), t)
  {
    hide QueuesOk, AlarmsOk, DuePart, Untouched, InOrder, AllCancelled, AllTouched, Queued, PeriodsFit, StoppedNotFired, NoneLost;
    s.Advance(elapsed);
    DueMeaning(s.Now(), s.queues, cpu, s.clock);
    ghost var all := DuePart(s.Now(), s.queues[cpu], s.clock);
    ghost var at, gone;
    fired, at, gone := s.Tick(cpu, s.clock, _ => []);
    NothingCancelled(|fired|);
    NothingTouched(|fired|);
    FiredWereDue(all, fired, at);
  }

  lemma DueMeaning(m: Times, queues: seq<seq<Id>>, cpu: nat, now: nat)
    requires QueuesOk(m, queues) && cpu < |queues|
    ensures forall t :: t in DuePart(m, queues[cpu], now) <==> t in queues[cpu] && t in m.due && m.due[t] <= now
  {
    DuePrefix(m, queues[cpu], now);
    assert AllHold(m, queues[cpu]);
  }

  lemma FiredWereDue(all: seq<Id>, fired: seq<Id>, at: seq<nat>)
    requires InOrder(all, fired, at)
    ensures forall t :: t in fired ==> t in all
  {
    forall t | t in fired
      ensures t in all
    {
      var i :| 0 <= i < |fired| && fired[i] == t;
      assert all[at[i]] == t;
    }
  }

  lemma {:induction false} NothingTouched(n: nat)
    ensures AllTouched(_ => [], n) == {}
  {
    if n > 0 {
      NothingTouched(n - 1);
    }
  }

  lemma {:induction false} NothingCancelled(n: nat)
    ensures AllCancelled(_ => [], n) == {}
  {
    if n > 0 {
      NothingCancelled(n - 1);
    }
  }

  function Members(q: seq<Id>): set<Id> {
    set t | t in q
  }

  // The timers fired are timers of the sequence, each once and in its order.
  ghost predicate InOrder(all: seq<Id>, fired: seq<Id>, at: seq<nat>) {
    && |at| == |fired|
    && (forall i :: 0 <= i < |at| ==> at[i] < |all| && all[at[i]] == fired[i])
    && (forall i, j :: 0 <= i < j < |at| ==> at[i] < at[j])
  }

  // The first done timers have been fired, or were cancelled before their turn.
  ghost predicate Recorded(all: seq<Id>, done: nat, fired: seq<Id>, at: seq<nat>, gone: set<Id>) {
    && done <= |all| && InOrder(all, fired, at)
    && (forall i :: 0 <= i < |at| ==> at[i] < done)
    && (forall i :: 0 <= i < done ==> all[i] in fired || all[i] in gone)
  }

  // t is the first timer that is left and not cancelled.
  ghost predicate FirstLeft(left: seq<Id>, gone: set<Id>, t: Id, j: nat) {
    j < |left| && left[j] == t && t !in gone && forall i :: 0 <= i < j ==> left[i] in gone
  }

  lemma NotGone(left: seq<Id>, gone: set<Id>, t: Id, j: nat)
    requires FirstLeft(left, gone, t, j)
    ensures t !in gone
  {
  }

  lemma FiredMember(fired: seq<Id>, t: Id)
    ensures Members(fired + [t]) == Members(fired) + {t}
  {
  }

  // The action cancels a timer whose callback is not running.
  predicate Stops(a: Action, cpus: nat, busy: set<Id>) {
    a.Cancel? && a.cpu < cpus && a.t !in busy
  }

  ghost predicate AllStopped(actions: seq<Action>, cpus: nat, busy: set<Id>, gone: set<Id>) {
    forall i :: 0 <= i < |actions| && Stops(actions[i], cpus, busy) ==> actions[i].t in gone
  }

  // A timer that is cancelled while the callback of another one runs is not
  // fired after that.
  ghost predicate StoppedNotFired(effects: nat -> seq<Action>, cpus: nat, busy: set<Id>, fired: seq<Id>) {
    forall k, i, j :: 0 <= k < j < |fired| && 0 <= i < |effects(k)| && Stops(effects(k)[i], cpus, busy + {fired[k]}) ==>
      fired[j] != effects(k)[i].t
  }

  ghost predicate StoppedGone(effects: nat -> seq<Action>, cpus: nat, busy: set<Id>, fired: seq<Id>, gone: set<Id>) {
    forall k, i :: 0 <= k < |fired| && 0 <= i < |effects(k)| && Stops(effects(k)[i], cpus, busy + {fired[k]}) ==>
      effects(k)[i].t in gone
  }

  lemma NoneFired(effects: nat -> seq<Action>, cpus: nat, busy: set<Id>)
    ensures StoppedNotFired(effects, cpus, busy, []) && StoppedGone(effects, cpus, busy, [], {})
  {
  }

  lemma StoppedNext(effects: nat -> seq<Action>, cpus: nat, busy: set<Id>, busy1: set<Id>, fired: seq<Id>, gone: set<Id>, t: Id, gone': set<Id>)
    requires StoppedNotFired(effects, cpus, busy, fired) && StoppedGone(effects, cpus, busy, fired, gone)
    requires busy1 <= busy && gone <= gone' && t !in gone && AllStopped(effects(|fired|), cpus, busy1 + {t}, gone')
    ensures StoppedNotFired(effects, cpus, busy, fired + [t]) && StoppedGone(effects, cpus, busy, fired + [t], gone')
  {
    var after := fired + [t];
    forall k, i | 0 <= k < |after| && 0 <= i < |effects(k)| && Stops(effects(k)[i], cpus, busy + {after[k]})
      ensures effects(k)[i].t in gone' && (k < |fired| ==> effects(k)[i].t in gone)
    {
      if k == |fired| {
        assert Stops(effects(k)[i], cpus, busy1 + {t});
      } else {
        assert Stops(effects(k)[i], cpus, busy + {fired[k]});
      }
    }
    forall k, i, j | 0 <= k < j < |after| && 0 <= i < |effects(k)| && Stops(effects(k)[i], cpus, busy + {after[k]})
      ensures after[j] != effects(k)[i].t
    {
      assert Stops(effects(k)[i], cpus, busy + {fired[k]});
    }
  }

  lemma RecordedNext(all: seq<Id>, done: nat, fired: seq<Id>, at: seq<nat>, gone: set<Id>, gone': set<Id>, t: Id, j: nat)
    requires Recorded(all, done, fired, at, gone) && gone <= gone' && FirstLeft(all[done..], gone, t, j)
    ensures done + j + 1 <= |all| && Recorded(all, done + j + 1, fired + [t], at + [done + j], gone')
    ensures all[done..][j + 1..] == all[done + j + 1..]
    ensures Members(fired + [t]) == Members(fired) + {t}
  {
    forall i | 0 <= i < done + j + 1
      ensures all[i] in fired + [t] || all[i] in gone'
    {
      if done <= i < done + j {
        assert all[done..][i - done] in gone;
      }
    }
  }

  lemma {:induction false} ExceptFirst(left: seq<Id>, gone: set<Id>) returns (j: nat)
    requires Except(left, gone) != []
    ensures FirstLeft(left, gone, Except(left, gone)[0], j)
    ensures Except(left[j + 1..], gone) == Except(left, gone)[1..]
  {
    if left[0] in gone {
      j := ExceptFirst(left[1..], gone);
      assert left[1..][j + 1..] == left[j + 1 + 1..];
      j := j + 1;
    } else {
      j := 0;
    }
  }

  lemma NextDue(left: seq<Id>, gone: set<Id>, m: Times, q: seq<Id>, now: nat) returns (j: nat)
    requires q != [] && q[0] in m.due && m.due[q[0]] <= now && DuePart(m, q, now) == Except(left, gone)
    ensures FirstLeft(left, gone, q[0], j)
    ensures DuePart(m, q[1..], now) == Except(left[j + 1..], gone)
  {
    assert DuePart(m, q, now) == [q[0]] + DuePart(m, q[1..], now);
    j := ExceptFirst(left, gone);
  }

  lemma PopOk(m: Times, queues: seq<seq<Id>>, alarms: seq<Option<nat>>, clock: nat, cpu: nat)
    requires QueuesOk(m, queues) && AlarmsOk(m, queues, alarms, clock, Some(cpu)) && cpu < |queues| && queues[cpu] != []
    ensures QueuesOk(m, queues[cpu := queues[cpu][1..]])
    ensures AlarmsOk(m, queues[cpu := queues[cpu][1..]], alarms, clock, Some(cpu))
  {
    var after := queues[cpu := queues[cpu][1..]];
    var q := queues[cpu];
    assert QueueOk(m, q);
    assert QueueOk(m, q[1..]) by {
      forall i | 0 <= i < |q[1..]|
        ensures m.Holds(q[1..][i])
      {
        assert m.Holds(q[i + 1]);
      }
    }
    forall c | 0 <= c < |after|
      ensures QueueOk(m, after[c]) && forall t :: t in after[c] ==> t in queues[c]
    {
    }
    forall c | 0 <= c < |after| && c != cpu
      ensures AlarmOk(m, after[c], alarms[c], clock)
    {
      assert AlarmOk(m, queues[c], alarms[c], clock);
    }
  }

  lemma OtherAlarms(m: Times, queues: seq<seq<Id>>, alarms: seq<Option<nat>>, alarms': seq<Option<nat>>, clock: nat, cpu: nat)
    requires AlarmsOk(m, queues, alarms, clock, Some(cpu)) && |alarms'| == |alarms|
    requires forall c :: 0 <= c < |alarms| && c != cpu ==> alarms'[c] == alarms[c]
    ensures AlarmsOk(m, queues, alarms', clock, Some(cpu))
  {
    forall c | 0 <= c < |queues| && c != cpu
      ensures AlarmOk(m, queues[c], alarms'[c], clock)
    {
      assert AlarmOk(m, queues[c], alarms[c], clock);
    }
  }

  lemma {:induction false} ExceptNothing(q: seq<Id>)
    ensures Except(q, {}) == q
  {
    if q != [] {
      ExceptNothing(q[1..]);
    }
  }

  lemma StartTick(m: Times, queues: seq<seq<Id>>, alarms: seq<Option<nat>>, clock: nat, cpu: nat, all: seq<Id>)
    requires AlarmsOk(m, queues, alarms, clock, None)
    ensures AlarmsOk(m, queues, alarms, clock, Some(cpu)) && Except(all[0..], {}) == all
    ensures Recorded(all, 0, [], [], {}) && Members([]) == {}
  {
    ExceptNothing(all);
    assert all[0..] == all;
    OtherAlarms(m, queues, alarms, alarms, clock, cpu);
  }

  lemma HeadTime(m: Times, queues: seq<seq<Id>>, cpu: nat, now: nat)
    requires QueuesOk(m, queues) && cpu < |queues| && queues[cpu] != [] && m.InWindow(now)
    ensures m.Holds(queues[cpu][0]) && (Lt(now % WORD, m.sched[queues[cpu][0]]) <==> now < m.due[queues[cpu][0]])
  {
    assert QueueOk(m, queues[cpu]);
    WrappedOrder(now, m.due[queues[cpu][0]]);
  }

  lemma EndTick(m: Times, queues: seq<seq<Id>>, alarms: seq<Option<nat>>, clock: nat, cpu: nat, now: nat,
                all: seq<Id>, done: nat, fired: seq<Id>, at: seq<nat>, gone: set<Id>)
    requires AlarmsOk(m, queues, alarms, clock, Some(cpu)) && cpu < |queues| && Recorded(all, done, fired, at, gone)
    requires DuePart(m, queues[cpu], now) == Except(all[done..], gone)
    requires queues[cpu] != [] ==> queues[cpu][0] in m.due && m.due[queues[cpu][0]] > now
    ensures |alarms| == |queues| && InOrder(all, fired, at) && forall t :: t in all ==> t in fired || t in gone
    ensures AlarmsOk(m, queues, if queues[cpu] == [] then alarms else alarms[cpu := Some(m.due[queues[cpu][0]])], clock, None)
  {
    var after := if queues[cpu] == [] then alarms else alarms[cpu := Some(m.due[queues[cpu][0]])];
    forall c | 0 <= c < |queues|
      ensures AlarmOk(m, queues[c], after[c], clock)
    {
      if c != cpu {
        assert AlarmOk(m, queues[c], alarms[c], clock);
      }
    }
    assert Except(all[done..], gone) == [];
    AllExcepted(all[done..], gone);
    forall t | t in all
      ensures t in fired || t in gone
    {
      var i :| 0 <= i < |all| && all[i] == t;
      if done <= i {
        assert all[done..][i - done] == t;
      }
    }
  }

  lemma {:induction false} AllExcepted(q: seq<Id>, s: set<Id>)
    requires Except(q, s) == []
    ensures forall i :: 0 <= i < |q| ==> q[i] in s
  {
    if q != [] {
      AllExcepted(q[1..], s);
    }
  }

  // The timers that a run of actions cancels at most.
  function Cancelled(actions: seq<Action>): set<Id> {
    set a | a in actions && a.Cancel? :: a.t
  }

  function AllCancelled(effects: nat -> seq<Action>, n: nat): set<Id> {
    if n == 0 then {} else AllCancelled(effects, n - 1) + Cancelled(effects(n - 1))
  }

  lemma CancelledSnoc(actions: seq<Action>, k: nat)
    requires k < |actions|
    ensures Cancelled(actions[..k + 1]) == Cancelled(actions[..k]) + (if actions[k].Cancel? then {actions[k].t} else {})
  {
    assert actions[..k + 1] == actions[..k] + [actions[k]];
  }

  // Every periodic timer that is started again at now stays in the window.
  predicate PeriodsFit(period: map<Id, nat>, base: nat, now: nat) {
    forall t :: t in period ==> now + period[t] < base + HALF
  }

  lemma WindowMoves(m: Times, queues: seq<seq<Id>>, alarms: seq<Option<nat>>, clock: nat, least: nat)
    requires QueuesOk(m, queues) && AlarmsOk(m, queues, alarms, clock, None) && m.base <= least
    requires forall c :: 0 <= c < |queues| && queues[c] != [] ==> queues[c][0] in m.due && least <= m.due[queues[c][0]]
    ensures QueuesOk(m.(base := least), queues) && AlarmsOk(m.(base := least), queues, alarms, clock, None)
  {
    var n := m.(base := least);
    forall c | 0 <= c < |queues|
      ensures QueueOk(n, queues[c])
    {
      assert QueueOk(m, queues[c]);
      forall i | 0 <= i < |queues[c]|
        ensures n.Holds(queues[c][i])
      {
        assert m.Holds(queues[c][i]) && m.Holds(queues[c][0]);
      }
    }
    forall c | 0 <= c < |queues|
      ensures AlarmOk(n, queues[c], alarms[c], clock)
    {
      assert AlarmOk(m, queues[c], alarms[c], clock);
    }
  }

  lemma LaterAlarms(m: Times, queues: seq<seq<Id>>, alarms: seq<Option<nat>>, clock: nat, later: nat, ticking: Option<nat>)
    requires AlarmsOk(m, queues, alarms, clock, ticking) && clock <= later
    ensures AlarmsOk(m, queues, alarms, later, ticking)
  {
    forall c | 0 <= c < |queues| && ticking != Some(c)
      ensures AlarmOk(m, queues[c], alarms[c], later)
    {
      assert AlarmOk(m, queues[c], alarms[c], clock);
    }
  }

  // The timer has been put into the queue of a CPU, behind those of the same
  // time, and the other queues are as before.
  ghost predicate Armed(m: Times, queues: seq<seq<Id>>, queues': seq<seq<Id>>, cpu: nat, t: Id, k: nat) {
    && cpu < |queues| == |queues'| && m.Holds(t) && AllHold(m, queues[cpu])
    && InsertedAt(m, queues[cpu], t, queues'[cpu], k)
    && forall c :: 0 <= c < |queues| && c != cpu ==> queues'[c] == queues[c]
  }

  ghost predicate SameDue(m: Times, queues: seq<seq<Id>>, m': Times, queues': seq<seq<Id>>, now: nat) {
    |queues| == |queues'| && forall c :: 0 <= c < |queues| ==> DuePart(m', queues'[c], now) == DuePart(m, queues[c], now)
  }

  lemma SameDueAt(m: Times, queues: seq<seq<Id>>, m': Times, queues': seq<seq<Id>>, now: nat, cpu: nat)
    requires SameDue(m, queues, m', queues', now) && cpu < |queues|
    ensures |queues| == |queues'| && DuePart(m', queues'[cpu], now) == DuePart(m, queues[cpu], now)
  {
  }

  method Arm(ghost m0: Times, sched0: map<Id, nat>, queues0: seq<seq<Id>>, ghost alarms0: seq<Option<nat>>, ghost clock: nat, ghost from: nat,
             ghost ticking: Option<nat>, cpu: nat, t: Id, now: nat, delay: nat, ghost late: nat)
    returns (queues: seq<seq<Id>>, sched: map<Id, nat>, ghost due: map<Id, nat>, ghost alarms: seq<Option<nat>>, ghost k: nat)
    requires QueuesOk(m0, queues0) && AlarmsOk(m0, queues0, alarms0, clock, ticking) && m0.sched == sched0
    requires cpu < |queues0| && !Queued(queues0, t)
    requires now == from % WORD && 0 < delay && m0.InWindow(from + delay) && late <= from
    ensures var m := Times(sched, due, m0.base);
      && m == Retimed(m0, t, from + delay)
      && QueuesOk(m, queues) && AlarmsOk(m, queues, alarms, clock, ticking)
      && Armed(m, queues0, queues, cpu, t, k) && SameDue(m0, queues0, m, queues, late)
    ensures |alarms| == |alarms0| == |queues0| && alarms == if k == 0 then alarms0[cpu := Some(from + delay)] else alarms0
  {
    SetWord(now, from, delay);
    sched, due := sched0[t := (now + delay) % WORD], m0.due[t := from + delay];
    ghost var m := Times(sched, due, m0.base);
    RetimedOk(m0, queues0, t, from + delay, late);
    RetimedAlarms(m0, queues0, alarms0, clock, ticking, t, from + delay);
    NotIn(queues0, t, cpu);
    hide QueuesOk, AlarmsOk, QueueOk, InsertedAt, DuePart, Queued;
    var q;
    q, k := Insert(sched, m, queues0[cpu], t);
    SetQueue(m, queues0, alarms0, clock, ticking, cpu, t, q, k, late);
    queues := queues0[cpu := q];
    alarms := if q[0] == t then alarms0[cpu := Some(due[t])] else alarms0;
    assert q[0] == t <==> k == 0;
  }

  // The timer is in no queue, and all else is as before.
  ghost predicate Disarmed(queues: seq<seq<Id>>, queues': seq<seq<Id>>, t: Id) {
    && |queues| == |queues'| && !Queued(queues', t)
    && forall c :: 0 <= c < |queues| ==> queues'[c] == Without(queues[c], t)
  }

  method Disarm(ghost m: Times, sched: map<Id, nat>, queues0: seq<seq<Id>>, ghost alarms0: seq<Option<nat>>, ghost clock: nat, now: nat,
                ghost ticking: Option<nat>, cpu: nat, t: Id, ghost late: nat)
    returns (queues: seq<seq<Id>>, ghost alarms: seq<Option<nat>>)
    requires QueuesOk(m, queues0) && AlarmsOk(m, queues0, alarms0, clock, ticking) && m.sched == sched
    requires cpu < |queues0| && now == clock % WORD && m.InWindow(clock)
    ensures QueuesOk(m, queues) && AlarmsOk(m, queues, alarms, clock, ticking) && Disarmed(queues0, queues, t)
    ensures |alarms| == |alarms0| == |queues0| == |queues| && forall c :: 0 <= c < |alarms| && c != cpu ==> alarms[c] == alarms0[c]
    ensures HeadAlarm(queues0[cpu], queues[cpu], m.due, alarms0[cpu], alarms[cpu], clock)
    ensures |queues| == |queues0| && forall c :: 0 <= c < |queues| ==>
      DuePart(m, queues[c], late) == Except(DuePart(m, queues0[c], late), {t})
  {
    queues, alarms := queues0, alarms0;
    if Queued(queues0, t) {
      var c :| 0 <= c < |queues0| && t in queues0[c];
      queues := queues0[c := Without(queues0[c], t)];
      RemovedQueue(m, queues0, c, t);
    } else {
      RemovedNone(queues0, t);
    }
    DisarmedOk(m, queues0, queues, alarms0, clock, ticking, t, late);
    if queues[cpu] == [] {
      alarms := alarms[cpu := None];
    } else if queues0[cpu] == [] || queues[cpu][0] != queues0[cpu][0] {
      var head := queues[cpu][0];
      assert QueueOk(m, queues[cpu]) && m.Holds(head);
      WrappedOrder(m.due[head], clock);
      alarms := alarms[cpu := Some(if Lt(sched[head], now) then clock else m.due[head])];
    }
  }

  // The alarm is put off if the queue has become empty, and set to the new head,
  // or to now if that is later, if there is one.
  ghost predicate HeadAlarm(q: seq<Id>, q': seq<Id>, due: map<Id, nat>, alarm: Option<nat>, alarm': Option<nat>, clock: nat) {
    if q' == [] then alarm' == None
    else if q != [] && q'[0] == q[0] then alarm' == alarm
    else q'[0] in due && alarm' == Some(if due[q'[0]] < clock then clock else due[q'[0]])
  }

  lemma RemovedSame(q: seq<Id>, t: Id)
    ensures t !in q ==> Without(q, t) == q
  {
  }

  lemma RemovedNone(queues: seq<seq<Id>>, t: Id)
    requires !Queued(queues, t)
    ensures forall c :: 0 <= c < |queues| ==> Without(queues[c], t) == queues[c]
  {
    forall c | 0 <= c < |queues|
      ensures Without(queues[c], t) == queues[c]
    {
      RemovedSame(queues[c], t);
    }
  }

  lemma RemovedQueue(m: Times, queues: seq<seq<Id>>, c: nat, t: Id)
    requires QueuesOk(m, queues) && c < |queues| && t in queues[c]
    ensures forall d :: 0 <= d < |queues| ==> queues[c := Without(queues[c], t)][d] == Without(queues[d], t)
  {
    forall d | 0 <= d < |queues|
      ensures queues[c := Without(queues[c], t)][d] == Without(queues[d], t)
    {
      RemovedSame(queues[d], t);
    }
  }

  // Taking a timer out of the queues makes no alarm late.
  lemma DisarmedOk(m: Times, queues: seq<seq<Id>>, queues': seq<seq<Id>>, alarms: seq<Option<nat>>, clock: nat, ticking: Option<nat>, t: Id, late: nat)
    requires QueuesOk(m, queues) && AlarmsOk(m, queues, alarms, clock, ticking)
    requires |queues'| == |queues| && forall c :: 0 <= c < |queues| ==> queues'[c] == Without(queues[c], t)
    ensures QueuesOk(m, queues') && AlarmsOk(m, queues', alarms, clock, ticking) && Disarmed(queues, queues', t)
    ensures forall c :: 0 <= c < |queues'| ==> DuePart(m, queues'[c], late) == Except(DuePart(m, queues[c], late), {t})
  {
    forall c | 0 <= c < |queues|
      ensures QueueOk(m, queues'[c]) && t !in queues'[c] && (forall u :: u in queues'[c] ==> u in queues[c])
      ensures DuePart(m, queues'[c], late) == Except(DuePart(m, queues[c], late), {t})
      ensures AlarmOk(m, queues[c], alarms[c], clock) ==> AlarmOk(m, queues'[c], alarms[c], clock)
    {
      RemovedMeaning(m, queues[c], t);
      DueRemove(m, queues[c], t, late);
      RemovedHead(m, queues[c], t);
    }
  }

  lemma RemovedHead(m: Times, q: seq<Id>, t: Id)
    requires QueueOk(m, q) && QueueOk(m, Without(q, t))
    ensures Without(q, t) != [] ==> q != [] && q[0] in m.due && Without(q, t)[0] in m.due && m.due[q[0]] <= m.due[Without(q, t)[0]]
  {
    if Without(q, t) != [] && q[0] == t {
      assert m.due[q[0]] <= m.due[q[1]];
    }
  }

  lemma SetNoneLost(m: Times, period: map<Id, nat>, queues: seq<seq<Id>>, queues': seq<seq<Id>>, cpu: nat, t: Id, k: nat, per: nat)
    requires Armed(m, queues, queues', cpu, t, k)
    ensures forall f :: NoneLost(period, queues, f) ==> NoneLost(period[t := per], queues', f)
  {
    ArmedQueued(m, queues, queues', cpu, t, k);
  }

  lemma ArmedQueued(m: Times, queues: seq<seq<Id>>, queues': seq<seq<Id>>, cpu: nat, t: Id, k: nat)
    requires Armed(m, queues, queues', cpu, t, k)
    ensures Queued(queues', t) && forall u :: Queued(queues, u) ==> Queued(queues', u)
  {
    assert t in queues'[cpu];
    forall u | Queued(queues, u)
      ensures Queued(queues', u)
    {
      var c :| 0 <= c < |queues| && u in queues[c];
      assert u in queues'[c];
    }
  }

  lemma RearmNoneLost(m: Times, period: map<Id, nat>, queues: seq<seq<Id>>, queues': seq<seq<Id>>, cpu: nat, t: Id, k: nat)
    requires Armed(m, queues, queues', cpu, t, k)
    ensures NoneLost(period, queues, Some(t)) ==> NoneLost(period, queues', None)
  {
    ArmedQueued(m, queues, queues', cpu, t, k);
  }

  // A timer that has fired is not lost if it is queued or no longer periodic.
  lemma FiredNoneLost(period: map<Id, nat>, queues: seq<seq<Id>>, t: Id)
    ensures NoneLost(period, queues, Some(t)) && (Queued(queues, t) || t !in period || period[t] == 0) ==> NoneLost(period, queues, None)
  {
  }

  lemma PopNoneLost(period: map<Id, nat>, queues: seq<seq<Id>>, cpu: nat)
    requires cpu < |queues| && queues[cpu] != []
    ensures var t := queues[cpu][0];
      NoneLost(period, queues, None) ==>
        NoneLost(period, queues[cpu := queues[cpu][1..]], if t in period && period[t] > 0 then Some(t) else None)
  {
    var t, after := queues[cpu][0], queues[cpu := queues[cpu][1..]];
    forall u | Queued(queues, u) && u != t
      ensures Queued(after, u)
    {
      var c :| 0 <= c < |queues| && u in queues[c];
      assert u in after[c];
    }
  }

  lemma {:induction false} WithoutKeeps(q: seq<Id>, t: Id, u: Id)
    requires u in q && u != t
    ensures u in Without(q, t)
  {
    if q[0] != t && q[0] != u {
      WithoutKeeps(q[1..], t, u);
    }
  }

  lemma CancelNoneLost(period: map<Id, nat>, queues: seq<seq<Id>>, queues': seq<seq<Id>>, t: Id)
    requires Disarmed(queues, queues', t)
    ensures forall f :: NoneLost(period, queues, f) ==> NoneLost(period[t := 0], queues', f)
    ensures t !in period ==> forall f :: NoneLost(period, queues, f) ==> NoneLost(period, queues', f)
  {
    forall u | Queued(queues, u) && u != t
      ensures Queued(queues', u)
    {
      var c :| 0 <= c < |queues| && u in queues[c];
      WithoutKeeps(queues[c], t, u);
      assert u in queues'[c];
    }
  }

  lemma SetWord(now: nat, clock: nat, delay: nat)
    requires now == clock % WORD
    ensures (now + delay) % WORD == (clock + delay) % WORD
  {
  }

  lemma NotIn(queues: seq<seq<Id>>, t: Id, cpu: nat)
    requires cpu < |queues| && !Queued(queues, t)
    ensures t !in queues[cpu]
  {
  }

  lemma RetimedAlarms(m: Times, queues: seq<seq<Id>>, alarms: seq<Option<nat>>, clock: nat, ticking: Option<nat>, t: Id, due: nat)
    requires QueuesOk(m, queues) && AlarmsOk(m, queues, alarms, clock, ticking) && !Queued(queues, t)
    ensures AlarmsOk(Retimed(m, t, due), queues, alarms, clock, ticking)
  {
    forall c | 0 <= c < |queues| && ticking != Some(c)
      ensures AlarmOk(Retimed(m, t, due), queues[c], alarms[c], clock)
    {
      assert AlarmOk(m, queues[c], alarms[c], clock);
      if queues[c] != [] {
        assert queues[c][0] in queues[c];
      }
    }
  }

  lemma SetQueue(m: Times, queues: seq<seq<Id>>, alarms: seq<Option<nat>>, clock: nat, ticking: Option<nat>,
                 cpu: nat, t: Id, q: seq<Id>, k: nat, late: nat)
    requires QueuesOk(m, queues) && AlarmsOk(m, queues, alarms, clock, ticking) && cpu < |queues| && !Queued(queues, t)
    requires m.Holds(t) && QueueOk(m, q) && QueueOk(m, queues[cpu]) && InsertedAt(m, queues[cpu], t, q, k) && m.due[t] > late
    ensures QueuesOk(m, queues[cpu := q]) && q != [] && t in m.due
    ensures AlarmsOk(m, queues[cpu := q], if q[0] == t then alarms[cpu := Some(m.due[t])] else alarms, clock, ticking)
    ensures DuePart(m, q, late) == DuePart(m, queues[cpu], late)
  {
    DueInsert(m, queues[cpu], t, q, k, late);
    SetQueues(m, queues, cpu, t, q, k);
    var after := if q[0] == t then alarms[cpu := Some(m.due[t])] else alarms;
    forall c | 0 <= c < |queues| && ticking != Some(c)
      ensures AlarmOk(m, queues[cpu := q][c], after[c], clock)
    {
      assert AlarmOk(m, queues[c], alarms[c], clock);
    }
  }

  lemma SetQueues(m: Times, queues: seq<seq<Id>>, cpu: nat, t: Id, q: seq<Id>, k: nat)
    requires QueuesOk(m, queues) && cpu < |queues| && !Queued(queues, t)
    requires m.Holds(t) && QueueOk(m, q) && QueueOk(m, queues[cpu]) && InsertedAt(m, queues[cpu], t, q, k)
    ensures QueuesOk(m, queues[cpu := q])
  {
    forall u | u in q
      ensures u == t || u in queues[cpu]
    {
    }
  }
}
