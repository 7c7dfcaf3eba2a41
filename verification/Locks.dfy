// Mutexes and semaphores as steps of the threads that use them.
module Locks {
  // A wait is two steps: one up to the switch away, and one when the thread runs
  // again.

  import opened Common
  import opened Lists

  type T = nat

  datatype Status = NoError | ErrTimedOut | ErrNotReady

  // ---------- mutex ----------

  // The fields of a mutex, and the threads between the two steps of a wait:
  // those given the mutex, and those whose time ran out.
  datatype Mutex = Mutex(count: int, holder: Option<T>, queue: seq<T>, timed: set<T>, handed: set<T>, timedOut: set<T>) {
    predicate Uses(t: T) {
      holder == Some(t) || t in queue || t in handed || t in timedOut
    }

    function Owners(): nat {
      (if holder.Some? then 1 else 0) + |handed|
    }
  }

  const FREE_MUTEX: Mutex := Mutex(0, None, [], {}, {}, {})

  datatype MutexStep =
    | Acquire(t: T, timed: bool, zero: bool)  // timed: the timeout is finite; zero: and it is 0
    | Release(t: T)
    | Timeout(t: T)
    | Resume(t: T)

  predicate MutexEnabled(s: Mutex, step: MutexStep) {
    match step
    case Acquire(t, timed, zero) => !s.Uses(t) && (zero ==> timed)
    case Release(t) => s.holder == Some(t)
    case Timeout(t) => t in s.queue && t in s.timed
    case Resume(t) => t in s.handed || t in s.timedOut
  }

  function MutexNext(s: Mutex, step: MutexStep): Mutex {
    match step
    case Acquire(t, timed, zero) =>
      if s.count == 0 then s.(count := 1, holder := Some(t))
      else if zero then s
      else s.(count := s.count + 1, queue := s.queue + [t], timed := if timed then s.timed + {t} else s.timed - {t})
    case Release(t) =>
      if s.count - 1 >= 1 && s.queue != []
      then s.(count := s.count - 1, holder := None, queue := s.queue[1..], handed := s.handed + {s.queue[0]})
      else s.(count := s.count - 1, holder := None)
    case Timeout(t) => s.(queue := Without(s.queue, t), timedOut := s.timedOut + {t})
    case Resume(t) =>
      if t in s.handed then s.(holder := Some(t), handed := s.handed - {t})
      else s.(count := s.count - 1, timedOut := s.timedOut - {t})
  }

  // The count is the number of threads that have the mutex, have been given it,
  // wait for it, or have yet to take back their count after a timeout. At most
  // one has it or has been given it.
  ghost predicate MutexOk(s: Mutex) {
    && s.count == s.Owners() + |s.queue| + |s.timedOut|
    && s.Owners() <= 1
    && Distinct(s.queue) && s.handed !! s.timedOut
    && (forall t :: t in s.queue ==> t !in s.handed && t !in s.timedOut)
    && (s.holder.Some? ==> s.holder.value !in s.queue && s.holder.value !in s.handed && s.holder.value !in s.timedOut)
  }

  // Whoever waits, waits for a thread that has the mutex or has been given it.
  ghost predicate Awaited(s: Mutex) {
    s.queue != [] ==> s.Owners() > 0
  }

  // At most one thread has been given the mutex, and none while it is held.
  lemma OneHanded(s: Mutex)
    requires MutexOk(s)
    ensures s.holder.Some? ==> s.handed == {}
    ensures forall t :: t in s.handed ==> s.handed == {t}
  {
    forall t | t in s.handed
      ensures s.handed == {t}
    {
      assert |s.handed - {t}| == 0;
    }
  }

  lemma ReleaseKeeps(s: Mutex, t: T)
    requires MutexOk(s) && s.holder == Some(t)
    ensures MutexOk(MutexNext(s, MutexStep.Release(t)))
  {
    OneHanded(s);
    if s.queue != [] {
      assert s.queue[0] in s.queue;
      assert s.handed + {s.queue[0]} == {s.queue[0]};
    }
  }

  lemma ResumeKeeps(s: Mutex, t: T)
    requires MutexOk(s) && (t in s.handed || t in s.timedOut)
    ensures MutexOk(MutexNext(s, MutexStep.Resume(t)))
  {
    OneHanded(s);
    if t in s.handed {
      assert s.handed - {t} == {};
    }
  }

  lemma MutexKeeps(s: Mutex, step: MutexStep)
    requires MutexOk(s) && MutexEnabled(s, step)
    ensures MutexOk(MutexNext(s, step))
  {
    match step
    case Acquire(t, timed, zero) =>
    case Release(t) => ReleaseKeeps(s, t);
    case Timeout(t) => WithoutMeaning(s.queue, t);
    case Resume(t) => ResumeKeeps(s, t);
  }

  // A release gives the mutex to the thread that has waited longest, if any.
  lemma HandsOver(s: Mutex, t: T)
    requires MutexOk(s) && s.holder == Some(t)
    ensures var s' := MutexNext(s, MutexStep.Release(t));
      && s'.holder == None && s'.count == s.count - 1 && s'.timed == s.timed && s'.timedOut == s.timedOut
      && (if s.queue == [] then s'.queue == [] && s'.handed == {} else s'.queue == s.queue[1..] && s'.handed == {s.queue[0]})
  {
    OneHanded(s);
  }

  // Exactly one kind of step makes a thread wait for a mutex that nobody has:
  // taking part while one that has timed out has not yet taken back its count.
  lemma WaitForNobody(s: Mutex, step: MutexStep)
    requires MutexOk(s) && MutexEnabled(s, step) && Awaited(s)
    ensures !Awaited(MutexNext(s, step)) <==>
            step.Acquire? && !step.zero && s.Owners() == 0 && s.timedOut != {}
  {
    match step
    case Acquire(t, timed, zero) =>
    case Release(t) =>
    case Timeout(t) =>
      WithoutMeaning(s.queue, t);
      assert s.queue != [];
    case Resume(t) =>
  }

  // ---------- runs of a mutex ----------

  ghost predicate MutexRun(s: Mutex, steps: seq<MutexStep>, s': Mutex)
    decreases |steps|
  {
    if steps == [] then s == s'
    else MutexEnabled(s, steps[0]) && MutexRun(MutexNext(s, steps[0]), steps[1..], s')
  }

  lemma {:induction false} MutexRunKeeps(s: Mutex, steps: seq<MutexStep>, s': Mutex)
    requires MutexOk(s) && MutexRun(s, steps, s')
    ensures MutexOk(s')
    decreases |steps|
  {
    if steps != [] {
      MutexKeeps(s, steps[0]);
      MutexRunKeeps(MutexNext(s, steps[0]), steps[1..], s');
    }
  }

  // If all waits are for ever, nobody ever waits for a free mutex.
  lemma {:induction false} UntimedAwaited(s: Mutex, steps: seq<MutexStep>, s': Mutex)
    requires MutexOk(s) && Awaited(s) && s.timed == {} && s.timedOut == {} && MutexRun(s, steps, s')
    requires forall k :: 0 <= k < |steps| ==> steps[k].Acquire? ==> !steps[k].timed
    ensures Awaited(s') && s'.timedOut == {}
    decreases |steps|
  {
    if steps != [] {
      MutexKeeps(s, steps[0]);
      WaitForNobody(s, steps[0]);
      UntimedAwaited(MutexNext(s, steps[0]), steps[1..], s');
    }
  }

  // With a timeout another thread, which waits for ever, can be left waiting for a
  // mutex that nobody has.
  lemma LostWakeUp() returns (s: Mutex)
    ensures MutexRun(FREE_MUTEX, [Acquire(1, false, false), Acquire(2, true, false), Timeout(2), Release(1), Acquire(3, false, false), Resume(2)], s)
    ensures MutexOk(s) && Stuck(s) && s.queue == [3] && 3 !in s.timed
  {
    var s1 := MutexNext(FREE_MUTEX, Acquire(1, false, false));
    var s2 := MutexNext(s1, Acquire(2, true, false));
    var s3 := MutexNext(s2, Timeout(2));
    var s4 := MutexNext(s3, Release(1));
    var s5 := MutexNext(s4, Acquire(3, false, false));
    s := MutexNext(s5, Resume(2));
    var e: seq<MutexStep> := [];
    assert MutexRun(s, e, s);
    assert MutexRun(s5, [Resume(2)], s) by { assert [Resume(2)][1..] == e; }
    RunCons(s4, Acquire(3, false, false), [Resume(2)], s);
    RunCons(s3, Release(1), [Acquire(3, false, false), Resume(2)], s);
    RunCons(s2, Timeout(2), [Release(1), Acquire(3, false, false), Resume(2)], s);
    RunCons(s1, Acquire(2, true, false), [Timeout(2), Release(1), Acquire(3, false, false), Resume(2)], s);
    RunCons(FREE_MUTEX, Acquire(1, false, false), [Acquire(2, true, false), Timeout(2), Release(1), Acquire(3, false, false), Resume(2)], s);
  }

  lemma RunCons(s: Mutex, step: MutexStep, steps: seq<MutexStep>, s': Mutex)
    requires MutexEnabled(s, step) && MutexRun(MutexNext(s, step), steps, s')
    ensures MutexRun(s, [step] + steps, s')
  {
    assert ([step] + steps)[1..] == steps;
  }

  // Threads wait, nobody has the mutex, and no count has yet to be taken back.
  ghost predicate Stuck(s: Mutex) {
    s.queue != [] && s.Owners() == 0 && s.timedOut == {} && s.count > 0
  }

  // From a free mutex, somebody gets it if and only if a thread asks for it while
  // no other waits and none has yet to take back its count after a timeout. In a
  // stuck state, only a timeout changes who waits.
  lemma FreeStep(s: Mutex, step: MutexStep)
    requires MutexOk(s) && s.Owners() == 0 && MutexEnabled(s, step)
    ensures MutexNext(s, step).Owners() > 0 <==> step.Acquire? && s.queue == [] && s.timedOut == {}
    ensures Stuck(s) && !step.Timeout? ==> Stuck(MutexNext(s, step)) && s.queue <= MutexNext(s, step).queue
  {
    assert s.handed == {};
  }

  // A thread that waits without a timeout for a mutex that nobody has waits for
  // ever, and nobody ever gets the mutex: so in every run, whoever else comes and
  // whatever other waits time out.
  lemma {:induction false} StuckStays(s: Mutex, t: T, steps: seq<MutexStep>, s': Mutex)
    requires MutexOk(s) && s.Owners() == 0 && t in s.queue && t !in s.timed && MutexRun(s, steps, s')
    ensures s'.Owners() == 0 && t in s'.queue && t !in s'.timed
    decreases |steps|
  {
    if steps != [] {
      FreeStep(s, steps[0]);
      if steps[0].Timeout? {
        WithoutMeaning(s.queue, steps[0].t);
      }
      MutexKeeps(s, steps[0]);
      StuckStays(MutexNext(s, steps[0]), t, steps[1..], s');
    }
  }

  // ---------- semaphore ----------

  // The count of a semaphore and the threads between the two steps of a wait,
  // with the history that the count is about.
  datatype Sem = Sem(count: int, queue: seq<T>, timed: set<T>, granted: set<T>, timedOut: set<T>,
                     initial: nat, posts: nat, grants: nat) {
    predicate Uses(t: T) {
      t in queue || t in granted || t in timedOut
    }
    // What has been put in and not been handed out.
    function Available(): int {
      initial + posts - grants
    }
  }

  datatype SemStep =
    | Post
    | Wait(t: T, timed: bool, zero: bool)
    | TryWait(t: T)
    | SemTimeout(t: T)
    | SemResume(t: T)

  predicate SemEnabled(s: Sem, step: SemStep) {
    match step
    case Post => true
    case Wait(t, timed, zero) => !s.Uses(t) && (zero ==> timed)
    case TryWait(t) => !s.Uses(t)
    case SemTimeout(t) => t in s.queue && t in s.timed
    case SemResume(t) => t in s.granted || t in s.timedOut
  }

  function SemNext(s: Sem, step: SemStep): Sem {
    match step
    case Post =>
      if s.count + 1 <= 0 && s.queue != []
      then s.(count := s.count + 1, posts := s.posts + 1, grants := s.grants + 1, queue := s.queue[1..], granted := s.granted + {s.queue[0]})
      else s.(count := s.count + 1, posts := s.posts + 1)
    case Wait(t, timed, zero) =>
      if s.count > 0 then s.(count := s.count - 1, grants := s.grants + 1)
      else if zero then s
      else s.(count := s.count - 1, queue := s.queue + [t], timed := if timed then s.timed + {t} else s.timed - {t})
    case TryWait(t) => if s.count <= 0 then s else s.(count := s.count - 1, grants := s.grants + 1)
    case SemTimeout(t) => s.(queue := Without(s.queue, t), timedOut := s.timedOut + {t})
    case SemResume(t) =>
      if t in s.granted then s.(granted := s.granted - {t})
      else s.(count := s.count + 1, timedOut := s.timedOut - {t})
  }

  ghost predicate SemOk(s: Sem) {
    && s.count == s.Available() - |s.queue| - |s.timedOut|
    && s.grants <= s.initial + s.posts
    && Distinct(s.queue) && s.granted !! s.timedOut
    && (forall t :: t in s.queue ==> t !in s.granted && t !in s.timedOut)
  }

  lemma SemKeeps(s: Sem, step: SemStep)
    requires SemOk(s) && SemEnabled(s, step)
    ensures SemOk(SemNext(s, step))
  {
    match step
    case Post =>
      if s.queue != [] {
        assert s.queue[0] in s.queue;
      }
    case Wait(t, timed, zero) =>
    case TryWait(t) =>
    case SemTimeout(t) => WithoutMeaning(s.queue, t);
    case SemResume(t) =>
  }

  // Nobody waits while something is available.
  ghost predicate Served(s: Sem) {
    s.queue != [] ==> s.Available() == 0
  }

  // Exactly one kind of step makes a thread wait although something is
  // available: a wait while the count is still held down by timeouts.
  lemma WaitInVain(s: Sem, step: SemStep)
    requires SemOk(s) && SemEnabled(s, step) && Served(s)
    ensures !Served(SemNext(s, step)) <==> step.Wait? && !step.zero && s.count <= 0 && s.Available() > 0
  {
    match step
    case Post =>
    case Wait(t, timed, zero) =>
    case TryWait(t) =>
    case SemTimeout(t) =>
      WithoutMeaning(s.queue, t);
      assert s.queue != [];
    case SemResume(t) =>
  }

  ghost predicate SemRun(s: Sem, steps: seq<SemStep>, s': Sem)
    decreases |steps|
  {
    if steps == [] then s == s'
    else SemEnabled(s, steps[0]) && SemRun(SemNext(s, steps[0]), steps[1..], s')
  }

  lemma {:induction false} SemRunKeeps(s: Sem, steps: seq<SemStep>, s': Sem)
    requires SemOk(s) && SemRun(s, steps, s')
    ensures SemOk(s') && s'.initial == s.initial
    decreases |steps|
  {
    if steps != [] {
      SemKeeps(s, steps[0]);
      SemRunKeeps(SemNext(s, steps[0]), steps[1..], s');
    }
  }

  // If all waits are for ever, nobody ever waits for something available.
  lemma {:induction false} UntimedServed(s: Sem, steps: seq<SemStep>, s': Sem)
    requires SemOk(s) && Served(s) && s.timed == {} && s.timedOut == {} && SemRun(s, steps, s')
    requires forall k :: 0 <= k < |steps| ==> steps[k].Wait? ==> !steps[k].timed
    ensures Served(s') && s'.timedOut == {}
    decreases |steps|
  {
    if steps != [] {
      SemKeeps(s, steps[0]);
      WaitInVain(s, steps[0]);
      UntimedServed(SemNext(s, steps[0]), steps[1..], s');
    }
  }

  // A post wakes the first waiter if and only if the count is negative before.
  lemma PostWakes(s: Sem)
    requires SemOk(s) && s.queue != []
    ensures s.queue[0] in SemNext(s, Post).granted <==> s.count < 0
    ensures SemNext(s, Post).queue == if s.count < 0 then s.queue[1..] else s.queue
  {
    assert s.queue[0] in s.queue;
  }

  // A thread waits while the count is not negative.
  ghost predicate Forgotten(s: Sem) {
    s.queue != [] && s.count >= 0
  }

  // No step of the run makes a thread join the queue.
  ghost predicate NoneJoins(s: Sem, steps: seq<SemStep>)
    decreases |steps|
  {
    steps == [] || (!(steps[0].Wait? && !steps[0].zero && s.count <= 0) && NoneJoins(SemNext(s, steps[0]), steps[1..]))
  }

  // Until another thread joins the queue no step wakes anybody, whatever the
  // number of posts, and a thread without a timeout goes on waiting.
  lemma {:induction false} PostsInVain(s: Sem, steps: seq<SemStep>, s': Sem)
    requires SemOk(s) && s.count >= 0 && SemRun(s, steps, s') && NoneJoins(s, steps)
    ensures s'.count >= 0 && s'.granted <= s.granted
    ensures forall t :: t in s.queue && t !in s.timed ==> t in s'.queue && t !in s'.timed
    decreases |steps|
  {
    if steps != [] {
      if steps[0].SemTimeout? {
        WithoutMeaning(s.queue, steps[0].t);
      }
      SemKeeps(s, steps[0]);
      PostsInVain(SemNext(s, steps[0]), steps[1..], s');
    }
  }

  lemma {:induction false} OnlyPosts(s: Sem, n: nat)
    requires SemOk(s) && s.count >= 0
    ensures NoneJoins(s, seq(n, _ => Post)) && SemRun(s, seq(n, _ => Post), s.(count := s.count + n, posts := s.posts + n))
    decreases n
  {
    var steps := seq(n, _ => Post);
    if n > 0 {
      assert steps[1..] == seq(n - 1, _ => Post);
      SemKeeps(s, Post);
      OnlyPosts(SemNext(s, Post), n - 1);
    } else {
      assert steps == [];
    }
  }

  // Once another thread has joined, a post may wake the one that was forgotten.
  lemma JoinThenPost(s: Sem, t: T, timed: bool)
    requires SemOk(s) && Forgotten(s) && SemEnabled(s, Wait(t, timed, false))
    ensures var s' := SemNext(SemNext(s, Wait(t, timed, false)), Post);
      s.queue[0] in s'.granted <==> s.count == 0
  {
    SemKeeps(s, Wait(t, timed, false));
    assert s.queue[0] in s.queue;
  }

  lemma ForgottenWaiter() returns (s: Sem)
    ensures SemRun(Sem(0, [], {}, {}, {}, 0, 0, 0), [Wait(1, true, false), SemTimeout(1), Post, Wait(2, false, false), SemResume(1)], s)
    ensures Forgotten(s) && s.queue == [2]
  {
    var s0 := Sem(0, [], {}, {}, {}, 0, 0, 0);
    var s1 := SemNext(s0, Wait(1, true, false));
    var s2 := SemNext(s1, SemTimeout(1));
    var s3 := SemNext(s2, Post);
    var s4 := SemNext(s3, Wait(2, false, false));
    s := SemNext(s4, SemResume(1));
    var e: seq<SemStep> := [];
    assert SemRun(s, e, s);
    assert SemRun(s4, [SemResume(1)], s) by { assert [SemResume(1)][1..] == e; }
    SemCons(s3, Wait(2, false, false), [SemResume(1)], s);
    SemCons(s2, Post, [Wait(2, false, false), SemResume(1)], s);
    SemCons(s1, SemTimeout(1), [Post, Wait(2, false, false), SemResume(1)], s);
    SemCons(s0, Wait(1, true, false), [SemTimeout(1), Post, Wait(2, false, false), SemResume(1)], s);
  }

  lemma SemCons(s: Sem, step: SemStep, steps: seq<SemStep>, s': Sem)
    requires SemEnabled(s, step) && SemRun(SemNext(s, step), steps, s')
    ensures SemRun(s, [step] + steps, s')
  {
    assert ([step] + steps)[1..] == steps;
  }

  // ---------- the operations ----------

  const INFINITE_TIME: nat := 0xFFFF_FFFF

  class MutexLock {
    var count: int
    var holder: Option<T>
    var queue: seq<T>
    ghost var timed: set<T>      // waiters with a timeout
    ghost var handed: set<T>     // woken with the mutex and not yet running
    ghost var timedOut: set<T>   // woken by the timeout and not yet running

    ghost function State(): Mutex
      reads this
    {
      Mutex(count, holder, queue, timed, handed, timedOut)
    }

    ghost predicate Valid()
      reads this
    {
      MutexOk(State())
    }

    constructor ()
      ensures Valid() && State() == FREE_MUTEX
    {
      count, holder, queue, timed, handed, timedOut := 0, None, [], {}, {}, {};
    }

    // mutex_acquire_timeout up to the switch; None when the thread has blocked.
    method Acquire(t: T, timeout: nat) returns (r: Option<Status>)
      requires Valid() && !State().Uses(t)
      modifies this
      ensures Valid() && State() == MutexNext(old(State()), MutexStep.Acquire(t, timeout != INFINITE_TIME, timeout == 0))
      ensures r == Some(NoError) <==> old(count) == 0
      ensures r == None <==> old(count) != 0 && timeout != 0
      ensures r == Some(NoError) ==> holder == Some(t) && count == 1 && queue == old(queue)
      ensures r == None ==> queue == old(queue) + [t] && count == old(count) + 1 && holder == old(holder)
      ensures r == None ==> (t in timed <==> timeout != INFINITE_TIME) && forall u :: u != t ==> (u in timed <==> u in old(timed))
      ensures r.Some? && r != Some(NoError) ==> r == Some(ErrTimedOut) && queue == old(queue) && count == old(count) && holder == old(holder)
      ensures handed == old(handed) && timedOut == old(timedOut) && (r.Some? ==> timed == old(timed))
    {
      MutexKeeps(State(), MutexStep.Acquire(t, timeout != INFINITE_TIME, timeout == 0));
      count := count + 1;
      if count > 1 {
        if timeout == 0 {
          count := count - 1;
          return Some(ErrTimedOut);
        }
        queue := queue + [t];
        timed := if timeout != INFINITE_TIME then timed + {t} else timed - {t};
        return None;
      }
      holder := Some(t);
      return Some(NoError);
    }

    // mutex_acquire_timeout once the thread runs again with what it was woken
    // with.
    method AcquireResume(t: T, ret: Status)
      requires Valid() && (t in handed || t in timedOut) && (ret == ErrTimedOut <==> t in timedOut)
      modifies this
      ensures Valid() && State() == MutexNext(old(State()), MutexStep.Resume(t))
      ensures queue == old(queue) && timed == old(timed)
      ensures ret != ErrTimedOut ==> holder == Some(t) && count == old(count) && handed == old(handed) - {t} && timedOut == old(timedOut)
      ensures ret == ErrTimedOut ==> holder == old(holder) && count == old(count) - 1 && handed == old(handed) && timedOut == old(timedOut) - {t}
    {
      MutexKeeps(State(), MutexStep.Resume(t));
      if ret == ErrTimedOut {
        count := count - 1;
        timedOut := timedOut - {t};
      } else {
        holder := Some(t);
        handed := handed - {t};
      }
    }

    // mutex_release
    method Release(t: T)
      requires Valid() && holder == Some(t)
      modifies this
      ensures Valid() && State() == MutexNext(old(State()), MutexStep.Release(t))
      ensures holder == None && count == old(count) - 1 && timed == old(timed) && timedOut == old(timedOut)
      ensures if old(queue) == [] then queue == [] && handed == {} else queue == old(queue)[1..] && handed == {old(queue)[0]}
    {
      MutexKeeps(State(), MutexStep.Release(t));
      HandsOver(State(), t);
      holder := None;
      count := count - 1;
      if count >= 1 {
        if queue != [] {
          handed := handed + {queue[0]};
          queue := queue[1..];
        }
      }
    }

    // wait_queue_timeout_handler for a thread that waits for the mutex.
    method TimeOut(t: T)
      requires Valid() && t in queue && t in timed
      modifies this
      ensures Valid() && State() == MutexNext(old(State()), MutexStep.Timeout(t))
      ensures count == old(count) && holder == old(holder) && handed == old(handed) && timed == old(timed)
      ensures TakenOut(old(queue), queue, t) && timedOut == old(timedOut) + {t}
    {
      WithoutSplits(queue, t);
      MutexKeeps(State(), MutexStep.Timeout(t));
      queue := Without(queue, t);
      timedOut := timedOut + {t};
    }
  }

  class Semaphore {
    var count: int
    var queue: seq<T>
    var timed: set<T>            // waiters with a timeout
    var granted: set<T>          // woken by a post and not yet running
    var timedOut: set<T>         // woken by the timeout and not yet running
    ghost var initial: nat
    ghost var posts: nat
    ghost var grants: nat

    ghost function State(): Sem
      reads this
    {
      Sem(count, queue, timed, granted, timedOut, initial, posts, grants)
    }

    ghost predicate Valid()
      reads this
    {
      SemOk(State())
    }

    constructor (value: nat)
      ensures Valid() && State() == Sem(value, [], {}, {}, {}, value, 0, 0)
    {
      count, queue, timed, granted, timedOut := value, [], {}, {}, {};
      initial, posts, grants := value, 0, 0;
    }

    // sem_post: how many threads it has woken.
    method Post() returns (woken: nat)
      requires Valid() && count < 0x7FFF_FFFF
      modifies this
      ensures Valid() && State() == SemNext(old(State()), SemStep.Post)
      ensures woken == (if old(count) < 0 && old(queue) != [] then 1 else 0)
      ensures count == old(count) + 1 && posts == old(posts) + 1 && grants == old(grants) + woken && initial == old(initial)
      ensures woken == 0 ==> queue == old(queue) && granted == old(granted)
      ensures woken == 1 ==> queue == old(queue)[1..] && granted == old(granted) + {old(queue)[0]}
      ensures timed == old(timed) && timedOut == old(timedOut)
    {
      SemKeeps(State(), SemStep.Post);
      woken := 0;
      count := count + 1;
      posts := posts + 1;
      if count <= 0 {
        if queue != [] {
          granted, grants := granted + {queue[0]}, grants + 1;
          queue := queue[1..];
          woken := 1;
        }
      }
    }

    // sem_wait and sem_timedwait up to the switch.
    method Wait(t: T, timeout: nat) returns (r: Option<Status>)
      requires Valid() && !State().Uses(t)
      modifies this
      ensures Valid() && State() == SemNext(old(State()), SemStep.Wait(t, timeout != INFINITE_TIME, timeout == 0))
      ensures r == Some(NoError) <==> old(count) > 0
      ensures r == None <==> old(count) <= 0 && timeout != 0
      ensures r == Some(NoError) ==> count == old(count) - 1 && grants == old(grants) + 1 && queue == old(queue)
      ensures r == None ==> count == old(count) - 1 && grants == old(grants) && queue == old(queue) + [t]
      ensures r == None ==> (t in timed <==> timeout != INFINITE_TIME) && forall u :: u != t ==> (u in timed <==> u in old(timed))
      ensures r.Some? && r != Some(NoError) ==> r == Some(ErrTimedOut) && State() == old(State())
      ensures posts == old(posts) && initial == old(initial) && granted == old(granted) && timedOut == old(timedOut)
      ensures r.Some? ==> timed == old(timed)
    {
      SemKeeps(State(), SemStep.Wait(t, timeout != INFINITE_TIME, timeout == 0));
      count := count - 1;
      if count < 0 {
        if timeout == 0 {
          count := count + 1;
          return Some(ErrTimedOut);
        }
        queue := queue + [t];
        timed := if timeout != INFINITE_TIME then timed + {t} else timed - {t};
        return None;
      }
      grants := grants + 1;
      return Some(NoError);
    }

    // sem_trywait
    method TryWait(t: T) returns (status: Status)
      requires Valid() && !State().Uses(t)
      modifies this
      ensures Valid() && State() == SemNext(old(State()), SemStep.TryWait(t))
      ensures status == if old(count) <= 0 then ErrNotReady else NoError
      ensures status == NoError ==> count == old(count) - 1 && grants == old(grants) + 1
      ensures status != NoError ==> count == old(count) && grants == old(grants)
      ensures posts == old(posts) && initial == old(initial) && queue == old(queue)
      ensures timed == old(timed) && granted == old(granted) && timedOut == old(timedOut)
    {
      SemKeeps(State(), SemStep.TryWait(t));
      if count <= 0 {
        return ErrNotReady;
      }
      count := count - 1;
      grants := grants + 1;
      status := NoError;
    }

    // sem_timedwait once the thread runs again.
    method WaitResume(t: T, ret: Status)
      requires Valid() && (t in granted || t in timedOut) && (ret == ErrTimedOut <==> t in timedOut)
      modifies this
      ensures Valid() && State() == SemNext(old(State()), SemStep.SemResume(t))
      ensures posts == old(posts) && initial == old(initial) && grants == old(grants) && queue == old(queue) && timed == old(timed)
      ensures ret != ErrTimedOut ==> count == old(count) && granted == old(granted) - {t} && timedOut == old(timedOut)
      ensures ret == ErrTimedOut ==> count == old(count) + 1 && granted == old(granted) && timedOut == old(timedOut) - {t}
    {
      SemKeeps(State(), SemStep.SemResume(t));
      if ret == ErrTimedOut {
        count := count + 1;
        timedOut := timedOut - {t};
      } else {
        granted := granted - {t};
      }
    }

    method TimeOut(t: T)
      requires Valid() && t in queue && t in timed
      modifies this
      ensures Valid() && State() == SemNext(old(State()), SemStep.SemTimeout(t))
      ensures count == old(count) && posts == old(posts) && initial == old(initial) && grants == old(grants)
      ensures timed == old(timed) && granted == old(granted)
      ensures TakenOut(old(queue), queue, t) && timedOut == old(timedOut) + {t}
    {
      WithoutSplits(queue, t);
      SemKeeps(State(), SemStep.SemTimeout(t));
      queue := Without(queue, t);
      timedOut := timedOut + {t};
    }
  }

  // ---------- what a semaphore gives over any sequence of calls ----------

  datatype Call =
    | CallPost
    | CallWait(t: T, timeout: nat)
    | CallTryWait(t: T)
    | CallTimeOut(t: T)
    | CallResume(t: T)

  function PostsIn(calls: seq<Call>): nat {
    if calls == [] then 0 else PostsIn(calls[..|calls| - 1]) + (if calls[|calls| - 1].CallPost? then 1 else 0)
  }

  function Successes(results: seq<Option<Status>>): nat {
    if results == [] then 0
    else Successes(results[..|results| - 1]) + (if results[|results| - 1] == Some(NoError) then 1 else 0)
  }

  // Calls whose thread is in the middle of another one, or not in the middle of
  // the one it would continue, are passed over.
  method Serve(s: Semaphore, calls: seq<Call>) returns (results: seq<Option<Status>>, woken: nat)
    requires s.Valid() && s.count + |calls| <= 0x7FFF_FFFF
    modifies s
    ensures s.Valid() && |results| == |calls|
    ensures s.grants == old(s.grants) + Successes(results) + woken
    ensures s.posts == old(s.posts) + PostsIn(calls) && s.initial == old(s.initial)
    ensures Successes(results) + woken <= old(s.initial + s.posts - s.grants) + PostsIn(calls)
  {
    results, woken := [], 0;
    var k := 0;
    while k < |calls|
      invariant 0 <= k <= |calls| && |results| == k
      invariant s.Valid() && s.count + |calls| - k <= 0x7FFF_FFFF
      invariant s.grants == old(s.grants) + Successes(results) + woken
      invariant s.posts == old(s.posts) + PostsIn(calls[..k]) && s.initial == old(s.initial)
    {
      hide SemNext, SemOk;
      var n, r := 0, None;
      match calls[k] {
        case CallPost => n := s.Post();
        case CallWait(t, timeout) =>
          if t !in s.queue && t !in s.granted && t !in s.timedOut {
            r := s.Wait(t, timeout);
          }
        case CallTryWait(t) =>
          if t !in s.queue && t !in s.granted && t !in s.timedOut {
            var status := s.TryWait(t);
            r := Some(status);
          }
        case CallTimeOut(t) =>
          if t in s.queue && t in s.timed {
            s.TimeOut(t);
          }
        case CallResume(t) =>
          if t in s.granted || t in s.timedOut {
            s.WaitResume(t, if t in s.timedOut then ErrTimedOut else NoError);
          }
      }
      assert calls[..k + 1][..k] == calls[..k] && (results + [r])[..k] == results;
      results, woken, k := results + [r], woken + n, k + 1;
    }
    assert calls[..k] == calls;
  }
}
