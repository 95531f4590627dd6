/** The futex-style mutex of lai/core/exec_impl.h, as interleaved atomic steps of any number of
threads.
*/
module Mutex {
  const LOCKED: nat := 1
  const CONTENDED: nat := 2

  /** Where a thread is between two atomic steps.  `v` is its local copy of the word. */
  datatype Thread =
    | Idle
    | Locking(v: nat)    // at the top of the loop of lai_mutex_lock
    | Blocked(v: nat)    // in laihost_sync_wait
    | Owner              // lai_mutex_lock has returned 0
    | Unlocking(v: nat)  // after the exchange in lai_mutex_unlock
    | Panicked

  datatype State = State(val: nat, threads: seq<Thread>)

  predicate HasLocked(v: nat) { v % 2 == 1 }

  predicate HasContended(v: nat) { v / 2 % 2 == 1 }

  /** One atomic step of thread t.  `timeout` is what a wait returns. */
  function Step(s: State, t: nat, timeout: bool): State
    requires t < |s.threads|
  {
    match s.threads[t]
    case Idle => s.(threads := s.threads[t := Locking(s.val)])
    case Locking(v) =>
      if v > 3 then s.(threads := s.threads[t := Panicked])
      else if !HasLocked(v) then
        if s.val == v then State(LOCKED, s.threads[t := Owner])
        else s.(threads := s.threads[t := Locking(s.val)])
      else if !HasContended(v) then
        if s.val == v then State(LOCKED + CONTENDED, s.threads[t := Blocked(v)])
        else s.(threads := s.threads[t := Locking(s.val)])
      else s.(threads := s.threads[t := Blocked(v)])
    case Blocked(v) => s.(threads := s.threads[t := if timeout then Idle else Locking(v)])
    case Owner => State(0, s.threads[t := Unlocking(s.val)])
    case Unlocking(v) =>
      if v > 3 || !HasLocked(v) then s.(threads := s.threads[t := Panicked])
      else s.(threads := s.threads[t := Idle])
    case Panicked => s
  }

  /** A schedule: which thread moves next, and how its wait ends. */
  type Schedule = seq<(nat, bool)>

  function Run(s: State, schedule: Schedule): State
    decreases schedule
  {
    if schedule == [] then s
    else if schedule[0].0 >= |s.threads| then Run(s, schedule[1..])
    else Run(Step(s, schedule[0].0, schedule[0].1), schedule[1..])
  }

  predicate Word(v: nat) { v == 0 || v == LOCKED || v == LOCKED + CONTENDED }

  predicate ThreadOk(x: Thread) {
    match x
    case Idle => true
    case Locking(v) => Word(v)
    case Blocked(v) => Word(v) && HasLocked(v)
    case Owner => true
    case Unlocking(v) => Word(v) && HasLocked(v)
    case Panicked => false
  }

  ghost predicate Inv(s: State) {
    && Word(s.val)
    && (forall t :: 0 <= t < |s.threads| ==> ThreadOk(s.threads[t]))
    && (s.val == 0 <==> forall t :: 0 <= t < |s.threads| ==> !s.threads[t].Owner?)
    && (forall t, u :: 0 <= t < u < |s.threads| ==>
          !(s.threads[t].Owner? && s.threads[u].Owner?))
  }

  lemma StepKeeps(s: State, t: nat, timeout: bool)
    requires Inv(s) && t < |s.threads|
    ensures Inv(Step(s, t, timeout)) && |Step(s, t, timeout).threads| == |s.threads|
  {
    var r := Step(s, t, timeout);
    assert ThreadOk(s.threads[t]);
    if r.threads[t].Owner? {
      assert s.val == 0;
    } else if s.threads[t].Owner? {
      assert r.val == 0;
    } else if s.val != 0 {
      var w :| 0 <= w < |s.threads| && s.threads[w].Owner?;
      assert r.threads[w].Owner?;
    }
  }

  lemma {:induction false} RunKeeps(s: State, schedule: Schedule)
    requires Inv(s)
    ensures Inv(Run(s, schedule)) && |Run(s, schedule).threads| == |s.threads|
    decreases schedule
  {
    if schedule != [] {
      var t := schedule[0].0;
      if t < |s.threads| {
        StepKeeps(s, t, schedule[0].1);
        RunKeeps(Step(s, t, schedule[0].1), schedule[1..]);
      } else {
        RunKeeps(s, schedule[1..]);
      }
    }
  }

  function Start(n: nat): State { State(0, seq(n, _ => Idle)) }

  /** However the steps of any number of threads are interleaved, the word is 0, LOCKED or
      LOCKED|CONTENDED; it is non-zero exactly while some thread owns the mutex; two threads never
      own it together; and no check fails. */
  lemma MutualExclusion(n: nat, schedule: Schedule)
    ensures var s := Run(Start(n), schedule);
      && (s.val == 0 || s.val == LOCKED || s.val == LOCKED + CONTENDED)
      && (s.val != 0 <==> exists t :: 0 <= t < |s.threads| && s.threads[t].Owner?)
      && (forall t, u :: 0 <= t < u < |s.threads| ==>
            !(s.threads[t].Owner? && s.threads[u].Owner?))
      && (forall t :: 0 <= t < |s.threads| ==> !s.threads[t].Panicked?)
  {
    RunKeeps(Start(n), schedule);
  }

  /** A thread owns the mutex only by an exchange that found the word 0, and while it does, no other
      thread's step releases or takes it. */
  lemma OtherStep(s: State, t: nat, u: nat, timeout: bool)
    requires Inv(s) && t < |s.threads| && u < |s.threads| && t != u && s.threads[t].Owner?
    ensures var r := Step(s, u, timeout);
      r.threads[t].Owner? && !r.threads[u].Owner? && r.val != 0
  {
    StepKeeps(s, u, timeout);
    assert Step(s, u, timeout).threads[t].Owner?;
  }

  /** While a thread owns the mutex, nothing that the others do, however long, releases it or lets
      one of them take it. */
  lemma {:induction false} OthersCannotInterfere(s: State, t: nat, schedule: Schedule)
    requires Inv(s) && t < |s.threads| && s.threads[t].Owner?
    requires forall i :: 0 <= i < |schedule| ==> schedule[i].0 != t
    ensures var r := Run(s, schedule);
      && |r.threads| == |s.threads| && r.val != 0 && r.threads[t].Owner?
      && forall u :: 0 <= u < |r.threads| && u != t ==> !r.threads[u].Owner?
    decreases schedule
  {
    if schedule != [] {
      var u := schedule[0].0;
      assert forall i :: 0 <= i < |schedule| - 1 ==> schedule[1..][i] == schedule[i + 1];
      if u < |s.threads| {
        OtherStep(s, t, u, schedule[0].1);
        StepKeeps(s, u, schedule[0].1);
        OthersCannotInterfere(Step(s, u, schedule[0].1), t, schedule[1..]);
      } else {
        OthersCannotInterfere(s, t, schedule[1..]);
      }
    }
  }
}
