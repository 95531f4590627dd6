/** The counting event of lai/core/exec_impl.h, as interleaved atomic steps of any number of threads.
*/
module Event {
  const COUNT: nat := 0x7FFF_FFFF
  const WAITERS: nat := 0x8000_0000

  /** Where a thread is between two atomic steps.  `v` is its local copy of the word. */
  datatype Thread =
    | Idle
    | Waiting(v: nat)    // at the top of the loop of lai_event_wait
    | Blocked(v: nat)    // in laihost_sync_wait
    | Signalling(v: nat) // at the top of the loop of lai_event_signal
    | Resetting(v: nat)  // at the top of the loop of lai_event_reset
    | Overflow           // the check against overflow in lai_event_signal has failed
    | Panicked           // another check has failed

  /** The word, the threads, and how often a signal or a wait has succeeded and how much of the
      count resets have thrown away. */
  datatype State = State(val: nat, threads: seq<Thread>, signals: nat, waits: nat, discarded: nat)

  /** What an idle thread does next, or how a wait ends. */
  datatype Choice = Wait | Signal | Reset | WaitEnds(timeout: bool)

  function Count(v: nat): nat { v % WAITERS }

  predicate HasWaiters(v: nat) { v >= WAITERS }

  function Go(s: State, t: nat, x: Thread): State
    requires t < |s.threads|
  {
    s.(threads := s.threads[t := x])
  }

  /** One atomic step of thread t. */
  function Step(s: State, t: nat, c: Choice): State
    requires t < |s.threads|
  {
    match s.threads[t]
    case Idle =>
      (match c
       case Wait => Go(s, t, Waiting(s.val))
       case Signal => Go(s, t, Signalling(s.val))
       case Reset => Go(s, t, Resetting(s.val))
       case WaitEnds(_) => s)
    case Waiting(v) =>
      if Count(v) > 0 then
        if HasWaiters(v) then Go(s, t, Panicked)
        else if s.val == v then Go(s, t, Idle).(val := v - 1, waits := s.waits + 1)
        else Go(s, t, Waiting(s.val))
      else if !HasWaiters(v) then
        if s.val == v then Go(s, t, Blocked(v)).(val := WAITERS)
        else Go(s, t, Waiting(s.val))
      else Go(s, t, Blocked(v))
    case Blocked(v) =>
      if c.WaitEnds? then Go(s, t, if c.timeout then Idle else Waiting(v)) else s
    case Signalling(v) =>
      if !HasWaiters(v) then
        if v + 1 > COUNT then Go(s, t, Overflow)
        else if s.val == v then Go(s, t, Idle).(val := v + 1, signals := s.signals + 1)
        else Go(s, t, Signalling(s.val))
      else if Count(v) > 0 then Go(s, t, Panicked)
      else if s.val == v then Go(s, t, Idle).(val := 1, signals := s.signals + 1)
      else Go(s, t, Signalling(s.val))
    case Resetting(v) =>
      if !HasWaiters(v) then
        if Count(v) > 0 && s.val != v then Go(s, t, Resetting(s.val))
        else if Count(v) > 0 then Go(s, t, Idle).(val := 0, discarded := s.discarded + v)
        else Go(s, t, Idle)
      else if Count(v) > 0 then Go(s, t, Panicked)
      else Go(s, t, Idle)
    case Overflow => s
    case Panicked => s
  }

  type Schedule = seq<(nat, Choice)>

  function Run(s: State, schedule: Schedule): State
    decreases schedule
  {
    if schedule == [] then s
    else if schedule[0].0 >= |s.threads| then Run(s, schedule[1..])
    else Run(Step(s, schedule[0].0, schedule[0].1), schedule[1..])
  }

  /** A count without the waiters bit, or the waiters bit alone. */
  predicate Word(v: nat) { v <= COUNT || v == WAITERS }

  predicate ThreadOk(x: Thread) {
    match x
    case Idle => true
    case Waiting(v) => Word(v)
    case Blocked(v) => Word(v) && Count(v) == 0
    case Signalling(v) => Word(v)
    case Resetting(v) => Word(v)
    case Overflow => true
    case Panicked => false
  }

  ghost predicate Inv(s: State) {
    && Word(s.val) && s.signals == s.waits + s.discarded + Count(s.val)
    && forall t :: 0 <= t < |s.threads| ==> ThreadOk(s.threads[t])
  }

  lemma StepKeeps(s: State, t: nat, c: Choice)
    requires Inv(s) && t < |s.threads|
    ensures Inv(Step(s, t, c)) && |Step(s, t, c).threads| == |s.threads|
  {
    assert ThreadOk(s.threads[t]);
  }

  lemma {:induction false} RunKeeps(s: State, schedule: Schedule)
    requires Inv(s)
    ensures Inv(Run(s, schedule)) && |Run(s, schedule).threads| == |s.threads|
    decreases schedule
  {
    if schedule != [] {
      var t := schedule[0].0;
      if t < |s.threads| {
        StepKeeps(s, t, schedule[0].1);
        RunKeeps(Step(s, t, schedule[0].1), schedule[1..]);
      } else {
        RunKeeps(s, schedule[1..]);
      }
    }
  }

  function Start(n: nat): State { State(0, seq(n, _ => Idle), 0, 0, 0) }

  /** However the steps of any number of threads are interleaved, the count is the number of
      successful signals minus that of successful waits minus what resets have discarded; a positive
      count never coexists with the waiters bit; and no check fails but the one against overflow. */
  lemma CountIsExact(n: nat, schedule: Schedule)
    ensures var s := Run(Start(n), schedule);
      && Count(s.val) == s.signals - s.waits - s.discarded
      && !(Count(s.val) > 0 && HasWaiters(s.val))
      && forall t :: 0 <= t < |s.threads| ==> !s.threads[t].Panicked?
  {
    RunKeeps(Start(n), schedule);
  }

  /** The overflow check fails exactly when the thread has seen the largest count. */
  lemma OverflowExactly(s: State, t: nat, c: Choice)
    requires Inv(s) && t < |s.threads| && !s.threads[t].Overflow?
    ensures Step(s, t, c).threads[t].Overflow? <==> s.threads[t] == Signalling(COUNT)
  {
    assert ThreadOk(s.threads[t]);
  }

  /** The count a thread has seen was there at some time, so as many signals have succeeded. */
  predicate SeenOk(s: State, x: Thread) {
    match x
    case Waiting(v) => Count(v) <= s.signals
    case Signalling(v) => Count(v) <= s.signals
    case Resetting(v) => Count(v) <= s.signals
    case Overflow => s.signals >= COUNT
    case _ => true
  }

  ghost predicate AllSeen(s: State) {
    Inv(s) && forall t :: 0 <= t < |s.threads| ==> SeenOk(s, s.threads[t])
  }

  lemma SeenKeeps(s: State, t: nat, c: Choice)
    requires AllSeen(s) && t < |s.threads|
    ensures AllSeen(Step(s, t, c)) && |Step(s, t, c).threads| == |s.threads|
  {
    StepKeeps(s, t, c);
    assert SeenOk(s, s.threads[t]);
    if !s.threads[t].Overflow? { OverflowExactly(s, t, c); }
    forall u | 0 <= u < |s.threads| ensures SeenOk(Step(s, t, c), Step(s, t, c).threads[u]) {
      assert SeenOk(s, s.threads[u]);
    }
  }

  lemma {:induction false} RunSeen(s: State, schedule: Schedule)
    requires AllSeen(s)
    ensures AllSeen(Run(s, schedule))
    decreases schedule
  {
    if schedule != [] {
      var t := schedule[0].0;
      if t < |s.threads| {
        SeenKeeps(s, t, schedule[0].1);
        RunSeen(Step(s, t, schedule[0].1), schedule[1..]);
      } else {
        RunSeen(s, schedule[1..]);
      }
    }
  }

  /** However the steps are interleaved, the check against overflow does not fail before 2^31 - 1
      signals have succeeded. */
  lemma NoEarlyOverflow(n: nat, schedule: Schedule)
    ensures var s := Run(Start(n), schedule);
      s.signals < COUNT ==> forall t :: 0 <= t < |s.threads| ==> !s.threads[t].Overflow?
  {
    RunSeen(Start(n), schedule);
    var s := Run(Start(n), schedule);
    forall t | 0 <= t < |s.threads| && s.signals < COUNT ensures !s.threads[t].Overflow? {
      assert SeenOk(s, s.threads[t]);
    }
  }
}
