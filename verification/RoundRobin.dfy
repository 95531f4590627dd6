/** The kernel's scheduler (base/core/scheduler.cpp) as a function of its task list, for runs in which
no task is killed.
*/
module RoundRobin {
  import opened Bits

  /** The saved registers; `rest` is what a dispatch does not set for a new task. */
  datatype Regs = Regs(eax: nat, ebx: nat, ecx: nat, edi: nat, ebp: nat, esp: nat, eip: nat,
                       rest: nat)

  datatype Status = Created | Pending | Running

  datatype Entry = Entry(status: Status, regs: Regs, stack: nat, entry: nat)

  /** The tasks in list order and the position of the current one. */
  datatype State = State(tasks: seq<Entry>, cur: nat)

  /** Registers with which a new task starts. */
  function FirstRegs(x: Entry, regs: Regs): Regs {
    Regs(0, 0, 0, 0, 0, x.stack, x.entry, regs.rest)
  }

  function Next(s: State): nat { if s.cur + 1 < |s.tasks| then s.cur + 1 else 0 }

  /** One timer tick that interrupted `regs`: the new state and the registers to return to. */
  function Tick(s: State, regs: Regs): (State, Regs)
    requires s.cur < |s.tasks|
  {
    var x := s.tasks[s.cur];
    if x.status.Created? then
      (s.(tasks := s.tasks[s.cur := x.(status := Running)]), FirstRegs(x, regs))
    else
      var saved := s.tasks[s.cur := x.(regs := regs, status := Pending)];
      var n := Next(s);
      var y := saved[n];
      (State(saved[n := y.(status := Running)], n),
       if y.status.Created? then FirstRegs(y, regs) else y.regs)
  }

  /** create_task. */
  function Create(s: State, stack: nat, entry: nat, regs: Regs): State {
    s.(tasks := s.tasks + [Entry(Created, regs, stack, entry)])
  }

  datatype Event = Timer(regs: Regs) | New(stack: nat, entry: nat, regs: Regs)

  function Apply(s: State, e: Event): (r: State)
    requires s.cur < |s.tasks|
    ensures r.cur < |r.tasks| && |r.tasks| >= |s.tasks|
  {
    match e
    case Timer(regs) => Tick(s, regs).0
    case New(stack, entry, regs) => Create(s, stack, entry, regs)
  }

  function Run(s: State, events: seq<Event>): (r: State)
    requires s.cur < |s.tasks|
    ensures r.cur < |r.tasks| && |r.tasks| >= |s.tasks|
    decreases events
  {
    if events == [] then s else Run(Apply(s, events[0]), events[1..])
  }

  function Ticks(events: seq<Event>): nat {
    if events == [] then 0 else (if events[0].Timer? then 1 else 0) + Ticks(events[1..])
  }

  // ---------------------------------------------------------------------------------------
  // Exactly the current task runs
  // ---------------------------------------------------------------------------------------

  /** After the first tick. */
  predicate Started(s: State) {
    s.cur < |s.tasks|
    && forall i :: 0 <= i < |s.tasks| ==> (s.tasks[i].status.Running? <==> i == s.cur)
  }

  lemma {:induction false} KeepsStarted(s: State, events: seq<Event>)
    requires Started(s)
    ensures Started(Run(s, events))
    decreases events
  {
    if events != [] {
      var t := Apply(s, events[0]);
      assert Started(t);
      KeepsStarted(t, events[1..]);
    }
  }

  /** Before the first tick no task has run. */
  predicate Waiting(s: State) {
    s.cur < |s.tasks| && forall i :: 0 <= i < |s.tasks| ==> s.tasks[i].status.Created?
  }

  lemma FirstTick(s: State, regs: Regs)
    requires Waiting(s)
    ensures Started(Tick(s, regs).0) && Tick(s, regs).0.cur == s.cur
  {
  }

  lemma {:induction false} BecomesStarted(s: State, events: seq<Event>)
    requires Waiting(s)
    ensures if Ticks(events) == 0 then Waiting(Run(s, events)) else Started(Run(s, events))
    decreases events
  {
    if events != [] {
      var t := Apply(s, events[0]);
      if events[0].Timer? {
        FirstTick(s, events[0].regs);
        KeepsStarted(t, events[1..]);
      } else {
        assert Waiting(t);
        BecomesStarted(t, events[1..]);
      }
    }
  }

  /** sched_init: the idle task alone. */
  function Init(stack: nat, idle: nat, zero: Regs): (s: State)
    ensures s.cur < |s.tasks|
  {
    State([Entry(Created, zero, stack, idle)], 0)
  }

  /** From sched_init on, through every run of ticks and creations, exactly the current task is
      running once there has been a tick, and none before. */
  lemma StaysStarted(stack: nat, idle: nat, zero: Regs, events: seq<Event>)
    ensures var s := Run(Init(stack, idle, zero), events);
      if Ticks(events) == 0 then Waiting(s) else Started(s)
  {
    BecomesStarted(Init(stack, idle, zero), events);
  }

  // ---------------------------------------------------------------------------------------
  // When a task is dispatched
  // ---------------------------------------------------------------------------------------

  /** Until the end of the list as it was, every tick moves one task on, however many tasks are
      created meanwhile: a task ahead is dispatched after exactly its distance. */
  lemma {:induction false} Ahead(s: State, events: seq<Event>)
    requires Started(s) && s.cur + Ticks(events) < |s.tasks|
    ensures Run(s, events).cur == s.cur + Ticks(events)
    decreases events
  {
    if events != [] {
      var t := Apply(s, events[0]);
      assert Started(t);
      Ahead(t, events[1..]);
    }
  }

  /** The list, as it grows, does not end under the current task before the last of the events. */
  predicate Forward(s: State, events: seq<Event>)
    requires s.cur < |s.tasks|
    decreases events
  {
    events == []
    || ((events[0].Timer? ==> s.cur + 1 < |s.tasks|) && Forward(Apply(s, events[0]), events[1..]))
  }

  /** Up to there every tick moves one task on, and every new task is behind the others. */
  lemma {:induction false} MovesOn(s: State, events: seq<Event>)
    requires Started(s) && Forward(s, events)
    ensures Ticks(events) <= |events|
    ensures Run(s, events).cur == s.cur + Ticks(events)
    ensures |Run(s, events).tasks| == |s.tasks| + |events| - Ticks(events)
    decreases events
  {
    if events != [] {
      var t := Apply(s, events[0]);
      assert Started(t);
      MovesOn(t, events[1..]);
    }
  }

  lemma {:induction false} RunSplit(s: State, a: seq<Event>, b: seq<Event>)
    requires s.cur < |s.tasks|
    ensures Run(s, a + b) == Run(Run(s, a), b) && Ticks(a + b) == Ticks(a) + Ticks(b)
    decreases a
  {
    if a == [] {
      assert a + b == b;
    } else {
      assert (a + b)[0] == a[0] && (a + b)[1..] == a[1..] + b;
      RunSplit(Apply(s, a[0]), a[1..], b);
    }
  }

  /** A task behind the current one, at position p, is dispatched after the ticks to the end of the
      list and p more: every task created before the wrap delays it by exactly one tick, those
      created after the wrap do not. */
  lemma Behind(s: State, before: seq<Event>, regs: Regs, after: seq<Event>)
    requires Started(s) && Forward(s, before) && Ticks(after) < |s.tasks|
    requires Run(s, before).cur == |Run(s, before).tasks| - 1
    ensures var events := before + ([Timer(regs)] + after);
      && Run(s, events).cur == Ticks(after)
      && Ticks(events) == |s.tasks| - s.cur + (|before| - Ticks(before)) + Ticks(after)
  {
    var wrap := [Timer(regs)];
    MovesOn(s, before);
    KeepsStarted(s, before);
    var t := Run(s, before);
    RunSplit(s, before, wrap + after);
    assert (wrap + after)[0] == Timer(regs) && (wrap + after)[1..] == after;
    var u := Apply(t, Timer(regs));
    assert Started(u) && u.cur == 0 && |u.tasks| >= |s.tasks|;
    Ahead(u, after);
  }

  predicate NoNew(events: seq<Event>) { forall i :: 0 <= i < |events| ==> events[i].Timer? }

  /** While no task is created, the current task after some ticks is the one at that cyclic
      distance. */
  lemma {:induction false} Cyclic(s: State, events: seq<Event>)
    requires Started(s) && NoNew(events)
    ensures Run(s, events).cur == (s.cur + |events|) % |s.tasks|
    decreases events
  {
    if events != [] {
      var t := Apply(s, events[0]);
      assert Started(t) && |t.tasks| == |s.tasks| && t.cur == Next(s);
      RingStep(s.cur, |events|, |s.tasks|);
      Cyclic(t, events[1..]);
    } else {
      BelowModulus(s.cur, |s.tasks|);
    }
  }

  lemma BelowModulus(c: nat, n: nat)
    requires c < n
    ensures c % n == c
  {
    DivUnique(c, n, 0, c);
  }

  /** One step around a ring of n places. */
  lemma RingStep(c: nat, k: nat, n: nat)
    requires c < n && k > 0
    ensures (c + k) % n == ((if c + 1 < n then c + 1 else 0) + (k - 1)) % n
  {
    if c + 1 == n {
      var a := k - 1;
      DivMod(a, n);
      assert (a / n + 1) * n == a / n * n + n;
      DivUnique(a + n, n, a / n + 1, a % n);
    }
  }

  // ---------------------------------------------------------------------------------------
  // What a task resumes with
  // ---------------------------------------------------------------------------------------

  /** The task at position p is not dispatched by any of the events. */
  predicate Passed(s: State, events: seq<Event>, p: nat)
    requires s.cur < |s.tasks|
    decreases events
  {
    s.cur != p && (events == [] || Passed(Apply(s, events[0]), events[1..], p))
  }

  lemma {:induction false} EntryStays(s: State, events: seq<Event>, p: nat)
    requires Started(s) && p < |s.tasks| && Passed(s, events, p)
    ensures Run(s, events).tasks[p] == s.tasks[p]
    decreases events
  {
    if events != [] {
      var t := Apply(s, events[0]);
      assert Started(t);
      assert t.cur != p by { assert Passed(t, events[1..], p); }
      EntryStays(t, events[1..], p);
    }
  }

  /** A preempted task resumes, whenever it is next dispatched and whatever happened meanwhile, with
      exactly the registers it was interrupted with. */
  lemma Resumes(s: State, regs: Regs, events: seq<Event>, later: Regs)
    requires Started(s)
    requires var t := Tick(s, regs).0; Passed(t, events, s.cur)
    requires Next(Run(Tick(s, regs).0, events)) == s.cur
    ensures var u := Run(Tick(s, regs).0, events);
      Tick(u, later).0.cur == s.cur && Tick(u, later).1 == regs
  {
    var t := Tick(s, regs).0;
    assert Started(t);
    EntryStays(t, events, s.cur);
    KeepsStarted(t, events);
  }

  /** A new task, whenever it is first dispatched and whatever happened meanwhile, starts at its
      entry with its own stack and cleared registers. */
  lemma NewTaskStarts(s: State, stack: nat, entry: nat, regs: Regs, events: seq<Event>, later: Regs)
    requires Started(s) && Passed(Create(s, stack, entry, regs), events, |s.tasks|)
    requires Next(Run(Create(s, stack, entry, regs), events)) == |s.tasks|
    ensures var u := Run(Create(s, stack, entry, regs), events);
      && Tick(u, later).0.cur == |s.tasks|
      && Tick(u, later).1 == Regs(0, 0, 0, 0, 0, stack, entry, later.rest)
  {
    var t := Create(s, stack, entry, regs);
    assert Started(t);
    EntryStays(t, events, |s.tasks|);
    KeepsStarted(t, events);
  }
}
