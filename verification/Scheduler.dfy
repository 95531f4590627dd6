/** The kernel's scheduler as it runs: a singly linked list of tasks, saved registers and states
updated on every tick (base/core/scheduler.cpp).
*/
module Scheduler {
  import opened RoundRobin

  class Task {
    const stack: nat
    const entry: nat
    var status: Status
    var regs: Regs
    var next: Task?

    constructor (stack: nat, entry: nat, regs: Regs)
      ensures this.stack == stack && this.entry == entry && this.regs == regs
      ensures status == Created && next == null
    {
      this.stack, this.entry, this.regs := stack, entry, regs;
      status, next := Created, null;
    }

    function Value(): Entry
      reads this
    {
      Entry(status, regs, stack, entry)
    }
  }

  class Sched {
    var root: Task
    var current: Task
    ghost var tasks: seq<Task>
    ghost var cur: nat

    ghost predicate TaskOk(i: nat)
      requires i < |tasks|
      reads this, tasks
    {
      && tasks[i].next == (if i + 1 < |tasks| then tasks[i + 1] else null)
      && forall j :: 0 <= j < |tasks| && tasks[j] == tasks[i] ==> j == i
    }

    ghost predicate Valid()
      reads this, tasks
    {
      && cur < |tasks| && root == tasks[0] && current == tasks[cur]
      && forall i: nat | i < |tasks| :: TaskOk(i)
    }

    ghost function Abstract(): State
      reads this, tasks
    {
      State(seq(|tasks|, i requires 0 <= i < |tasks| reads this, tasks => tasks[i].Value()), cur)
    }

    /** sched_init. */
    constructor (stack: nat, idle: nat, zero: Regs)
      ensures Valid() && Abstract() == Init(stack, idle, zero)
      ensures fresh(tasks)
    {
      var t := new Task(stack, idle, zero);
      root, current, tasks, cur := t, t, [t], 0;
    }

    /** create_task: walks to the end of the list and appends a task; new memory holds `junk`. */
    method CreateTask(stack: nat, entry: nat, junk: Regs)
      requires Valid()
      modifies this`tasks, tasks
      ensures Valid() && Abstract() == Create(old(Abstract()), stack, entry, junk)
      ensures fresh(set t | t in tasks && t !in old(tasks))
    {
      var task := new Task(stack, entry, junk);
      var last := root;
      ghost var i: nat := 0;
      assert TaskOk(0);
      while last.next != null
        invariant i < |tasks| && last == tasks[i] && TaskOk(i)
        decreases |tasks| - i
      {
        last := last.next;
        i := i + 1;
        assert TaskOk(i);
      }
      last.next := task;
      tasks := tasks + [task];
      forall j: nat | j < |tasks| ensures TaskOk(j) {
        if j + 1 < |tasks| { assert old(TaskOk(j)); }
      }
      assert Abstract().tasks == Create(old(Abstract()), stack, entry, junk).tasks;
    }

    /** sched, without the branch for a killed task. */
    method Interrupt(regs: Regs) returns (r: Regs)
      requires Valid()
      modifies this`current, this`cur, tasks
      ensures Valid() && tasks == old(tasks)
      ensures (Abstract(), r) == Tick(old(Abstract()), regs)
    {
      assert TaskOk(cur);
      if current.status.Created? {
        r := Regs(0, 0, 0, 0, 0, current.stack, current.entry, regs.rest);
        current.status := Running;
      } else {
        current.regs := regs;
        current.status := Pending;
        if current.next != null {
          current := current.next;
          cur := cur + 1;
        } else {
          current := root;
          cur := 0;
        }
        if current.status.Created? {
          r := Regs(0, 0, 0, 0, 0, current.stack, current.entry, regs.rest);
        } else {
          r := current.regs;
        }
        current.status := Running;
      }
      forall j: nat | j < |tasks| ensures TaskOk(j) { assert old(TaskOk(j)); }
      ghost var x, y := Abstract().tasks, Tick(old(Abstract()), regs).0.tasks;
      assert TaskOk(cur) && old(TaskOk(cur));
      forall j | 0 <= j < |x| ensures x[j] == y[j] {
        assert j != cur ==> tasks[j] != tasks[cur];
        assert j != old(cur) ==> tasks[j] != tasks[old(cur)];
      }
      assert x == y && Abstract() == Tick(old(Abstract()), regs).0;
    }
  }
}
