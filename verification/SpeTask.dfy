/** The task scheduler: a run queue, and a tree of timers ordered by expiry. */
module SpeTask {
  import opened RbModel
  import opened RbAttach
  import opened RbSwap
  import opened RbTree

  datatype Status = Free | Timer | Queue

  const UINT_RANGE: nat := 0x1_0000_0000

  /** `expire` is kept in 32 bits. */
  datatype Task = Task(status: Status, expire: nat, fast: bool, timeout: bool)

  ghost predicate NoDup(s: seq<Ptr>) { forall i, j | 0 <= i < j < |s| :: s[i] != s[j] }

  /** When each task was last scheduled with a timeout: its place in the history `sleeps`. */
  ghost predicate Stamped(stamps: map<Ptr, nat>, sleeps: seq<Ptr>, t: Ptr) {
    && t in stamps && stamps[t] < |sleeps| && sleeps[stamps[t]] == t
    && forall j | stamps[t] < j < |sleeps| :: sleeps[j] != t
  }

  /** `t` expires before `u`, or at the same time and was scheduled before `u`. */
  ghost predicate Earlier(tasks: map<Ptr, Task>, stamps: map<Ptr, nat>, t: Ptr, u: Ptr) {
    && t in tasks && u in tasks && t in stamps && u in stamps
    && (tasks[t].expire < tasks[u].expire || (tasks[t].expire == tasks[u].expire && stamps[t] < stamps[u]))
  }

  /** The timers are sorted by expiry, those of equal expiry by when they were scheduled. */
  ghost predicate Sorted(tasks: map<Ptr, Task>, stamps: map<Ptr, nat>, order: seq<Ptr>) {
    && (forall i | 0 <= i < |order| :: order[i] in tasks && order[i] in stamps)
    && forall i, j | 0 <= i < j < |order| :: Earlier(tasks, stamps, order[i], order[j])
  }

  ghost predicate AllStamped(stamps: map<Ptr, nat>, sleeps: seq<Ptr>, order: seq<Ptr>) {
    forall i | 0 <= i < |order| :: Stamped(stamps, sleeps, order[i])
  }

  /** The timers come in order, and the stamps say when they were scheduled. */
  ghost predicate Timely(tasks: map<Ptr, Task>, stamps: map<Ptr, nat>, sleeps: seq<Ptr>, order: seq<Ptr>) {
    Sorted(tasks, stamps, order) && AllStamped(stamps, sleeps, order)
  }

  ghost predicate StatusOk(tasks: map<Ptr, Task>, mem: Mem, queue: seq<Ptr>, t: Ptr)
    requires t in tasks
  {
    && t != NULL
    && (tasks[t].status == Timer <==> t in mem)
    && (tasks[t].status == Queue <==> t in queue)
  }

  /** A task is in the tree, in the queue, or in neither, as its status says. */
  ghost predicate Consistent(tasks: map<Ptr, Task>, tree: Tree, queue: seq<Ptr>) {
    && RedBlack(tree)
    && tree.mem.Keys <= tasks.Keys && (forall t <- queue :: t in tasks) && NoDup(queue)
    && (forall t <- tasks.Keys :: StatusOk(tasks, tree.mem, queue, t))
  }

  lemma OrderIsNodes(t: Tree, x: Ptr)
    requires Shape(t)
    ensures x in t.order <==> x in t.mem
  {
    if x in t.order {
      var i :| 0 <= i < |t.order| && t.order[i] == x;
      assert Ordered(t, i);
    }
    if x in t.mem { assert Linked(t, x); }
  }

  datatype Op =
    | Create(t: Ptr)
    | SetHandler(t: Ptr, fast: bool)
    | Wake(t: Ptr)
    | Sleep(t: Ptr, now: nat, ms: nat)
    | Cancel(t: Ptr)
    | Tick(now: nat)
    | RunNext

  /** The tasks, the run queue, the timers in their order, the handlers called, and the timeouts given. */
  datatype State = State(tasks: map<Ptr, Task>, queue: seq<Ptr>, order: seq<Ptr>, calls: seq<Ptr>, sleeps: seq<Ptr>,
                         stamps: map<Ptr, nat>)

  function With(s: State, t: Ptr, task: Task): State { s.(tasks := s.tasks[t := task]) }

  /** A task that is not queued already is called at once or joins the queue, and is no timer any more. */
  function Woken(s: State, t: Ptr): State {
    if t !in s.tasks || s.tasks[t].status == Queue then s
    else if s.tasks[t].fast then
      With(s, t, s.tasks[t].(status := Free)).(order := Removed(s.order, t), calls := s.calls + [t])
    else
      With(s, t, s.tasks[t].(status := Queue)).(order := Removed(s.order, t), queue := s.queue + [t])
  }

  /** `t` comes after the timers that expire no later. */
  ghost predicate LastOf(tasks: map<Ptr, Task>, order: seq<Ptr>, t: Ptr) {
    exists i ::
      && 0 <= i < |order| && order[i] == t && t in tasks
      && forall j | i < j < |order| :: order[j] in tasks && tasks[order[j]].expire > tasks[t].expire
  }

  /** A task that is not queued becomes a timer, in its place among the others. */
  ghost predicate Asleep(s: State, s': State, t: Ptr, expire: nat) {
    if t !in s.tasks || s.tasks[t].status == Queue then s' == s
    else
      && s' == With(s, t, s.tasks[t].(status := Timer, expire := expire, timeout := false))
               .(order := s'.order, sleeps := s.sleeps + [t], stamps := s.stamps[t := |s.sleeps|])
      && Removed(s'.order, t) == Removed(s.order, t) && LastOf(s'.tasks, s'.order, t)
  }

  /** The first `n` timers are those that are due, and they join the queue in their order. */
  ghost predicate Expires(s: State, s': State, now: nat, n: nat) {
    && n <= |s.order| && Queued(s.tasks, s'.tasks, s.order[..n])
    && s' == s.(tasks := s'.tasks, order := s.order[n..], queue := s.queue + s.order[..n])
    && (forall j | 0 <= j < n :: Due(s.tasks, s.order[j], now))
    && forall j | n <= j < |s.order| :: s.order[j] in s.tasks && !Due(s.tasks, s.order[j], now)
  }

  ghost predicate Effect(s: State, s': State, op: Op) {
    match op
    case Create(t) => s' == if t != NULL && t !in s.tasks then With(s, t, Task(Free, 0, false, false)) else s
    case SetHandler(t, fast) => s' == if t in s.tasks then With(s, t, s.tasks[t].(fast := fast)) else s
    case Wake(t) => s' == Woken(s, t)
    case Sleep(t, now, ms) => Asleep(s, s', t, (now + ms) % UINT_RANGE)
    case Cancel(t) =>
      s' == if t in s.tasks
            then With(s, t, s.tasks[t].(status := Free)).(queue := Removed(s.queue, t), order := Removed(s.order, t))
            else s
    case Tick(now) => exists n :: Expires(s, s', now, n)
    case RunNext =>
      s' == if s.queue != [] && s.queue[0] in s.tasks
            then With(s, s.queue[0], s.tasks[s.queue[0]].(status := Free))
                 .(queue := s.queue[1..], calls := s.calls + [s.queue[0]])
            else s
  }

  class Scheduler {
    const timers: RbRoot
    var tasks: map<Ptr, Task>
    var queue: seq<Ptr>
    ghost var calls: seq<Ptr>      // the handlers called so far
    ghost var sleeps: seq<Ptr>     // the tasks in the order in which they were given timeouts
    ghost var stamps: map<Ptr, nat>

    ghost predicate Valid()
      reads this, timers
    {
      Consistent(tasks, timers.Now(), queue) && Timely(tasks, stamps, sleeps, timers.order)
    }

    constructor ()
      ensures Valid() && fresh(timers) && tasks == map[] && queue == [] && timers.order == []
    {
      timers := new RbRoot();
      tasks, queue, calls, sleeps, stamps := map[], [], [], [], map[];
    }

    /** A new task. */
    method Init(t: Ptr)
      requires Valid() && t != NULL && t !in tasks
      modifies this`tasks
      ensures Valid() && tasks == old(tasks)[t := Task(Free, 0, false, false)]
    {
      hide RedBlack, Shape, Sorted, AllStamped;
      TimersOf(tasks, timers.Now(), queue);
      var tasks' := tasks[t := Task(Free, 0, false, false)];
      SameTimes(tasks, tasks', stamps, timers.order);
      tasks := tasks';
    }

    /** A fast task is called at once when it is scheduled. */
    method SetHandler(t: Ptr, fast: bool)
      requires Valid() && t in tasks
      modifies this`tasks
      ensures Valid() && tasks == old(tasks)[t := old(tasks)[t].(fast := fast)]
    {
      hide RedBlack, Shape, Sorted, AllStamped;
      TimersOf(tasks, timers.Now(), queue);
      var tasks' := tasks[t := tasks[t].(fast := fast)];
      SameTimes(tasks, tasks', stamps, timers.order);
      forall q | q in tasks' ensures StatusOk(tasks', timers.mem, queue, q) {
        assert StatusOk(tasks, timers.mem, queue, q);
      }
      tasks := tasks';
    }

    /** Takes a task out of the timer tree. */
    method Untime(t: Ptr)
      requires Valid() && t in tasks && tasks[t].status == Timer
      modifies this`tasks, timers
      ensures Valid() && tasks == old(tasks)[t := old(tasks)[t].(status := Free)] && t !in timers.mem
      ensures timers.order == Removed(old(timers.order), t)
    {
      hide RedBlack, Shape, NoDup, Timely, Removed;
      assert StatusOk(tasks, timers.mem, queue, t);
      TimersOf(tasks, timers.Now(), queue);
      ghost var order0 := timers.order;
      timers.Erase(t);
      ghost var i :| 0 <= i < |order0| && order0[i] == t && timers.order == order0[..i] + order0[i + 1..];
      RemovedAt(order0, i);
      var tasks' := tasks[t := tasks[t].(status := Free)];
      StillTimely(tasks, tasks', stamps, sleeps, order0, i);
      tasks := tasks';
    }

    /** A task whose time has come, or that is wanted now: a fast one is called at once, any other one
        joins the run queue.  The other timers stay as they are. */
    method Schedule(t: Ptr)
      requires Valid() && t in tasks
      modifies this`tasks, this`queue, this`calls, timers
      ensures Valid()
      ensures old(tasks[t].status) == Queue ==>
                && tasks == old(tasks) && queue == old(queue) && calls == old(calls)
                && timers.order == old(timers.order)
      ensures old(tasks[t].status) != Queue ==> timers.order == Removed(old(timers.order), t)
      ensures old(tasks[t].status) != Queue && !old(tasks[t].fast) ==>
                && tasks == old(tasks)[t := old(tasks)[t].(status := Queue)]
                && queue == old(queue) + [t] && calls == old(calls)
      ensures old(tasks[t].status) != Queue && old(tasks[t].fast) ==>
                && tasks == old(tasks)[t := old(tasks)[t].(status := Free)]
                && queue == old(queue) && calls == old(calls) + [t]
    {
      hide RedBlack, Consistent, Timely, Removed;
      if tasks[t].status == Queue {
        return;
      }
      if tasks[t].status == Timer {
        Untime(t);
      } else {
        NoTimer(tasks, timers.Now(), queue, t);
      }
      Statuses(tasks, timers.Now(), queue, t);
      if tasks[t].fast {
        tasks := tasks[t := tasks[t].(status := Free)];
        calls := calls + [t];
        return;
      }
      ghost var tasks1, queue1 := tasks, queue;
      queue := queue + [t];
      tasks := tasks[t := tasks[t].(status := Queue)];
      Joined(tasks1, tasks, timers.Now(), queue1, t);
      JoinedTimely(tasks1, tasks, stamps, sleeps, timers.order, t);
    }

    /** The free link where a timer that expires at `e` belongs: after all that expire no later. */
    method FindPlace(ghost known: map<Ptr, Task>, e: nat) returns (parent: Ptr, left: bool)
      requires Consistent(known, timers.Now(), queue) && Sorted(known, stamps, timers.order)
      requires known.Keys == tasks.Keys && forall q <- timers.mem.Keys :: q in tasks && tasks[q] == known[q]
      ensures forall x | x != NULL && x !in timers.mem :: CanAttach(timers.Now(), x, parent, left)
      ensures parent != NULL ==> parent in timers.lab
      ensures 0 <= Place(timers.Now(), parent, left) <= |timers.order|
      ensures forall j | 0 <= j < Place(timers.Now(), parent, left) ::
                timers.order[j] in known && known[timers.order[j]].expire <= e
      ensures forall j | Place(timers.Now(), parent, left) <= j < |timers.order| ::
                timers.order[j] in known && known[timers.order[j]].expire > e
    {
      hide RedBlack, Shape, Linked;
      ghost var t := timers.Now();
      ShapeOf(t);
      SearchStart(t);
      var n := timers.root;
      parent, left := NULL, false;
      ghost var lo, hi := 0, |t.order|;
      while n != NULL
        invariant n == NULL || (n in t.mem && n in t.lab && t.lab[n].lo == lo && t.lab[n].hi == hi)
        invariant n == NULL ==> lo == hi
        invariant parent == NULL ==> n == t.root && lo == 0 && hi == |t.order|
        invariant parent != NULL ==> parent in t.mem && parent in t.lab && Kid(t.mem[parent], left) == n
        invariant parent != NULL ==> if left then hi == t.lab[parent].pos else lo == t.lab[parent].pos + 1
        invariant 0 <= lo <= hi <= |t.order|
        invariant forall j | 0 <= j < lo :: t.order[j] in known && known[t.order[j]].expire <= e
        invariant forall j | hi <= j < |t.order| :: t.order[j] in known && known[t.order[j]].expire > e
        decreases hi - lo
      {
        Parts(t, n);
        parent := n;
        if e < tasks[n].expire {
          left := true;
          hi := t.lab[n].pos;
          n := timers.mem[n].left;
        } else {
          left := false;
          lo := t.lab[n].pos + 1;
          n := timers.mem[n].right;
        }
      }
    }

    /** Puts a task into the timer tree, to expire `ms` from now.  The other timers stay in order. */
    method ScheduleTimeout(t: Ptr, now: nat, ms: nat)
      requires Valid() && t in tasks
      modifies this`tasks, this`sleeps, this`stamps, timers
      ensures Valid()
      ensures old(tasks[t].status) == Queue ==>
                && tasks == old(tasks) && timers.order == old(timers.order)
                && sleeps == old(sleeps) && stamps == old(stamps)
      ensures old(tasks[t].status) != Queue ==>
                && tasks == old(tasks)[t := old(tasks)[t].(status := Timer, expire := (now + ms) % UINT_RANGE,
                                                           timeout := false)]
                && sleeps == old(sleeps) + [t] && stamps == old(stamps)[t := |old(sleeps)|]
                && Removed(timers.order, t) == Removed(old(timers.order), t) && LastOf(tasks, timers.order, t)
    {
      hide RedBlack, Shape, Consistent, Timely, Removed;
      if tasks[t].status == Queue {
        return;
      }
      if tasks[t].status == Timer {
        Untime(t);
      } else {
        NoTimer(tasks, timers.Now(), queue, t);
      }
      AddTimer(t, (now + ms) % UINT_RANGE);
    }

    /** Puts a task into the timer tree, after the timers that expire no later than `e`; `i` is its place. */
    method PutTimer(t: Ptr, ghost known: map<Ptr, Task>, e: nat) returns (ghost i: nat)
      requires Consistent(known, timers.Now(), queue) && Sorted(known, stamps, timers.order)
      requires known.Keys == tasks.Keys && forall q <- timers.mem.Keys :: q in tasks && tasks[q] == known[q]
      requires t != NULL && t !in timers.mem && t !in timers.order
      modifies timers
      ensures RedBlack(timers.Now()) && timers.mem.Keys == old(timers.mem.Keys) + {t}
      ensures i <= |old(timers.order)| && timers.order == old(timers.order)[..i] + [t] + old(timers.order)[i..]
      ensures forall j | 0 <= j < i :: old(timers.order)[j] in known && known[old(timers.order)[j]].expire <= e
      ensures forall j | i <= j < |old(timers.order)| ::
                old(timers.order)[j] in known && known[old(timers.order)[j]].expire > e
    {
      hide RedBlack, Shape, Sorted, StatusOk, NoDup;
      var parent, left := FindPlace(known, e);
      i := Place(timers.Now(), parent, left);
      timers.LinkNode(t, parent, left);
      timers.InsertColor(t);
    }

    /** Puts a free task into the timer tree. */
    method AddTimer(t: Ptr, e: nat)
      requires Valid() && t in tasks && tasks[t].status == Free
      modifies this`tasks, this`sleeps, this`stamps, timers
      ensures Valid() && LastOf(tasks, timers.order, t)
      ensures tasks == old(tasks)[t := old(tasks)[t].(status := Timer, expire := e, timeout := false)]
      ensures sleeps == old(sleeps) + [t] && stamps == old(stamps)[t := |old(sleeps)|]
      ensures Removed(timers.order, t) == old(timers.order)
    {
      hide RedBlack, Shape, Consistent, Sorted, AllStamped, Removed, NoDup;
      ghost var s, tasks0 := timers.Now(), tasks;
      FreeTask(tasks, s, queue, t);
      TimersOf(tasks, s, queue);
      StampsOld(stamps, sleeps, s.order);
      tasks := tasks[t := tasks[t].(expire := e, timeout := false)];
      ghost var i := PutTimer(t, tasks0, e);
      tasks := tasks[t := tasks[t].(status := Timer)];
      sleeps, stamps := sleeps + [t], stamps[t := |sleeps|];
      NewTimer(s.order, tasks0, tasks, old(stamps), stamps, |old(sleeps)|, timers.order, t, i);
      NewStamp(s.order, old(stamps), old(sleeps), timers.order, t, i);
      Inserted(s.order, t, i);
      Timed(tasks0, tasks, s, timers.Now(), queue, t);
    }

    /** Takes a task out of the tree or the queue.  The other tasks stay in order. */
    method Dequeue(t: Ptr)
      requires Valid() && t in tasks
      modifies this`tasks, this`queue, timers
      ensures Valid() && tasks == old(tasks)[t := old(tasks)[t].(status := Free)]
      ensures t !in queue && t !in timers.mem
      ensures queue == Removed(old(queue), t) && timers.order == Removed(old(timers.order), t)
    {
      hide RedBlack, Shape, Timely, Removed, NoDup;
      assert StatusOk(tasks, timers.mem, queue, t);
      RemovedIn(queue, t);
      if tasks[t].status != Timer { NoTimer(tasks, timers.Now(), queue, t); }
      if tasks[t].status == Free {
        NotThere(queue, t);
        return;
      }
      if tasks[t].status == Queue {
        queue := Removed(queue, t);
        JoinedTimely(tasks, tasks[t := tasks[t].(status := Free)], stamps, sleeps, timers.order, t);
        tasks := tasks[t := tasks[t].(status := Free)];
      } else {
        NotThere(queue, t);
        Untime(t);
      }
    }

    /** The first timer joins the run queue. */
    method Expire(first: Ptr)
      requires Valid() && timers.order != [] && first == timers.order[0]
      modifies this`tasks, this`queue, timers
      ensures Valid() && timers.order == old(timers.order)[1..] && queue == old(queue) + [first]
      ensures first in old(tasks)
      ensures tasks == old(tasks)[first := old(tasks)[first].(status := Queue, timeout := true)]
    {
      hide RedBlack, Consistent, NoDup, Timely, Shape, Removed;
      TimersOf(tasks, timers.Now(), queue);
      RemovedAt(timers.order, 0);
      Untime(first);
      ghost var tasks1, queue1 := tasks, queue;
      tasks := tasks[first := tasks[first].(timeout := true)];
      queue := queue + [first];
      tasks := tasks[first := tasks[first].(status := Queue)];
      Joined(tasks1, tasks, timers.Now(), queue1, first);
      JoinedTimely(tasks1, tasks, stamps, sleeps, timers.order, first);
    }

    /** Expires the next of the timers of `order0`, when `n` have been expired. */
    method ExpireNext(first: Ptr, ghost tasks0: map<Ptr, Task>, ghost order0: seq<Ptr>, ghost queue0: seq<Ptr>,
                      ghost n: nat)
      requires Valid() && n < |order0| && timers.order == order0[n..] && first == order0[n]
      requires NoDup(order0) && Queued(tasks0, tasks, order0[..n]) && queue == queue0 + order0[..n]
      modifies this`tasks, this`queue, timers
      ensures Valid() && timers.order == order0[n + 1..] && queue == queue0 + order0[..n + 1]
      ensures Queued(tasks0, tasks, order0[..n + 1])
    {
      hide RedBlack, Consistent, Queued, NoDup, Timely, Shape;
      TimersOf(tasks, timers.Now(), queue);
      assert timers.order[0] == first;
      QueuedMore(tasks0, tasks, order0, n);
      Expire(first);
    }

    /** The timers that have expired join the run queue, in the order of their expiry, those of equal
        expiry in the order in which they were scheduled; `n` is their number. */
    method ExpireTimers(now: nat) returns (ghost n: nat)
      requires Valid()
      modifies this`tasks, this`queue, timers
      ensures Valid()
      ensures n <= |old(timers.order)| && timers.order == old(timers.order)[n..]
      ensures queue == old(queue) + old(timers.order)[..n]
      ensures forall j | 0 <= j < n :: Due(old(tasks), old(timers.order)[j], now)
      ensures forall i, j | 0 <= i < j < n ::
                Earlier(old(tasks), stamps, old(timers.order)[i], old(timers.order)[j])
      ensures forall j | n <= j < |old(timers.order)| ::
                old(timers.order)[j] in old(tasks) && !Due(old(tasks), old(timers.order)[j], now)
      ensures Queued(old(tasks), tasks, old(timers.order)[..n])
    {
      hide RedBlack, Consistent, Queued, NoDup, Timely, Shape, Earlier;
      ghost var order0, tasks0, queue0 := timers.order, tasks, queue;
      SortedIs(tasks, stamps, sleeps, order0);
      n := 0;
      TimersOf(tasks, timers.Now(), queue);
      QueuedNone(tasks, order0);
      var first := timers.First();
      while first != NULL
        invariant Valid() && 0 <= n <= |order0| && timers.order == order0[n..] && queue == queue0 + order0[..n]
        invariant first == if n == |order0| then NULL else order0[n]
        invariant forall j | 0 <= j < n :: Due(tasks0, order0[j], now)
        invariant Queued(tasks0, tasks, order0[..n])
        decreases |order0| - n
      {
        QueuedSame(tasks0, tasks, timers.Now(), queue, order0, n);
        if tasks[first].expire > now {
          break;
        }
        ExpireNext(first, tasks0, order0, queue0, n);
        n := n + 1;
        TimersOf(tasks, timers.Now(), queue);
        first := timers.First();
      }
      LaterExpire(tasks, tasks0, stamps, sleeps, timers.order, order0, n, now);
    }

    /** Takes the first task off the run queue and calls its handler, which may use the scheduler in any way. */
    method RunFirst() returns (t: Ptr)
      requires Valid() && queue != []
      modifies this`tasks, this`queue, this`calls
      ensures Valid() && t == old(queue[0]) && queue == old(queue)[1..] && calls == old(calls) + [t]
      ensures tasks == old(tasks)[t := old(tasks)[t].(status := Free)]
    {
      hide RedBlack, Timely, Shape;
      t := queue[0];
      assert StatusOk(tasks, timers.mem, queue, t);
      NoTimer(tasks, timers.Now(), queue, t);
      JoinedTimely(tasks, tasks[t := tasks[t].(status := Free)], stamps, sleeps, timers.order, t);
      queue := queue[1..];
      tasks := tasks[t := tasks[t].(status := Free)];
      calls := calls + [t];
    }

    ghost function Now(): State
      reads this, timers
    {
      State(tasks, queue, timers.order, calls, sleeps, stamps)
    }

    /** One use of the scheduler, by the event loop or by a handler that it has called. */
    method Do(op: Op)
      requires Valid()
      modifies this, timers
      ensures Valid() && Effect(old(Now()), Now(), op)
    {
      hide RedBlack, Timely, Shape, Removed, LastOf, Queued, Due, NoDup;
      match op {
        case Create(t) => if t != NULL && t !in tasks { Init(t); }
        case SetHandler(t, fast) => if t in tasks { SetHandler(t, fast); }
        case Wake(t) => if t in tasks { Schedule(t); }
        case Sleep(t, now, ms) => if t in tasks { ScheduleTimeout(t, now, ms); }
        case Cancel(t) => if t in tasks { Dequeue(t); }
        case Tick(now) =>
          ghost var n := ExpireTimers(now);
          assert Expires(old(Now()), Now(), now, n);
        case RunNext => if queue != [] { var _ := RunFirst(); }
      }
    }

    /** Whatever uses are made of the scheduler, nested or not: each has its effect, and after each every status
        is right and the timers are in order. */
    method Run(ops: seq<Op>) returns (ghost states: seq<State>)
      requires Valid()
      modifies this, timers
      ensures Valid()
      ensures |states| == |ops| + 1 && states[0] == old(Now()) && states[|ops|] == Now()
      ensures forall i | 0 <= i < |ops| :: Effect(states[i], states[i + 1], ops[i])
      ensures forall i | 0 <= i <= |ops| :: Orderly(states[i])
    {
      hide RedBlack, Consistent, Timely, Shape, Effect, Orderly;
      states := [Now()];
      IsOrderly();
      var i := 0;
      while i < |ops|
        invariant Valid() && 0 <= i <= |ops|
        invariant |states| == i + 1 && states[0] == old(Now()) && states[i] == Now()
        invariant forall j | 0 <= j < i :: Effect(states[j], states[j + 1], ops[j])
        invariant forall j | 0 <= j <= i :: Orderly(states[j])
      {
        Do(ops[i]);
        IsOrderly();
        states := states + [Now()];
        i := i + 1;
      }
    }

    lemma IsOrderly()
      requires Valid()
      ensures Orderly(Now())
    {
      hide RedBlack, Shape, Timely, NoDup;
      TimersOf(tasks, timers.Now(), queue);
      forall t | t in tasks ensures StatusIn(Now(), t) {
        assert StatusOk(tasks, timers.mem, queue, t);
        OrderIsNodes(timers.Now(), t);
      }
      forall t | t in timers.order ensures t in tasks { OrderIsNodes(timers.Now(), t); }
    }
  }

  /** A task is among the timers, in the queue, or in neither, as its status says. */
  ghost predicate StatusIn(s: State, t: Ptr)
    requires t in s.tasks
  {
    (s.tasks[t].status == Timer <==> t in s.order) && (s.tasks[t].status == Queue <==> t in s.queue)
  }

  ghost predicate Orderly(s: State) {
    && (forall t <- s.tasks.Keys :: StatusIn(s, t))
    && (forall t <- s.order :: t in s.tasks) && (forall t <- s.queue :: t in s.tasks) && NoDup(s.queue)
    && Timely(s.tasks, s.stamps, s.sleeps, s.order)
  }

  lemma FreeTask(tasks: map<Ptr, Task>, s: Tree, queue: seq<Ptr>, t: Ptr)
    requires Consistent(tasks, s, queue) && t in tasks && tasks[t].status == Free
    ensures t != NULL && t !in s.mem && t !in queue && t !in s.order && RedBlack(s) && s.mem.Keys <= tasks.Keys
  {
    assert StatusOk(tasks, s.mem, queue, t);
    OrderIsNodes(s, t);
  }

  /** The state after a free task has joined the timers. */
  lemma Timed(tasks: map<Ptr, Task>, tasks': map<Ptr, Task>, s: Tree, s': Tree, queue: seq<Ptr>, t: Ptr)
    requires Consistent(tasks, s, queue) && t in tasks && tasks[t].status == Free
    requires RedBlack(s') && s'.mem.Keys == s.mem.Keys + {t}
    requires tasks'.Keys == tasks.Keys && tasks'[t].status == Timer
    requires forall q | q in tasks && q != t :: tasks'[q] == tasks[q]
    ensures Consistent(tasks', s', queue)
  {
    hide RedBlack;
    forall q | q in tasks' ensures StatusOk(tasks', s'.mem, queue, q) { assert StatusOk(tasks, s.mem, queue, q); }
  }

  function Removed(s: seq<Ptr>, x: Ptr): seq<Ptr> {
    if s == [] then [] else (if s[0] == x then [] else [s[0]]) + Removed(s[1..], x)
  }

  lemma {:induction false} RemovedIn(s: seq<Ptr>, x: Ptr)
    ensures forall y :: y in Removed(s, x) <==> y in s && y != x
    ensures NoDup(s) ==> NoDup(Removed(s, x))
  {
    if s != [] {
      RemovedIn(s[1..], x);
      assert s == [s[0]] + s[1..];
      if NoDup(s) {
        assert forall j | 0 < j < |s| :: s[0] != s[j];
        assert s[0] !in s[1..];
      }
    }
  }

  lemma SearchStart(t: Tree)
    requires Shape(t)
    ensures if t.root == NULL then t.order == []
            else t.root in t.mem && t.root in t.lab && t.lab[t.root].lo == 0 && t.lab[t.root].hi == |t.order|
  {
    if t.root != NULL { assert Linked(t, t.root); }
  }

  lemma NotThere(s: seq<Ptr>, x: Ptr)
    requires x !in s
    ensures Removed(s, x) == s
  {
    if s != [] {
      assert s[0] != x && x !in s[1..];
      NotThere(s[1..], x);
    }
  }

  lemma {:induction false} RemovedAt(s: seq<Ptr>, i: nat)
    requires NoDup(s) && i < |s|
    ensures Removed(s, s[i]) == s[..i] + s[i + 1..]
  {
    if i == 0 {
      NotThere(s[1..], s[0]);
    } else {
      RemovedAt(s[1..], i - 1);
      assert s[..i] + s[i + 1..] == [s[0]] + (s[1..][..i - 1] + s[1..][i..]);
    }
  }

  lemma {:induction false} Inserted(s: seq<Ptr>, x: Ptr, i: nat)
    requires x !in s && i <= |s|
    ensures Removed(s[..i] + [x] + s[i..], x) == s
  {
    var o := s[..i] + [x] + s[i..];
    if i == 0 {
      assert o == [x] + s && o[1..] == s;
      NotThere(s, x);
    } else {
      Inserted(s[1..], x, i - 1);
      assert o[1..] == s[1..][..i - 1] + [x] + s[1..][i - 1..];
      assert o[0] == s[0];
    }
  }

  /** Where the elements are after `t` has been put into place `i`. */
  lemma InsertedAt(s: seq<Ptr>, o: seq<Ptr>, t: Ptr, i: nat)
    requires t !in s && i <= |s| && o == s[..i] + [t] + s[i..]
    ensures forall j | 0 <= j < |o| :: o[j] == if j < i then s[j] else if j == i then t else s[j - 1]
    ensures forall j | 0 <= j < |s| :: s[j] != t
  {}

  /** The list of timers after a new one has been put in its place. */
  lemma NewTimer(s: seq<Ptr>, tasks: map<Ptr, Task>, tasks': map<Ptr, Task>, stamps: map<Ptr, nat>,
                 stamps': map<Ptr, nat>, stamp: nat, o: seq<Ptr>, t: Ptr, i: nat)
    requires Sorted(tasks, stamps, s) && t in tasks && t in tasks' && tasks'.Keys == tasks.Keys && t !in s
    requires forall q | q in tasks && q != t :: tasks'[q] == tasks[q]
    requires i <= |s| && o == s[..i] + [t] + s[i..] && stamps' == stamps[t := stamp]
    requires forall j | 0 <= j < |s| :: s[j] in stamps && stamps[s[j]] < stamp
    requires forall j | 0 <= j < i :: tasks[s[j]].expire <= tasks'[t].expire
    requires forall j | i <= j < |s| :: tasks[s[j]].expire > tasks'[t].expire
    ensures Sorted(tasks', stamps', o) && o[i] == t
    ensures forall j | i < j < |o| :: o[j] in tasks' && tasks'[o[j]].expire > tasks'[t].expire
  {
    InsertedAt(s, o, t, i);
  }

  lemma NewStamp(s: seq<Ptr>, stamps: map<Ptr, nat>, sleeps: seq<Ptr>, o: seq<Ptr>, t: Ptr, i: nat)
    requires AllStamped(stamps, sleeps, s) && t !in s && i <= |s| && o == s[..i] + [t] + s[i..]
    ensures AllStamped(stamps[t := |sleeps|], sleeps + [t], o)
  {
    InsertedAt(s, o, t, i);
    forall j | 0 <= j < |o| ensures Stamped(stamps[t := |sleeps|], sleeps + [t], o[j]) {
      if j != i { assert Stamped(stamps, sleeps, s[if j < i then j else j - 1]); }
    }
  }

  lemma StampsOld(stamps: map<Ptr, nat>, sleeps: seq<Ptr>, s: seq<Ptr>)
    requires AllStamped(stamps, sleeps, s)
    ensures forall j | 0 <= j < |s| :: s[j] in stamps && stamps[s[j]] < |sleeps|
  {
    forall j | 0 <= j < |s| ensures s[j] in stamps && stamps[s[j]] < |sleeps| {
      assert Stamped(stamps, sleeps, s[j]);
    }
  }

  lemma SortedIs(tasks: map<Ptr, Task>, stamps: map<Ptr, nat>, sleeps: seq<Ptr>, order: seq<Ptr>)
    requires Timely(tasks, stamps, sleeps, order)
    ensures forall i, j | 0 <= i < j < |order| :: Earlier(tasks, stamps, order[i], order[j])
  {}

  lemma SameTimes(tasks: map<Ptr, Task>, tasks': map<Ptr, Task>, stamps: map<Ptr, nat>, order: seq<Ptr>)
    requires Sorted(tasks, stamps, order)
    requires forall q | q in order :: q in tasks' && (q in tasks ==> tasks'[q].expire == tasks[q].expire)
    ensures Sorted(tasks', stamps, order)
  {
    forall i, j | 0 <= i < j < |order| ensures Earlier(tasks', stamps, order[i], order[j]) {
      assert Earlier(tasks, stamps, order[i], order[j]);
    }
  }

  lemma StillTimely(tasks: map<Ptr, Task>, tasks': map<Ptr, Task>, stamps: map<Ptr, nat>, sleeps: seq<Ptr>,
                    order: seq<Ptr>, i: nat)
    requires Timely(tasks, stamps, sleeps, order) && i < |order|
    requires tasks'.Keys == tasks.Keys && forall q | q in tasks :: tasks'[q].expire == tasks[q].expire
    ensures Timely(tasks', stamps, sleeps, order[..i] + order[i + 1..])
  {
    var o := order[..i] + order[i + 1..];
    forall a, b | 0 <= a < b < |o| ensures Earlier(tasks', stamps, o[a], o[b]) {
      assert Earlier(tasks, stamps, order[if a < i then a else a + 1], order[if b < i then b else b + 1]);
    }
  }

  /** A task that is not a timer has changed its status. */
  lemma JoinedTimely(tasks: map<Ptr, Task>, tasks': map<Ptr, Task>, stamps: map<Ptr, nat>, sleeps: seq<Ptr>,
                     order: seq<Ptr>, t: Ptr)
    requires Timely(tasks, stamps, sleeps, order) && t in tasks && t in tasks'
    requires tasks' == tasks[t := tasks'[t]] && tasks'[t].expire == tasks[t].expire
    ensures Timely(tasks', stamps, sleeps, order)
  {
    SameTimes(tasks, tasks', stamps, order);
  }

  lemma NoTimer(tasks: map<Ptr, Task>, s: Tree, queue: seq<Ptr>, t: Ptr)
    requires Consistent(tasks, s, queue) && t in tasks && tasks[t].status != Timer
    ensures t !in s.order && Removed(s.order, t) == s.order
  {
    assert StatusOk(tasks, s.mem, queue, t);
    OrderIsNodes(s, t);
    NotThere(s.order, t);
  }

  lemma TimersOf(tasks: map<Ptr, Task>, s: Tree, queue: seq<Ptr>)
    requires Consistent(tasks, s, queue)
    ensures RedBlack(s) && Shape(s) && NoDup(s.order)
    ensures forall q | q in s.order :: q in tasks && q != NULL && tasks[q].status == Timer
  {
    forall i, j | 0 <= i < j < |s.order| ensures s.order[i] != s.order[j] { assert Ordered(s, i) && Ordered(s, j); }
    forall q | q in s.order ensures q in tasks && q != NULL && tasks[q].status == Timer {
      OrderIsNodes(s, q);
      assert StatusOk(tasks, s.mem, queue, q);
    }
  }

  lemma NotBefore(o: seq<Ptr>, n: int)
    requires NoDup(o) && 0 <= n <= |o|
    ensures forall j | n <= j < |o| :: o[j] !in o[..n]
  {
  }

  lemma Joined(tasks: map<Ptr, Task>, tasks': map<Ptr, Task>, s: Tree, queue: seq<Ptr>, t: Ptr)
    requires Consistent(tasks, s, queue) && t in tasks && t in tasks' && tasks[t].status == Free
    requires tasks' == tasks[t := tasks[t].(status := Queue, timeout := tasks'[t].timeout)]
    ensures Consistent(tasks', s, queue + [t])
  {
    hide RedBlack;
    FreeTask(tasks, s, queue, t);
    forall q | q in tasks' ensures StatusOk(tasks', s.mem, queue + [t], q) { assert StatusOk(tasks, s.mem, queue, q); }
  }

  predicate Due(tasks: map<Ptr, Task>, t: Ptr, now: nat) { t in tasks && tasks[t].expire <= now }

  /** The tasks in `ts` have been moved to the run queue and marked; nothing else has changed. */
  ghost predicate Queued(tasks: map<Ptr, Task>, tasks': map<Ptr, Task>, ts: seq<Ptr>) {
    && tasks'.Keys == tasks.Keys
    && forall t | t in tasks :: tasks'[t] == if t in ts then tasks[t].(status := Queue, timeout := true) else tasks[t]
  }

  lemma QueuedNone(tasks: map<Ptr, Task>, o: seq<Ptr>)
    ensures Queued(tasks, tasks, o[..0])
  {
  }

  lemma QueuedMore(tasks: map<Ptr, Task>, tasks': map<Ptr, Task>, o: seq<Ptr>, n: int)
    requires 0 <= n < |o| && o[n] in tasks' && NoDup(o) && Queued(tasks, tasks', o[..n])
    ensures o[n] in tasks && tasks'[o[n]] == tasks[o[n]]
    ensures Queued(tasks, tasks'[o[n] := tasks'[o[n]].(status := Queue, timeout := true)], o[..n + 1])
    ensures o[..n + 1] == o[..n] + [o[n]] && (n + 1 <= |o| ==> o[n..][1..] == o[n + 1..])
  {
    NotBefore(o, n);
    assert o[..n + 1] == o[..n] + [o[n]];
  }

  /** The first timer that is left is as it was. */
  lemma QueuedSame(tasks: map<Ptr, Task>, tasks': map<Ptr, Task>, s: Tree, queue: seq<Ptr>, o: seq<Ptr>, n: int)
    requires Consistent(tasks', s, queue) && 0 <= n < |o| && s.order == o[n..] && NoDup(o)
    requires Queued(tasks, tasks', o[..n])
    ensures o[n] in tasks && o[n] in tasks' && tasks'[o[n]] == tasks[o[n]] && o[n] != NULL
  {
    hide RedBlack;
    TimersOf(tasks', s, queue);
    assert s.order[0] == o[n];
    QueuedMore(tasks, tasks', o, n);
  }

  lemma LaterExpire(tasks: map<Ptr, Task>, tasks0: map<Ptr, Task>, stamps: map<Ptr, nat>, sleeps: seq<Ptr>,
                    o: seq<Ptr>, order0: seq<Ptr>, n: int, now: nat)
    requires Timely(tasks, stamps, sleeps, o) && NoDup(order0) && 0 <= n <= |order0| && o == order0[n..]
    requires Queued(tasks0, tasks, order0[..n])
    requires o != [] ==> tasks[o[0]].expire > now
    ensures forall j | n <= j < |order0| :: order0[j] in tasks0 && !Due(tasks0, order0[j], now)
  {
    NotBefore(order0, n);
    forall j | n <= j < |order0| ensures order0[j] in tasks0 && tasks0[order0[j]].expire > now {
      assert order0[j] == o[j - n];
      if j > n { assert Earlier(tasks, stamps, o[0], o[j - n]); }
    }
  }

  lemma Statuses(tasks: map<Ptr, Task>, s: Tree, queue: seq<Ptr>, t: Ptr)
    requires Consistent(tasks, s, queue) && t in tasks
    ensures tasks[t].status == Free ==> tasks[t := tasks[t].(status := Free)] == tasks
  {
  }
}
