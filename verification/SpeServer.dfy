/** The shared accept mutexes that decide which worker process polls a listening socket. */
module SpeServer {

  const FREE: int := -1

  /** Where a worker is in its event loop: in `spe_server_preloop`, waiting for events, in
      `spe_server_postloop`, or running its tasks; for the two loops over the servers, the next server. */
  datatype Place = Pre(next: nat) | Poll | Post(next: nat) | Tasks | Stopped

  /** What a process has of its own: its `_accept_mutex_hold` flags and its epoll set. */
  datatype Worker = Worker(at: Place, hold: seq<bool>, listens: seq<bool>)

  /** A connection taken from the queue of a listening socket. */
  datatype Accepted = Accepted(server: nat, worker: nat)

  /** The worker has locked the mutex of server `s` in this turn of its loop, if its flag says so. */
  predicate Inside(at: Place, s: nat) {
    match at
    case Pre(next) => s < next
    case Poll => true
    case Post(next) => s >= next
    case Tasks => false
    case Stopped => false
  }

  predicate Polls(w: Worker, s: nat) { w.at == Poll && s < |w.listens| && w.listens[s] }

  /** While it is inside, a worker owns a mutex exactly when its flag is set; it listens exactly where its
      flag is set. */
  ghost predicate WorkerOk(owner: seq<int>, me: Worker, w: nat) {
    && |me.hold| == |owner| && me.listens == me.hold
    && (match me.at case Pre(next) => next <= |owner| case Post(next) => next <= |owner| case _ => true)
    && forall s: nat | s < |owner| :: owner[s] == w <==> me.hold[s] && Inside(me.at, s)
  }

  ghost predicate AllOk(owner: seq<int>, workers: seq<Worker>) {
    && (forall w: nat | w < |workers| :: WorkerOk(owner, workers[w], w))
    && forall s: nat | s < |owner| :: owner[s] == FREE || 0 <= owner[s] < |workers|
  }

  /** Worker `w` has moved: it may have locked free mutexes or unlocked its own, and nothing else has changed. */
  ghost predicate Moved(owner: seq<int>, workers: seq<Worker>, owner': seq<int>, workers': seq<Worker>, w: nat) {
    && |owner'| == |owner| && w < |workers| == |workers'| && workers' == workers[w := workers'[w]]
    && forall s: nat | s < |owner| ::
         owner'[s] == owner[s] || (owner[s] == FREE && owner'[s] == w) || (owner[s] == w && owner'[s] == FREE)
  }

  lemma MovedOk(owner: seq<int>, workers: seq<Worker>, owner': seq<int>, workers': seq<Worker>, w: nat)
    requires AllOk(owner, workers) && Moved(owner, workers, owner', workers', w) && WorkerOk(owner', workers'[w], w)
    ensures AllOk(owner', workers')
  {
    forall v: nat | v < |workers'| ensures WorkerOk(owner', workers'[v], v) {
      assert WorkerOk(owner, workers[v], v);
    }
  }

  /** No two workers poll the same socket. */
  ghost predicate Exclusive(workers: seq<Worker>) {
    forall v: nat, w: nat, s: nat
      | v < |workers| && w < |workers| && Polls(workers[v], s) && Polls(workers[w], s) :: v == w
  }

  lemma OneOwner(owner: seq<int>, workers: seq<Worker>)
    requires AllOk(owner, workers)
    ensures Exclusive(workers)
    ensures forall w: nat, s: nat | w < |workers| && Polls(workers[w], s) :: s < |owner| && owner[s] == w
  {
    forall w: nat, s: nat | w < |workers| && Polls(workers[w], s) ensures s < |owner| && owner[s] == w {
      assert WorkerOk(owner, workers[w], w);
    }
  }

  lemma NotOwner(owner: seq<int>, workers: seq<Worker>, w: nat, s: nat)
    requires AllOk(owner, workers) && w < |workers| && s < |owner| && !Inside(workers[w].at, s)
    ensures owner[s] != w
  {
    assert WorkerOk(owner, workers[w], w);
  }

  /** When no worker is between the two loops every mutex is free. */
  lemma AllFree(owner: seq<int>, workers: seq<Worker>)
    requires AllOk(owner, workers)
    requires forall w: nat | w < |workers| :: workers[w].at in {Tasks, Stopped, Pre(0)}
    ensures forall s: nat | s < |owner| :: owner[s] == FREE
  {
    forall s: nat | s < |owner| ensures owner[s] == FREE {
      var w := owner[s];
      if w != FREE { NotOwner(owner, workers, w, s); }
    }
  }

  datatype Step = Go(w: nat) | Accept(w: nat, s: nat) | Finish(w: nat)

  /** Who has locked each mutex, the workers, and the connections that have been accepted. */
  datatype State = State(owner: seq<int>, workers: seq<Worker>, accepts: seq<Accepted>)

  /** A worker at a server in `spe_server_preloop`: it locks the mutex if that is free, and listens exactly then. */
  function Tried(s: State, w: nat, n: nat): State
    requires w < |s.workers| && n < |s.owner|
    requires |s.workers[w].hold| == |s.workers[w].listens| == |s.owner|
  {
    var free := s.owner[n] == FREE;
    var me := s.workers[w];
    s.(owner := if free then s.owner[n := w] else s.owner,
       workers := s.workers[w := Worker(Pre(n + 1), me.hold[n := free], me.listens[n := free])])
  }

  function MovedTo(s: State, w: nat, at: Place): State
    requires w < |s.workers|
  {
    s.(workers := s.workers[w := s.workers[w].(at := at)])
  }

  /** The next step of a worker in its loop. */
  function Gone(s: State, w: nat): State
    requires w < |s.workers| && |s.workers[w].hold| == |s.workers[w].listens| == |s.owner|
  {
    match s.workers[w].at
    case Pre(n) => if n < |s.owner| then Tried(s, w, n) else MovedTo(s, w, Poll)
    case Poll => MovedTo(s, w, Post(0))
    case Post(n) =>
      if n < |s.owner| then
        MovedTo(s, w, Post(n + 1)).(owner := if s.owner[n] == w then s.owner[n := FREE] else s.owner)
      else MovedTo(s, w, Tasks)
    case Tasks => MovedTo(s, w, Pre(0))
    case Stopped => s
  }

  ghost predicate Effect(s: State, s': State, step: Step) {
    match step
    case Go(w) =>
      if w < |s.workers|
      then |s.workers[w].hold| == |s.workers[w].listens| == |s.owner| && s' == Gone(s, w)
      else s' == s
    case Accept(w, n) =>
      if w < |s.workers| && Polls(s.workers[w], n)
      then n < |s.owner| && s.owner[n] == w && s' == s.(accepts := s.accepts + [Accepted(n, w)])
      else s' == s
    case Finish(w) => s' == if w < |s.workers| && s.workers[w].at == Tasks then MovedTo(s, w, Stopped) else s
  }

  /** At most one worker polls a socket, and it owns the mutex of the socket. */
  ghost predicate Safe(s: State) {
    && Exclusive(s.workers)
    && forall w: nat, n: nat | w < |s.workers| && Polls(s.workers[w], n) :: n < |s.owner| && s.owner[n] == w
  }

  class System {
    var owner: seq<int>          // for each server, the worker that has locked its mutex, or FREE
    var workers: seq<Worker>
    ghost var accepts: seq<Accepted>

    ghost predicate Valid()
      reads this
    {
      AllOk(owner, workers)
    }

    constructor (servers: nat, n: nat)
      ensures Valid() && |owner| == servers && |workers| == n && accepts == []
    {
      owner := seq(servers, _ => FREE);
      workers := seq(n, _ => Worker(Pre(0), seq(servers, _ => false), seq(servers, _ => false)));
      accepts := [];
    }

    // ---------- the mutexes ----------

    /** Locks a mutex unless it is locked; one atomic step. */
    method TryLock(s: nat, w: nat) returns (busy: bool)
      requires s < |owner|
      modifies this`owner
      ensures busy == (old(owner[s]) != FREE)
      ensures owner == if busy then old(owner) else old(owner)[s := w]
    {
      busy := owner[s] != FREE;
      if !busy { owner := owner[s := w]; }
    }

    /** Only the owner may unlock. */
    method Unlock(s: nat, w: nat)
      requires s < |owner| && owner[s] == w
      modifies this`owner
      ensures owner == old(owner)[s := FREE]
    {
      owner := owner[s := FREE];
    }

    // ---------- the loop of a worker ----------

    /** One server of `spe_server_preloop`, or the end of it. */
    method PreStep(w: nat)
      requires Valid() && w < |workers| && workers[w].at.Pre?
      modifies this`owner, this`workers
      ensures Valid() && Moved(old(owner), old(workers), owner, workers, w)
      ensures var s := old(workers[w].at.next);
              if s >= |owner| then workers[w] == old(workers[w]).(at := Poll) && owner == old(owner)
              else
                && workers[w].at == Pre(s + 1) && workers[w].hold == old(workers[w].hold)[s := old(owner[s]) == FREE]
                && owner == if old(owner[s]) == FREE then old(owner)[s := w] else old(owner)
    {
      var me := workers[w];
      var s := me.at.next;
      assert WorkerOk(owner, me, w);
      if s >= |owner| {
        workers := workers[w := me.(at := Poll)];
      } else {
        var busy := TryLock(s, w);
        var hold, listens := me.hold, me.listens;
        if !busy {
          if !hold[s] {
            hold := hold[s := true];
            listens := listens[s := true];
          }
        } else if hold[s] {
          listens := listens[s := false];
          hold := hold[s := false];
        }
        workers := workers[w := Worker(Pre(s + 1), hold, listens)];
      }
      MovedOk(old(owner), old(workers), owner, workers, w);
    }

    /** A connection is accepted on a socket that the worker polls: it owns the mutex. */
    method AcceptStep(w: nat, s: nat)
      requires Valid() && w < |workers| && Polls(workers[w], s)
      modifies this`accepts
      ensures accepts == old(accepts) + [Accepted(s, w)] && s < |owner| && owner[s] == w
    {
      OneOwner(owner, workers);
      accepts := accepts + [Accepted(s, w)];
    }

    /** The events have been handled. */
    method PollEnd(w: nat)
      requires Valid() && w < |workers| && workers[w].at == Poll
      modifies this`workers
      ensures Valid() && workers == old(workers)[w := old(workers)[w].(at := Post(0))]
    {
      assert WorkerOk(owner, workers[w], w);
      workers := workers[w := workers[w].(at := Post(0))];
      MovedOk(owner, old(workers), owner, workers, w);
    }

    /** One server of `spe_server_postloop`, or the end of it.  The mutex is unlocked if this worker owns it,
        and only then. */
    method PostStep(w: nat)
      requires Valid() && w < |workers| && workers[w].at.Post?
      modifies this`owner, this`workers
      ensures Valid() && Moved(old(owner), old(workers), owner, workers, w)
      ensures var s := old(workers[w].at.next);
              if s >= |owner| then workers[w] == old(workers[w]).(at := Tasks) && owner == old(owner)
              else
                && workers[w] == old(workers[w]).(at := Post(s + 1))
                && owner == if old(owner[s]) == w then old(owner)[s := FREE] else old(owner)
    {
      var me := workers[w];
      var s := me.at.next;
      assert WorkerOk(owner, me, w);
      if s >= |owner| {
        workers := workers[w := me.(at := Tasks)];
      } else {
        if me.hold[s] {
          Unlock(s, w);
        }
        workers := workers[w := me.(at := Post(s + 1))];
      }
      MovedOk(old(owner), old(workers), owner, workers, w);
    }

    /** The tasks have been run: the loop starts again, or the worker stops. */
    method TasksEnd(w: nat, stop: bool)
      requires Valid() && w < |workers| && workers[w].at == Tasks
      modifies this`workers
      ensures Valid() && workers == old(workers)[w := old(workers)[w].(at := if stop then Stopped else Pre(0))]
    {
      assert WorkerOk(owner, workers[w], w);
      workers := workers[w := workers[w].(at := if stop then Stopped else Pre(0))];
      MovedOk(owner, old(workers), owner, workers, w);
    }

    // ---------- the two loops, when no other worker runs in between ----------

    method Preloop(w: nat)
      requires Valid() && w < |workers| && workers[w].at == Pre(0)
      modifies this`owner, this`workers
      ensures Valid() && |workers| == old(|workers|) && workers[w].at == Poll && |owner| == old(|owner|)
      ensures |workers[w].hold| == |owner| && |workers[w].listens| == |owner|
      ensures forall s: nat | s < |owner| ::
                && workers[w].hold[s] == workers[w].listens[s] == (old(owner[s]) == FREE)
                && owner[s] == if old(owner[s]) == FREE then w else old(owner[s])
    {
      hide AllOk;
      Known(owner, workers, w);
      while workers[w].at != Poll
        invariant Valid() && |workers| == old(|workers|) && |owner| == old(|owner|)
        invariant workers[w].at == Poll || (workers[w].at.Pre? && workers[w].at.next <= |owner|)
        invariant |workers[w].hold| == |owner|
        invariant forall s: nat | s < |owner| ::
                    if Inside(workers[w].at, s) then
                      && workers[w].hold[s] == (old(owner[s]) == FREE)
                      && owner[s] == if old(owner[s]) == FREE then w else old(owner[s])
                    else owner[s] == old(owner[s])
        decreases if workers[w].at.Pre? then |owner| + 1 - workers[w].at.next else 0
      {
        PreStep(w);
      }
      Known(owner, workers, w);
    }

    /** Unlocks exactly what the worker owns. */
    method Postloop(w: nat)
      requires Valid() && w < |workers| && workers[w].at == Post(0)
      modifies this`owner, this`workers
      ensures Valid() && |workers| == old(|workers|) && workers[w].at == Tasks && |owner| == old(|owner|)
      ensures forall s: nat | s < |owner| :: owner[s] == if old(owner[s]) == w then FREE else old(owner[s])
      ensures workers[w] == old(workers[w]).(at := Tasks)
    {
      hide AllOk;
      Known(owner, workers, w);
      while workers[w].at != Tasks
        invariant Valid() && |workers| == old(|workers|) && |owner| == old(|owner|)
        invariant workers[w].at == Tasks || (workers[w].at.Post? && workers[w].at.next <= |owner|)
        invariant workers[w] == old(workers[w]).(at := workers[w].at)
        invariant forall s: nat | s < |owner| ::
                    owner[s] == if old(owner[s]) == w && !Inside(workers[w].at, s) then FREE else old(owner[s])
        decreases if workers[w].at.Post? then |owner| + 1 - workers[w].at.next else 0
      {
        PostStep(w);
      }
    }

    // ---------- any interleaving ----------

    ghost function Now(): State
      reads this
    {
      State(owner, workers, accepts)
    }

    method Do(step: Step)
      requires Valid()
      modifies this
      ensures Valid() && Effect(old(Now()), Now(), step)
    {
      hide AllOk, Moved;
      match step {
        case Go(w) =>
          if w < |workers| {
            Known(owner, workers, w);
            match workers[w].at {
              case Pre(_) => PreStep(w);
              case Poll => PollEnd(w);
              case Post(_) => PostStep(w);
              case Tasks => TasksEnd(w, false);
              case Stopped =>
            }
            Known(owner, workers, w);
          }
        case Accept(w, s) =>
          if w < |workers| && Polls(workers[w], s) { AcceptStep(w, s); }
        case Finish(w) =>
          if w < |workers| && workers[w].at == Tasks { TasksEnd(w, true); }
      }
    }

    /** However the workers are interleaved: each step has its effect, and after each at most one worker polls a
        listening socket, and it owns the mutex of the socket. */
    method Run(script: seq<Step>) returns (ghost states: seq<State>)
      requires Valid()
      modifies this
      ensures Valid()
      ensures |states| == |script| + 1 && states[0] == old(Now()) && states[|script|] == Now()
      ensures forall i | 0 <= i < |script| :: Effect(states[i], states[i + 1], script[i])
      ensures forall i | 0 <= i <= |script| :: Safe(states[i])
    {
      hide AllOk, Effect, Safe;
      states := [Now()];
      IsSafe();
      var i := 0;
      while i < |script|
        invariant Valid() && 0 <= i <= |script|
        invariant |states| == i + 1 && states[0] == old(Now()) && states[i] == Now()
        invariant forall j | 0 <= j < i :: Effect(states[j], states[j + 1], script[j])
        invariant forall j | 0 <= j <= i :: Safe(states[j])
      {
        Do(script[i]);
        IsSafe();
        states := states + [Now()];
        i := i + 1;
      }
    }

    lemma IsSafe()
      requires Valid()
      ensures Safe(Now())
    {
      hide AllOk;
      OwnersPoll(owner, workers, accepts);
    }
  }

  lemma OwnersPoll(owner: seq<int>, workers: seq<Worker>, accepts: seq<Accepted>)
    requires AllOk(owner, workers)
    ensures Safe(State(owner, workers, accepts))
  {
    hide AllOk, Polls;
    OneOwner(owner, workers);
  }

  lemma Known(owner: seq<int>, workers: seq<Worker>, w: nat)
    requires AllOk(owner, workers) && w < |workers|
    ensures |workers[w].hold| == |owner| && workers[w].listens == workers[w].hold
  {
    assert WorkerOk(owner, workers[w], w);
  }
}
