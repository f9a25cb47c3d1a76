/** What can be asked for when, and that every call comes to its end. */
module EngineProgress {
  import opened FdAccounting
  import opened Engine
  import opened EngineSafety
  import opened EngineTheorems
  import opened EngineMasks

  // ---- What can be asked for ----

  /** A request can be started on any open descriptor, whatever the kernel will answer, if and
      only if its last start has been delivered. */
  lemma StartableIff(s: State, r: Req, fd: nat, kind: Kind, outcome: Code, op: Code)
    requires Reachable(s) && r.queue in s.queues && outcome in {OK, EPERM}
    ensures Enabled(s, StartIo(r, fd, kind, outcome, op)) <==>
            s.user == Idle && fd in s.fds && StatusOf(s.trace, r) == AtRest
  {
    ReachableInv(s);
    assert StatusOf(s.trace, r) == Expected(s, r);
  }

  /** The same for a task, on any worker that is free. */
  lemma ExecutableIff(s: State, r: Req, w: nat)
    requires Reachable(s) && r.queue in s.queues
    ensures Enabled(s, Exec(r, w)) <==>
            s.user == Idle && StatusOf(s.trace, r) == AtRest && (w in s.workers ==> s.workers[w] == Free)
  {
    ReachableInv(s);
    assert StatusOf(s.trace, r) == Expected(s, r);
  }

  /** Exactly the requests pending on an open descriptor can be cancelled. */
  lemma CancellableIff(s: State, r: Req, fd: nat)
    requires Reachable(s) && s.user == Idle
    ensures Enabled(s, Cancel(r, fd)) <==> Shows(s, r, OnFd(fd))
  {
  }

  /** The poller of the queue a clean descriptor is used from can be told of everything that its
      pending requests wait for, alone or together, and of failures. */
  lemma ReportableIff(s: State, fd: nat, q: nat, ready: Mask, op: Code)
    requires ReachableFrom(s, fd, q) && fd in s.fds && Clean(s, fd) && s.user == Waiting(q)
    ensures Enabled(s, WaitFd(fd, ready, op)) <==>
            Reportable(Mask(Count(s.fds[fd].head, READABLE) > 0, Count(s.fds[fd].head, WRITABLE) > 0), ready)
  {
    CountersAndMasksExact(s, fd, q);
  }

  /** A callback can end with any result, and only while its worker holds a request whose result
      is not known yet. */
  lemma FinishableIff(s: State, w: nat, code: Code)
    ensures Enabled(s, WorkFinish(w, code)) <==> exists r :: HandOf(s, Worker(w)) == Some((r, None))
  {
    if Enabled(s, WorkFinish(w, code)) {
      assert HandOf(s, Worker(w)) == Some((s.workers[w].req, None));
    }
  }

  /** Outside a call the thread can open a descriptor that was never open, close one that is, and
      poll any queue. */
  lemma CallableIff(s: State, fd: nat, q: nat)
    requires Reachable(s)
    ensures Enabled(s, BeginClose(fd)) <==> s.user == Idle && fd in s.fds
    ensures Enabled(s, PollBegin(q)) <==> s.user == Idle && q in s.queues
    ensures Enabled(s, Open(fd)) ==> s.user == Idle && fd !in s.fds && PendingOf(s, fd) == []
    ensures s.user == Idle && fd !in s.eperm ==> Enabled(s, Open(fd))
  {
    ReachableInv(s);
  }

  // ---- Nobody is stuck ----

  /** A step of thread `t` itself, once it is inside a call. */
  predicate StepOf(a: Action, t: Thread) {
    match t
    case User =>
      || (EndStep(a) && a.t == User) || a.CloseNext? || a.CloseDone?
      || a.PollLock? || a.PollTake? || a.PollEmpty? || a.WaitTimeout? || a.WaitNotify? || a.DrainSome? || a.DrainDone?
    case Worker(w) => (EndStep(a) && a.t == t) || (a.WorkFinish? && a.w == w)
  }

  predicate InCall(s: State, t: Thread) {
    match t
    case User => s.user != Idle
    case Worker(w) => w in s.workers && s.workers[w] != Free
  }

  /** The queue whose lock the thread is about to take. */
  function WantsLock(s: State, t: Thread): Option<nat> {
    if EndOf(s, t).Some? && EndOf(s, t).value.2.Want? then Some(EndOf(s, t).value.0.queue)
    else if t == User && s.user.PollTop? then Some(s.user.q)
    else None
  }

  /** A thread that does not stand before a lock can go on. */
  lemma OutsideGoesOn(s: State, t: Thread) returns (a: Action)
    requires Shape(s) && InCall(s, t) && WantsLock(s, t) == None
    ensures Enabled(s, a) && StepOf(a, t)
  {
    if EndOf(s, t).Some? {
      a := match EndOf(s, t).value.2
           case Locked => EndPush(t)
           case Pushed => EndNotify(t)
           case _ => EndUnlock(t);
    } else if t.Worker? {
      a := WorkFinish(t.id, OK);
    } else {
      a := match s.user
           case Closing(_, rest) => if rest == [] then CloseDone else CloseNext
           case PollLocked(q) => if s.queues[q].ready == [] then PollEmpty else PollTake
           case Draining(q) => if s.queues[q].pipe > 0 then DrainSome else DrainDone
           case _ => WaitTimeout;
    }
  }

  lemma BeforeLock(s: State, t: Thread) returns (a: Action)
    requires Shape(s) && InCall(s, t) && WantsLock(s, t).Some?
    ensures WantsLock(s, t).value in s.queues
    ensures s.queues[WantsLock(s, t).value].owner == None ==> Enabled(s, a) && StepOf(a, t)
  {
    a := if EndOf(s, t).Some? then EndLock(t) else PollLock;
  }

  /** No deadlock.  In every reachable state each thread inside a call can take a step, or it
      stands before a lock that another thread holds, and that one can take a step. */
  lemma NobodyIsStuck(s: State, t: Thread) returns (a: Action, u: Thread)
    requires Reachable(s) && InCall(s, t)
    ensures Enabled(s, a) && StepOf(a, u)
    ensures u != t ==> WantsLock(s, t).Some? && Holds(s, u, WantsLock(s, t).value)
  {
    ReachableInv(s);
    u := t;
    if WantsLock(s, t) == None {
      a := OutsideGoesOn(s, t);
    } else {
      a := BeforeLock(s, t);
      var q := WantsLock(s, t).value;
      if s.queues[q].owner.Some? {
        u := s.queues[q].owner.value;
        assert Holds(s, u, q);
        a := OutsideGoesOn(s, u);
      }
    }
  }

  // ---- A close, a cancel and a refused start return ----

  function StationsLeft(at: EndPc): nat {
    match at
    case Want => 4
    case Locked => 3
    case Pushed => 2
    case Notified => 1
  }

  /** The steps the calling thread still takes in yoi_req_end and yoi_unix_onclose. */
  function StepsLeft(user: UserPc): nat {
    match user
    case Closing(_, rest) => 5 * |rest| + 1
    case Ending(_, _, at, Return) => StationsLeft(at)
    case Ending(_, _, at, CloseRest(_, rest)) => StationsLeft(at) + 5 * |rest| + 1
    case _ => 0
  }

  predicate ByUser(a: Action) {
    !a.WorkFinish? && !(EndStep(a) && a.t != User)
  }

  function UserSteps(acts: seq<Action>): nat {
    if acts == [] then 0 else (if ByUser(acts[0]) then 1 else 0) + UserSteps(acts[1..])
  }

  lemma StationTakesOne(s: State, s': State, u: Thread, next: Option<EndPc>)
    requires AtEnd(s, u, Before(next)) && EndMoved(s, s', u, next) && StepsLeft(s.user) > 0
    ensures StepsLeft(s'.user) == StepsLeft(s.user) - (if u == User then 1 else 0)
    ensures StepsLeft(s'.user) == 0 ==> s'.user == Idle
  {
    assert EndMovesThread(s, s', u, next, User);
  }

  lemma EndTakesOne(s: State, a: Action)
    requires Enabled(s, a) && EndStep(a) && StepsLeft(s.user) > 0
    ensures StepsLeft(Apply(s, a).user) == StepsLeft(s.user) - (if ByUser(a) then 1 else 0)
    ensures StepsLeft(Apply(s, a).user) == 0 ==> Apply(s, a).user == Idle
  {
    EndMoves(s, a);
    StationTakesOne(s, Apply(s, a), a.t, NextPc(a));
  }

  lemma StepTakesOne(s: State, a: Action)
    requires Enabled(s, a) && StepsLeft(s.user) > 0
    ensures StepsLeft(Apply(s, a).user) == StepsLeft(s.user) - (if ByUser(a) then 1 else 0)
    ensures StepsLeft(Apply(s, a).user) == 0 ==> Apply(s, a).user == Idle
  {
    if EndStep(a) {
      EndTakesOne(s, a);
    }
  }

  /** However its steps are interleaved with those of the workers, a close of `k` pending requests
      returns after exactly 5 k + 1 steps of the calling thread, and a cancel after its four. */
  lemma {:induction false} CallReturns(s: State, acts: seq<Action>)
    requires StepsLeft(s.user) > 0 && Follows(s, acts) && UserSteps(acts) <= StepsLeft(s.user)
    ensures StepsLeft(Run(s, acts).user) == StepsLeft(s.user) - UserSteps(acts)
    ensures UserSteps(acts) == StepsLeft(s.user) ==> Run(s, acts).user == Idle
    decreases acts
  {
    if acts != [] {
      var s' := Apply(s, acts[0]);
      StepTakesOne(s, acts[0]);
      if StepsLeft(s'.user) > 0 {
        CallReturns(s', acts[1..]);
      } else {
        WorkersOnly(s', acts[1..]);
      }
    }
  }

  /** Without a step of the calling thread it stays where it is. */
  lemma {:induction false} WorkersOnly(s: State, acts: seq<Action>)
    requires Follows(s, acts) && UserSteps(acts) == 0
    ensures Run(s, acts).user == s.user
    decreases acts
  {
    if acts != [] {
      if EndStep(acts[0]) {
        EndMoves(s, acts[0]);
      }
      WorkersOnly(Apply(s, acts[0]), acts[1..]);
    }
  }
}
