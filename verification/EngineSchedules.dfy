/** What becomes of a wakeup: every way to schedule the poller and the thread that holds the
    queue lock leads to a delivery. */
module EngineSchedules {
  import opened FdAccounting
  import opened Engine
  import opened EngineSafety
  import opened EngineTheorems
  import opened EngineMasks

  /** A step of the poller of `q`, other than to give up waiting, ... */
  predicate PollerStep(a: Action) {
    a.WaitNotify? || a.WaitFd? || a.DrainSome? || a.DrainDone? || a.PollLock? || a.PollTake?
  }

  /** ... or of the thread inside the lock of `q`. */
  predicate HolderStep(s: State, a: Action, q: nat) {
    (a.EndPush? || a.EndNotify? || a.EndUnlock?) && EndOf(s, a.t).Some? && EndOf(s, a.t).value.0.queue == q
  }

  predicate StepFor(s: State, a: Action, q: nat) {
    Enabled(s, a) && (PollerStep(a) || HolderStep(s, a, q))
  }

  predicate Polling(s: State, q: nat) {
    s.user == Waiting(q) || s.user == Draining(q) || s.user == PollTop(q) || s.user == PollLocked(q)
  }

  /** The poller is somewhere between its wait and its pop, and has something to deliver. */
  ghost predicate Ripe(s: State, q: nat) {
    Inv(s) && q in s.queues && Polling(s, q) && s.queues[q].ready != []
  }

  /** A schedule: nobody else moves. */
  predicate Schedule(s: State, acts: seq<Action>, q: nat)
    decreases acts
  {
    acts == [] || (StepFor(s, acts[0], q) && Schedule(Apply(s, acts[0]), acts[1..], q))
  }

  // ---- The steps that are left ----

  function Reads(pipe: nat): nat {
    (pipe + CHUNK - 1) / CHUNK
  }

  function UserRank(s: State): nat {
    match s.user
    case Waiting(_) => 4
    case Draining(_) => 3
    case PollTop(_) => 2
    case PollLocked(_) => 1
    case _ => 0
  }

  /** The holder's remaining steps.  Its notification counts twice: it can cost one more read. */
  function HolderRank(s: State, q: nat): nat {
    if q !in s.queues || s.queues[q].owner.None? || s.queues[q].owner == Some(User) then 0
    else if AtEnd(s, s.queues[q].owner.value, Locked) then 4
    else if AtEnd(s, s.queues[q].owner.value, Pushed) then 3
    else 1
  }

  function Rank(s: State, q: nat): nat
    requires q in s.queues
  {
    UserRank(s) + HolderRank(s, q) + Reads(s.queues[q].pipe)
  }

  /** The poller has returned with a request. */
  predicate Delivers(s: State, s': State) {
    s'.user == Idle && s.trace < s'.trace && s'.trace[|s'.trace|-1].Delivered?
  }

  /** ... and one of queue `q`. */
  predicate DeliversOf(s: State, s': State, q: nat) {
    Delivers(s, s') && s'.trace[|s'.trace|-1].req.queue == q
  }

  /** Every descriptor reported on the way is private to `q`. */
  ghost predicate ReportsOf(s: State, acts: seq<Action>, q: nat) {
    forall a :: a in acts && a.WaitFd? ==> Private(s, a.fd, q)
  }

  /** Nothing is delivered yet, and fewer steps are left. */
  ghost predicate Nearer(s: State, s': State, q: nat)
    requires q in s.queues
  {
    && q in s'.queues && Polling(s', q) && s'.queues[q].ready != [] && s'.trace == s.trace
    && Rank(s', q) < Rank(s, q)
  }

  lemma NotifyNearer(s: State, q: nat)
    requires q in s.queues && Polling(s, q) && s.queues[q].ready != [] && Enabled(s, WaitNotify)
    ensures Nearer(s, Apply(s, WaitNotify), q)
  {
  }

  lemma DrainNearer(s: State, q: nat)
    requires q in s.queues && Polling(s, q) && s.queues[q].ready != [] && Enabled(s, DrainSome)
    ensures Nearer(s, Apply(s, DrainSome), q)
  {
  }

  lemma DrainedNearer(s: State, q: nat)
    requires q in s.queues && Polling(s, q) && s.queues[q].ready != [] && Enabled(s, DrainDone)
    ensures Nearer(s, Apply(s, DrainDone), q)
  {
  }

  lemma LockNearer(s: State, q: nat)
    requires q in s.queues && Polling(s, q) && s.queues[q].ready != [] && Enabled(s, PollLock)
    ensures Nearer(s, Apply(s, PollLock), q)
  {
  }

  /** A report that finds nobody sends the poller back to the pop. */
  lemma SpinNearer(s: State, fd: nat, ready: Mask, op: Code, q: nat)
    requires q in s.queues && Polling(s, q) && s.queues[q].ready != []
    requires Enabled(s, WaitFd(fd, ready, op)) && GetReq(s.fds[fd].head, ready).None?
    ensures Nearer(s, Apply(s, WaitFd(fd, ready, op)), q)
  {
  }

  lemma PollerProgress(s: State, a: Action, q: nat)
    requires q in s.queues && Polling(s, q) && s.queues[q].ready != []
    requires Enabled(s, a) && PollerStep(a) && !a.PollTake? && !a.WaitFd?
    ensures Nearer(s, Apply(s, a), q)
  {
    match a
    case WaitNotify => NotifyNearer(s, q);
    case DrainSome => DrainNearer(s, q);
    case DrainDone => DrainedNearer(s, q);
    case PollLock => LockNearer(s, q);
  }

  /** What the poller's return leaves of the schedule: the holder's own steps. */
  predicate Left(s: State, s': State, q: nat)
    requires q in s.queues
  {
    q in s'.queues && HolderRank(s', q) < Rank(s, q)
  }

  lemma TakeDelivers(s: State, q: nat)
    requires ReadyAgrees(s) && q in s.queues && s.user == PollLocked(q) && Enabled(s, PollTake)
    ensures DeliversOf(s, Apply(s, PollTake), q) && Left(s, Apply(s, PollTake), q)
  {
    var (r, code) := s.queues[q].ready[0];
    assert (r, code) in s.queues[q].ready && r.queue == q;
  }

  lemma ReportHandsOver(s: State, fd: nat, ready: Mask, op: Code, q: nat)
    requires q in s.queues && s.user == Waiting(q)
    requires Enabled(s, WaitFd(fd, ready, op)) && GetReq(s.fds[fd].head, ready).Some?
    ensures var s' := Apply(s, WaitFd(fd, ready, op));
      Delivers(s, s') && Left(s, s', q) && s'.trace[|s'.trace|-1].req == GetReq(s.fds[fd].head, ready).value
  {
  }

  lemma ReportProgress(s: State, fd: nat, ready: Mask, op: Code, q: nat)
    requires q in s.queues && s.user == Waiting(q) && s.queues[q].ready != [] && Enabled(s, WaitFd(fd, ready, op))
    ensures var s' := Apply(s, WaitFd(fd, ready, op));
      || (Delivers(s, s') && Left(s, s', q) && (Private(s, fd, q) ==> DeliversOf(s, s', q)))
      || Nearer(s, s', q)
  {
    if GetReq(s.fds[fd].head, ready).Some? {
      ReportHandsOver(s, fd, ready, op, q);
      GetReqHas(s, fd, ready);
      assert Has(PendingOf(s, fd), GetReq(s.fds[fd].head, ready).value);
    } else {
      SpinNearer(s, fd, ready, op, q);
    }
  }

  lemma HolderOwns(s: State, a: Action, q: nat)
    requires Locks(s) && q in s.queues && Enabled(s, a) && HolderStep(s, a, q)
    ensures s.queues[q].owner == Some(a.t)
  {
    assert Holds(s, a.t, q);
  }

  lemma HolderFalls(s: State, s': State, u: Thread, next: Option<EndPc>, q: nat)
    requires q in s.queues && s.queues[q].owner == Some(u) && u != User
    requires AtEnd(s, u, Before(next)) && EndMoved(s, s', u, next) && EndOf(s, u).value.0.queue == q
    requires next != Some(Locked)
    ensures q in s'.queues && s'.user == s.user && s'.trace == s.trace
    ensures |s'.queues[q].ready| >= |s.queues[q].ready| && HolderRank(s', q) < HolderRank(s, q)
    ensures HolderRank(s', q) + Reads(s'.queues[q].pipe) < HolderRank(s, q) + Reads(s.queues[q].pipe)
  {
    assert EndMovesThread(s, s', u, next, u);
  }

  lemma HolderProgress(s: State, a: Action, q: nat)
    requires Locks(s) && q in s.queues && !s.user.Ending? && Enabled(s, a) && HolderStep(s, a, q)
    ensures var s' := Apply(s, a);
      && q in s'.queues && s'.user == s.user && s'.trace == s.trace
      && |s'.queues[q].ready| >= |s.queues[q].ready| && HolderRank(s', q) < HolderRank(s, q)
      && HolderRank(s', q) + Reads(s'.queues[q].pipe) < HolderRank(s, q) + Reads(s.queues[q].pipe)
  {
    HolderOwns(s, a, q);
    EndMoves(s, a);
    HolderFalls(s, Apply(s, a), a.t, NextPc(a), q);
  }

  lemma PopProgress(s: State, a: Action, q: nat)
    requires ReadyAgrees(s) && q in s.queues && Polling(s, q) && s.queues[q].ready != []
    requires Enabled(s, a) && (a.PollTake? || a.WaitFd?)
    ensures var s' := Apply(s, a);
      || (Delivers(s, s') && Left(s, s', q) && (ReportsOf(s, [a], q) ==> DeliversOf(s, s', q)))
      || Nearer(s, s', q)
  {
    if a.PollTake? {
      TakeDelivers(s, q);
    } else {
      assert a in [a];
      ReportProgress(s, a.fd, a.ready, a.op, q);
    }
  }

  lemma MovesNearer(s: State, a: Action, q: nat)
    requires Locks(s) && q in s.queues && Polling(s, q) && s.queues[q].ready != []
    requires StepFor(s, a, q) && !a.PollTake? && !a.WaitFd?
    ensures Nearer(s, Apply(s, a), q)
  {
    if PollerStep(a) {
      PollerProgress(s, a, q);
    } else {
      HolderProgress(s, a, q);
    }
  }

  /** Every step returns with a request, or comes strictly closer to it. */
  lemma StepProgress(s: State, a: Action, q: nat)
    requires Ripe(s, q) && StepFor(s, a, q)
    ensures var s' := Apply(s, a);
      || (Delivers(s, s') && Left(s, s', q) && (ReportsOf(s, [a], q) ==> DeliversOf(s, s', q)))
      || (Ripe(s', q) && s'.trace == s.trace && Rank(s', q) < Rank(s, q))
  {
    StepKeepsInv(s, a);
    if a.PollTake? || a.WaitFd? {
      PopProgress(s, a, q);
    } else {
      MovesNearer(s, a, q);
    }
  }

  /** A thread inside a queue's lock can always take its next step, wherever the poller is. */
  lemma HolderProceeds(s: State, q: nat) returns (a: Action)
    requires Inv(s) && q in s.queues && s.queues[q].owner.Some? && s.queues[q].owner != Some(User)
    ensures Enabled(s, a) && HolderStep(s, a, q) && a.t == s.queues[q].owner.value
  {
    var t := s.queues[q].owner.value;
    assert Holds(s, t, q);
    a := if AtEnd(s, t, Locked) then EndPush(t) else if AtEnd(s, t, Pushed) then EndNotify(t) else EndUnlock(t);
  }

  /** Until the delivery somebody can move. */
  lemma NeverStuck(s: State, q: nat) returns (a: Action)
    requires Ripe(s, q)
    ensures StepFor(s, a, q) && !a.WaitFd?
  {
    var qs := s.queues[q];
    if qs.owner.Some? && qs.owner != Some(User) {
      a := HolderProceeds(s, q);
    } else {
      assert qs.owner == Some(User) <==> Holds(s, User, q);
      assert s.user.Waiting? ==> WakeupPending(s, q);
      a := if s.user.Waiting? then WaitNotify
           else if s.user.Draining? then (if qs.pipe > 0 then DrainSome else DrainDone)
           else if s.user.PollTop? then PollLock
           else PollTake;
    }
  }

  /** After the return only the holder is left to move, for its remaining stations. */
  lemma {:induction false} AfterReturn(s: State, acts: seq<Action>, q: nat)
    requires Inv(s) && s.user == Idle && q in s.queues && Schedule(s, acts, q)
    ensures Follows(s, acts) && |acts| <= HolderRank(s, q)
    ensures Run(s, acts).user == Idle && Run(s, acts).trace == s.trace
    decreases acts
  {
    if acts != [] {
      StepKeepsInv(s, acts[0]);
      HolderProgress(s, acts[0], q);
      AfterReturn(Apply(s, acts[0]), acts[1..], q);
    }
  }

  lemma ReportsNext(s: State, acts: seq<Action>, q: nat)
    requires Inv(s) && acts != [] && StepFor(s, acts[0], q) && ReportsOf(s, acts, q)
    ensures ReportsOf(s, [acts[0]], q) && ReportsOf(Apply(s, acts[0]), acts[1..], q)
  {
    forall a | a in acts[1..] && a.WaitFd? ensures Private(Apply(s, acts[0]), a.fd, q) {
      assert a in acts;
      PrivateStep(s, acts[0], a.fd, q);
    }
  }

  /** Between `s` and `e` the poller has returned, with a request of `q` if `own`, or it is still
      on its way. */
  ghost predicate Advanced(s: State, e: State, own: bool, q: nat) {
    (Delivers(s, e) && (own ==> DeliversOf(s, e, q))) || (Ripe(e, q) && e.trace == s.trace)
  }

  lemma HasReturned(s: State, s': State, e: State, own: bool, q: nat)
    requires Delivers(s, s') && (own ==> DeliversOf(s, s', q)) && e.user == Idle && e.trace == s'.trace
    ensures Advanced(s, e, own, q)
  {
  }

  lemma IsCloser(s: State, s': State, e: State, own: bool, q: nat)
    requires Advanced(s', e, own, q) && s'.trace == s.trace
    ensures Advanced(s, e, own, q)
  {
  }

  lemma FirstStep(s: State, acts: seq<Action>)
    requires acts != [] && Enabled(s, acts[0]) && Follows(Apply(s, acts[0]), acts[1..])
    ensures Follows(s, acts) && Run(s, acts) == Run(Apply(s, acts[0]), acts[1..])
  {
  }

  lemma {:induction false} ScheduleProgress(s: State, acts: seq<Action>, q: nat, own: bool)
    requires Ripe(s, q) && Schedule(s, acts, q) && (own ==> ReportsOf(s, acts, q))
    ensures Follows(s, acts) && |acts| <= Rank(s, q) && Advanced(s, Run(s, acts), own, q)
    decreases acts
  {
    if acts != [] {
      var s' := Apply(s, acts[0]);
      StepProgress(s, acts[0], q);
      StepKeepsInv(s, acts[0]);
      if own {
        ReportsNext(s, acts, q);
      }
      if Delivers(s, s') {
        AfterReturn(s', acts[1..], q);
        FirstStep(s, acts);
        HasReturned(s, s', Run(s, acts), own, q);
      } else {
        ScheduleProgress(s', acts[1..], q, own);
        FirstStep(s, acts);
        IsCloser(s, s', Run(s, acts), own, q);
      }
    }
  }

  /** No lost wakeup, as a promise about the future.  From every reachable state in which the
      poller waits and a request is ready, *every* schedule of the poller and the lock's
      holder that goes on as long as one of them can move returns with a request, also when
      the wait ends with a report of a descriptor, and no schedule is longer than the bound.
      The request belongs to the polled queue if every descriptor reported is used from it. */
  lemma EveryScheduleDelivers(s: State, acts: seq<Action>, q: nat)
    requires Reachable(s) && s.user == Waiting(q) && q in s.queues && s.queues[q].ready != []
    requires Schedule(s, acts, q)
    ensures |acts| <= Reads(s.queues[q].pipe) + 8
    ensures Follows(s, acts)
    ensures (forall a :: !StepFor(Run(s, acts), a, q)) ==>
      && Delivers(s, Run(s, acts))
      && ((forall a :: a in acts && a.WaitFd? ==> ReachableFrom(s, a.fd, q)) ==> DeliversOf(s, Run(s, acts), q))
  {
    ReachableInv(s);
    forall a | a in acts && a.WaitFd? && ReachableFrom(s, a.fd, q) ensures Private(s, a.fd, q) {
      ReachablePrivate(s, a.fd, q);
    }
    ScheduleProgress(s, acts, q, forall a :: a in acts && a.WaitFd? ==> ReachableFrom(s, a.fd, q));
    if !Delivers(s, Run(s, acts)) {
      var a := NeverStuck(Run(s, acts), q);
    }
  }

  /** Such schedules exist, without any report. */
  lemma {:induction false} DeliveringSchedule(s: State, q: nat) returns (acts: seq<Action>)
    requires Ripe(s, q)
    ensures Schedule(s, acts, q) && Follows(s, acts) && DeliversOf(s, Run(s, acts), q)
    ensures forall a :: a in acts ==> !a.WaitFd?
    decreases Rank(s, q)
  {
    var a := NeverStuck(s, q);
    StepProgress(s, a, q);
    var rest: seq<Action> := [];
    if !Delivers(s, Apply(s, a)) {
      rest := DeliveringSchedule(Apply(s, a), q);
    }
    acts := [a] + rest;
    assert acts[1..] == rest;
  }

  // ---- A notification is used up ----

  /** The poller's own steps when nobody has anything for it: no timeout, no report. */
  predicate IdleStep(a: Action) {
    a.WaitNotify? || a.DrainSome? || a.DrainDone? || a.PollLock? || a.PollEmpty?
  }

  predicate IdleSchedule(s: State, acts: seq<Action>)
    decreases acts
  {
    acts == [] || (Enabled(s, acts[0]) && IdleStep(acts[0]) && IdleSchedule(Apply(s, acts[0]), acts[1..]))
  }

  /** The poller of `q` goes round an empty list.  Past the drain the pipe is empty. */
  predicate Rounds(s: State, q: nat) {
    && q in s.queues && s.queues[q].ready == [] && Polling(s, q)
    && (s.user.PollTop? || s.user.PollLocked? ==> s.queues[q].pipe == 0)
  }

  function IdleRank(s: State, q: nat): nat
    requires q in s.queues
  {
    match s.user
    case Waiting(_) => if s.queues[q].pipe > 0 then 4 + Reads(s.queues[q].pipe) else 0
    case Draining(_) => 3 + Reads(s.queues[q].pipe)
    case PollTop(_) => 2
    case PollLocked(_) => 1
    case _ => 0
  }

  lemma IdleProgress(s: State, a: Action, q: nat)
    requires Rounds(s, q) && Enabled(s, a) && IdleStep(a)
    ensures Rounds(Apply(s, a), q) && IdleRank(Apply(s, a), q) + 1 == IdleRank(s, q)
  {
    match a
    case WaitNotify =>
    case DrainSome =>
    case DrainDone =>
    case PollLock =>
    case PollEmpty =>
  }

  lemma {:induction false} IdleRun(s: State, acts: seq<Action>, q: nat)
    requires Rounds(s, q) && IdleSchedule(s, acts)
    ensures Follows(s, acts) && Rounds(Run(s, acts), q) && |acts| + IdleRank(Run(s, acts), q) == IdleRank(s, q)
    decreases acts
  {
    if acts != [] {
      IdleProgress(s, acts[0], q);
      IdleRun(Apply(s, acts[0]), acts[1..], q);
    }
  }

  /** When an idle schedule can go no further, the pipe is empty and the poller waits, or it
      stands before the lock that another thread holds. */
  lemma IdleStops(s: State, q: nat)
    requires Rounds(s, q) && Inv(s) && forall a :: Enabled(s, a) ==> !IdleStep(a)
    ensures s.queues[q].pipe == 0
    ensures s.user == Waiting(q) || (s.user == PollTop(q) && s.queues[q].owner.Some? && s.queues[q].owner != Some(User))
  {
    assert !Enabled(s, WaitNotify) && !Enabled(s, DrainSome) && !Enabled(s, DrainDone);
    assert !Enabled(s, PollLock) && !Enabled(s, PollEmpty);
    assert s.queues[q].owner == Some(User) <==> Holds(s, User, q);
  }

  /** A notification does not keep the poller going.  From every reachable state in which it waits
      and nothing is ready, every schedule of its own steps is at most four steps longer than the
      reads that empty the pipe, and one that can go no further has emptied the pipe and waits
      again, after exactly so many steps if there was a byte, unless another thread is inside
      the lock. */
  lemma NotificationIsUsedUp(s: State, acts: seq<Action>, q: nat)
    requires Reachable(s) && s.user == Waiting(q) && q in s.queues && s.queues[q].ready == []
    requires IdleSchedule(s, acts)
    ensures Follows(s, acts) && |acts| <= Reads(s.queues[q].pipe) + 4
    ensures var e := Run(s, acts);
      q in e.queues && ((forall a :: Enabled(e, a) ==> !IdleStep(a)) ==>
        && e.queues[q].pipe == 0
        && ((e.user == Waiting(q) && |acts| == if s.queues[q].pipe > 0 then Reads(s.queues[q].pipe) + 4 else 0) ||
            (e.user == PollTop(q) && e.queues[q].owner.Some? && e.queues[q].owner != Some(User))))
  {
    ReachableInv(s);
    IdleRun(s, acts, q);
    RunKeepsInv(s, acts);
    if forall a :: Enabled(Run(s, acts), a) ==> !IdleStep(a) {
      IdleStops(Run(s, acts), q);
    }
  }
}
