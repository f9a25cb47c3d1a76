/** What every step of the engine keeps, and what follows for whole runs. */
module EngineSafety {
  import opened FdAccounting
  import opened Engine

  // ---- Exactly one place ----

  /** The pending list of a descriptor.  Once it is being closed, the part of the list the
      close has not reached yet. */
  function PendingOf(s: State, fd: nat): seq<(Req, Kind)> {
    if fd in s.fds then s.fds[fd].head
    else match s.user
      case Closing(f, rest) => if f == fd then rest else []
      case Ending(_, _, _, CloseRest(f, rest)) => if f == fd then rest else []
      case _ => []
  }

  /** The request a thread holds, with its code once the code is known. */
  function HandOf(s: State, t: Thread): Option<(Req, Option<Code>)> {
    if EndOf(s, t).Some? then
      var (r, code, at) := EndOf(s, t).value;
      if at.Want? || at.Locked? then Some((r, Some(code))) else None
    else match WorkOf(s, t)
      case Some(r) => Some((r, None))
      case None => None
  }

  function WorkOf(s: State, t: Thread): Option<Req> {
    if t.Worker? && t.id in s.workers && s.workers[t.id].Busy? then Some(s.workers[t.id].req) else None
  }

  predicate At(s: State, r: Req, p: Place) {
    r in s.place && s.place[r] == p
  }

  ghost predicate Unrepeated(ready: seq<(Req, Code)>) {
    forall i, j :: 0 <= i < j < |ready| ==> ready[i].0 != ready[j].0
  }

  ghost predicate PendingAgrees(s: State) {
    && (forall fd :: NoRepeats(PendingOf(s, fd)))
    && (forall fd, r :: Has(PendingOf(s, fd), r) <==> At(s, r, OnFd(fd)))
  }

  ghost predicate HandsAgree(s: State) {
    forall t, r, c :: HandOf(s, t) == Some((r, c)) <==> At(s, r, InHand(t, c))
  }

  ghost predicate ReadyAgrees(s: State) {
    && (forall q :: q in s.queues ==> Unrepeated(s.queues[q].ready))
    && (forall q, r, c :: q in s.queues ==> ((r, c) in s.queues[q].ready <==> At(s, r, OnQueue(c)) && r.queue == q))
    && (forall r :: r in s.place ==> r.queue in s.queues)
  }

  ghost predicate Places(s: State) {
    PendingAgrees(s) && HandsAgree(s) && ReadyAgrees(s)
  }

  // ---- The other invariants ----

  function Expected(s: State, r: Req): Status {
    if r !in s.place then AtRest
    else match s.place[r]
      case OnFd(_) => Going
      case InHand(_, None) => Going
      case InHand(_, Some(c)) => Done(c)
      case OnQueue(c) => Done(c)
  }

  ghost predicate Traced(s: State) {
    forall r :: StatusOf(s.trace, r) == Expected(s, r)
  }

  ghost predicate Counted(s: State) {
    forall fd :: fd in s.fds ==> fd in s.eperm && Accounted(s.fds[fd], s.eperm[fd].0, s.eperm[fd].1)
  }

  predicate Holds(s: State, t: Thread, q: nat) {
    || (EndOf(s, t).Some? && !EndOf(s, t).value.2.Want? && EndOf(s, t).value.0.queue == q)
    || (t == User && s.user == PollLocked(q))
  }

  /** A queue lock is owned by exactly the thread whose position says so. */
  ghost predicate Locks(s: State) {
    forall q, t :: q in s.queues ==> (s.queues[q].owner == Some(t) <==> Holds(s, t, q))
  }

  ghost predicate Shape(s: State) {
    && (forall t :: EndOf(s, t).Some? ==> EndOf(s, t).value.0.queue in s.queues)
    && (s.user.Closing? ==> s.user.fd !in s.fds)
    && (s.user.Ending? && s.user.after.CloseRest? ==> s.user.after.fd !in s.fds)
    && (s.user.PollTop? || s.user.PollLocked? || s.user.Waiting? || s.user.Draining? ==> s.user.q in s.queues)
  }

  /** No lost wakeup. */
  predicate WakeupPending(s: State, q: nat)
    requires q in s.queues
  {
    s.queues[q].ready != [] ==>
      s.queues[q].pipe > 0 || (s.queues[q].owner.Some? && AtEnd(s, s.queues[q].owner.value, Pushed))
  }

  predicate Wakes(s: State) {
    s.pipeCap > 0 && (s.user.Waiting? && s.user.q in s.queues ==> WakeupPending(s, s.user.q))
  }

  ghost predicate Inv(s: State) {
    Places(s) && Traced(s) && Counted(s) && Shape(s) && Locks(s) && Wakes(s)
  }

  // ---- Steps ----

  lemma PendingIsStoppable(s: State, fd: nat, r: Req)
    requires Counted(s) && fd in s.fds && Has(s.fds[fd].head, r)
    ensures CanStop(s.fds[fd], r) && Stopped(s.fds[fd], r) == Stop(s.fds[fd], r)
    ensures Accounted(Stop(s.fds[fd], r), s.eperm[fd].0, s.eperm[fd].1)
  {
    StopAccounts(s.fds[fd], r, s.eperm[fd].0, s.eperm[fd].1);
  }

  lemma GetReqHas(s: State, fd: nat, ready: Mask)
    requires fd in s.fds && GetReq(s.fds[fd].head, ready).Some?
    ensures Has(s.fds[fd].head, GetReq(s.fds[fd].head, ready).value)
  {
    GetReqIsFirst(s.fds[fd].head, ready);
  }

  lemma PendingQueueKnown(s: State, fd: nat, r: Req)
    requires PendingAgrees(s) && ReadyAgrees(s) && Has(PendingOf(s, fd), r)
    ensures r.queue in s.queues && At(s, r, OnFd(fd))
  {
  }

  /** Actions that move or create a request, actions inside yoi_req_end, and the rest. */
  predicate MoveStep(a: Action) {
    a.StartIo? || a.Exec? || a.Cancel? || a.CloseNext? || a.WaitFd? || a.WorkFinish?
  }

  predicate EndStep(a: Action) {
    a.EndLock? || a.EndPush? || a.EndNotify? || a.EndUnlock?
  }

  lemma CountedOne(s: State, s': State, fd: nat)
    requires Counted(s) && fd in s'.fds && fd in s'.eperm
    requires s'.fds == s.fds[fd := s'.fds[fd]] && s'.eperm == s.eperm[fd := s'.eperm[fd]]
    requires Accounted(s'.fds[fd], s'.eperm[fd].0, s'.eperm[fd].1)
    ensures Counted(s')
  {
  }

  lemma CountedStart(s: State, r: Req, fd: nat, kind: Kind, outcome: Code, op: Code)
    requires PendingAgrees(s) && Counted(s) && Enabled(s, StartIo(r, fd, kind, outcome, op))
    ensures Counted(Apply(s, StartIo(r, fd, kind, outcome, op)))
  {
    assert Has(PendingOf(s, fd), r) <==> At(s, r, OnFd(fd));
    StartAccounts(s.fds[fd], r, kind, outcome, s.eperm[fd].0, s.eperm[fd].1);
    CountedOne(s, Apply(s, StartIo(r, fd, kind, outcome, op)), fd);
  }

  lemma CountedReport(s: State, fd: nat, ready: Mask, op: Code)
    requires Counted(s) && Enabled(s, WaitFd(fd, ready, op)) && GetReq(s.fds[fd].head, ready).Some?
    ensures Counted(Apply(s, WaitFd(fd, ready, op)))
  {
    GetReqHas(s, fd, ready);
    PendingIsStoppable(s, fd, GetReq(s.fds[fd].head, ready).value);
    CountedOne(s, Apply(s, WaitFd(fd, ready, op)), fd);
  }

  lemma CountedCancel(s: State, r: Req, fd: nat)
    requires Counted(s) && Enabled(s, Cancel(r, fd))
    ensures Counted(Apply(s, Cancel(r, fd)))
  {
    PendingIsStoppable(s, fd, r);
    CountedOne(s, Apply(s, Cancel(r, fd)), fd);
  }

  lemma CountedOpen(s: State, fd: nat)
    requires Counted(s) && Enabled(s, Open(fd))
    ensures Counted(Apply(s, Open(fd)))
  {
    assert Accounted(Empty<Req>(), 0, 0);
    CountedOne(s, Apply(s, Open(fd)), fd);
  }

  lemma CountedWait(s: State, fd: nat, ready: Mask, op: Code)
    requires Counted(s) && Enabled(s, WaitFd(fd, ready, op))
    ensures Counted(Apply(s, WaitFd(fd, ready, op)))
  {
    if GetReq(s.fds[fd].head, ready).Some? {
      CountedReport(s, fd, ready, op);
    }
  }

  lemma CountedStep(s: State, a: Action)
    requires PendingAgrees(s) && Counted(s) && Enabled(s, a)
    ensures Counted(Apply(s, a))
  {
    if a.StartIo? {
      CountedStart(s, a.req, a.fd, a.kind, a.outcome, a.op);
    } else if a.WaitFd? {
      CountedWait(s, a.fd, a.ready, a.op);
    } else if a.Cancel? {
      CountedCancel(s, a.req, a.fd);
    } else if a.Open? {
      CountedOpen(s, a.fd);
    } else {
      CountedQuiet(s, a);
    }
  }

  lemma CountedQuiet(s: State, a: Action)
    requires Counted(s) && Enabled(s, a) && !a.StartIo? && !a.WaitFd? && !a.Cancel? && !a.Open?
    ensures Counted(Apply(s, a))
  {
    var s' := Apply(s, a);
    if EndStep(a) {
      EndMoves(s, a);
    }
    assert s'.eperm == s.eperm;
    forall fd | fd in s'.fds ensures fd in s'.eperm && Accounted(s'.fds[fd], s'.eperm[fd].0, s'.eperm[fd].1) {
      assert fd in s.fds && s'.fds[fd] == s.fds[fd];
    }
  }

  /** The station the thread reaches, unless it leaves. */
  function NextPc(a: Action): Option<EndPc>
    requires EndStep(a)
  {
    match a
    case EndLock(_) => Some(Locked)
    case EndPush(_) => Some(Pushed)
    case EndNotify(_) => Some(Notified)
    case _ => None
  }

  /** The station it comes from. */
  function Before(next: Option<EndPc>): EndPc {
    match next
    case Some(Pushed) => Locked
    case Some(Notified) => Pushed
    case None => Notified
    case _ => Want
  }

  /** What an action inside yoi_req_end by thread `u` changes outside that thread's position:
      the one queue, and with the push the place of the request, ... */
  predicate EndLeaves(s: State, s': State, u: Thread, next: Option<EndPc>)
    requires EndOf(s, u).Some?
  {
    var h := EndOf(s, u).value.0.queue;
    && next != Some(Want) && h in s.queues && h in s'.queues
    && s' == s.(user := s'.user, workers := s'.workers, queues := s.queues[h := s'.queues[h]], place := s'.place)
    && s'.queues[h].owner == NextOwner(s.queues[h].owner, u, next)
    && (next == Some(Locked) ==> s.queues[h].owner == None)
    && (next != Some(Pushed) ==> s'.queues[h].ready == s.queues[h].ready && s'.place == s.place)
    && |s'.queues[h].ready| >= |s.queues[h].ready|
    && (s'.queues[h].pipe == s.queues[h].pipe || (next == Some(Notified) && s'.queues[h].pipe == s.queues[h].pipe + 1))
    && (next == Some(Notified) && s.pipeCap > 0 ==> s'.queues[h].pipe > 0)
    && (u != User ==> s'.user == s.user)
    && (u == User ==> s.user.Ending?)
    && (u == User && next.Some? ==> s'.user.Ending? && s'.user.after == s.user.after)
    && (u == User && next.None? ==> s'.user == AfterEnd(s.user.after))
  }

  function NextOwner(owner: Option<Thread>, u: Thread, next: Option<EndPc>): Option<Thread> {
    match next
    case None => None
    case Some(Locked) => Some(u)
    case _ => owner
  }

  /** ... and what it means for the position of thread `t`. */
  predicate EndMovesThread(s: State, s': State, u: Thread, next: Option<EndPc>, t: Thread)
    requires EndOf(s, u).Some?
  {
    && WorkOf(s', t) == WorkOf(s, t)
    && EndOf(s', t) ==
         if t != u then EndOf(s, t)
         else if next.Some? then Some((EndOf(s, u).value.0, EndOf(s, u).value.1, next.value)) else None
  }

  ghost predicate EndMoved(s: State, s': State, u: Thread, next: Option<EndPc>)
    requires EndOf(s, u).Some?
  {
    EndLeaves(s, s', u, next) && forall t :: EndMovesThread(s, s', u, next, t)
  }

  lemma LockMoves(s: State, u: Thread)
    requires Enabled(s, EndLock(u))
    ensures EndMoved(s, Apply(s, EndLock(u)), u, Some(Locked))
  {
  }

  lemma PushMovesUp(s: State, u: Thread)
    requires Enabled(s, EndPush(u))
    ensures EndMoved(s, Apply(s, EndPush(u)), u, Some(Pushed))
  {
  }

  lemma NotifyMoves(s: State, u: Thread)
    requires Enabled(s, EndNotify(u))
    ensures EndMoved(s, Apply(s, EndNotify(u)), u, Some(Notified))
  {
  }

  lemma UnlockMoves(s: State, u: Thread)
    requires Enabled(s, EndUnlock(u))
    ensures EndMoved(s, Apply(s, EndUnlock(u)), u, None)
  {
  }

  lemma EndMoves(s: State, a: Action)
    requires Enabled(s, a) && EndStep(a)
    ensures AtEnd(s, a.t, Before(NextPc(a))) && EndMoved(s, Apply(s, a), a.t, NextPc(a))
  {
    match a
    case EndLock(u) => LockMoves(s, u);
    case EndPush(u) => PushMovesUp(s, u);
    case EndNotify(u) => NotifyMoves(s, u);
    case EndUnlock(u) => UnlockMoves(s, u);
  }

  /** Outside, only the two steps of a worker itself move a worker. */
  lemma MoveLeavesWorkers(s: State, a: Action)
    requires Enabled(s, a) && MoveStep(a) && !a.Exec? && !a.WorkFinish?
    ensures Apply(s, a).workers == s.workers
  {
  }

  lemma OtherLeavesWorkers(s: State, a: Action)
    requires Enabled(s, a) && !MoveStep(a) && !EndStep(a)
    ensures Apply(s, a).workers == s.workers
  {
  }

  lemma UserFrame(s: State, a: Action)
    requires Enabled(s, a) && !EndStep(a)
    ensures s.user.Ending? ==> Apply(s, a).user == s.user
    ensures !s.user.Ending? && Apply(s, a).user.Ending? ==>
      Apply(s, a).user.at == Want && (a.StartIo? || a.Cancel? || a.CloseNext?)
  {
  }

  /** Outside, a call can only begin, at the first station. */
  lemma EndBegins(s: State, a: Action, t: Thread)
    requires Enabled(s, a) && !EndStep(a)
    ensures EndOf(s, t).Some? ==> EndOf(Apply(s, a), t) == EndOf(s, t)
    ensures EndOf(s, t).None? && EndOf(Apply(s, a), t).Some? ==>
      EndOf(Apply(s, a), t).value.2 == Want && MoveStep(a) && !a.Exec? && !a.WaitFd?
  {
    if !MoveStep(a) {
      OtherLeavesWorkers(s, a);
    } else if !a.Exec? && !a.WorkFinish? {
      MoveLeavesWorkers(s, a);
    }
    UserFrame(s, a);
  }

  /** At most one thread begins to end a request, and that request's queue exists. */
  lemma ShapeBegins(s: State, s': State, r: Req)
    requires Shape(s) && s'.queues == s.queues && r.queue in s.queues
    requires forall t :: EndOf(s', t).Some? ==> EndOf(s', t) == EndOf(s, t) || EndOf(s', t).value.0 == r
    requires (s'.user.Closing? ==> s'.user.fd !in s'.fds)
    requires (s'.user.Ending? && s'.user.after.CloseRest? ==> s'.user.after.fd !in s'.fds)
    requires s'.user.PollTop? || s'.user.PollLocked? || s'.user.Waiting? || s'.user.Draining? ==> s'.user.q in s'.queues
    ensures Shape(s')
  {
  }

  lemma ShapeStart(s: State, r: Req, fd: nat, kind: Kind, outcome: Code, op: Code)
    requires Shape(s) && Enabled(s, StartIo(r, fd, kind, outcome, op))
    ensures Shape(Apply(s, StartIo(r, fd, kind, outcome, op)))
  {
    ShapeBegins(s, Apply(s, StartIo(r, fd, kind, outcome, op)), r);
  }

  lemma ShapeExec(s: State, r: Req, w: nat)
    requires Shape(s) && Enabled(s, Exec(r, w))
    ensures Shape(Apply(s, Exec(r, w)))
  {
    ShapeBegins(s, Apply(s, Exec(r, w)), r);
  }

  lemma ShapeCancel(s: State, r: Req, fd: nat)
    requires Shape(s) && Enabled(s, Cancel(r, fd)) && r.queue in s.queues
    ensures Shape(Apply(s, Cancel(r, fd)))
  {
    ShapeBegins(s, Apply(s, Cancel(r, fd)), r);
  }

  lemma ShapeClose(s: State)
    requires Shape(s) && Enabled(s, CloseNext) && s.user.rest[0].0.queue in s.queues
    ensures Shape(Apply(s, CloseNext))
  {
    ShapeBegins(s, Apply(s, CloseNext), s.user.rest[0].0);
  }

  lemma ShapeReport(s: State, fd: nat, ready: Mask, op: Code)
    requires Shape(s) && Enabled(s, WaitFd(fd, ready, op))
    ensures Shape(Apply(s, WaitFd(fd, ready, op)))
  {
    assert forall t :: EndOf(Apply(s, WaitFd(fd, ready, op)), t) == EndOf(s, t);
  }

  lemma ShapeFinish(s: State, w: nat, code: Code)
    requires Shape(s) && Enabled(s, WorkFinish(w, code)) && s.workers[w].req.queue in s.queues
    ensures Shape(Apply(s, WorkFinish(w, code)))
  {
    ShapeBegins(s, Apply(s, WorkFinish(w, code)), s.workers[w].req);
  }

  lemma ShapeMove(s: State, a: Action)
    requires Places(s) && Shape(s) && Enabled(s, a) && MoveStep(a)
    ensures Shape(Apply(s, a))
  {
    match a
    case StartIo(r, fd, kind, outcome, op) => ShapeStart(s, r, fd, kind, outcome, op);
    case Exec(r, w) => ShapeExec(s, r, w);
    case Cancel(r, fd) =>
      PendingQueueKnown(s, fd, r);
      ShapeCancel(s, r, fd);
    case CloseNext =>
      PendingQueueKnown(s, s.user.fd, s.user.rest[0].0);
      ShapeClose(s);
    case WaitFd(fd, ready, op) => ShapeReport(s, fd, ready, op);
    case WorkFinish(w, code) =>
      assert HandOf(s, Worker(w)) == Some((s.workers[w].req, None));
      ShapeFinish(s, w, code);
  }

  lemma ShapeMovesOn(s: State, s': State, u: Thread, next: Option<EndPc>)
    requires Shape(s) && EndOf(s, u).Some? && EndMoved(s, s', u, next)
    ensures Shape(s')
  {
    forall t | EndOf(s', t).Some? ensures EndOf(s', t).value.0.queue in s'.queues {
      assert EndMovesThread(s, s', u, next, t);
    }
  }

  lemma ShapeEnd(s: State, a: Action)
    requires Shape(s) && Enabled(s, a) && EndStep(a)
    ensures Shape(Apply(s, a))
  {
    EndMoves(s, a);
    ShapeMovesOn(s, Apply(s, a), a.t, NextPc(a));
  }

  lemma ShapeOther(s: State, a: Action)
    requires Shape(s) && Enabled(s, a) && !EndStep(a) && !MoveStep(a)
    ensures Shape(Apply(s, a))
  {
    forall t ensures EndOf(Apply(s, a), t) == EndOf(s, t) {
      EndBegins(s, a, t);
    }
  }

  lemma LockMovesOn(s: State, s': State, u: Thread, next: Option<EndPc>, q: nat, t: Thread)
    requires Locks(s) && q in s.queues && AtEnd(s, u, Before(next)) && EndMoved(s, s', u, next)
    ensures s'.queues[q].owner == Some(t) <==> Holds(s', t, q)
  {
    assert EndMovesThread(s, s', u, next, t);
    assert s.queues[q].owner == Some(t) <==> Holds(s, t, q);
    assert s.queues[q].owner == Some(u) <==> Holds(s, u, q);
  }

  lemma LocksEnd(s: State, a: Action)
    requires Locks(s) && Enabled(s, a) && EndStep(a)
    ensures Locks(Apply(s, a))
  {
    EndMoves(s, a);
    forall q, t | q in Apply(s, a).queues ensures Apply(s, a).queues[q].owner == Some(t) <==> Holds(Apply(s, a), t, q) {
      LockMovesOn(s, Apply(s, a), a.t, NextPc(a), q, t);
    }
  }

  lemma LocksOther(s: State, a: Action)
    requires Locks(s) && Shape(s) && Enabled(s, a) && !EndStep(a)
    ensures Locks(Apply(s, a))
  {
    var s' := Apply(s, a);
    forall q, t | q in s'.queues ensures s'.queues[q].owner == Some(t) <==> Holds(s', t, q) {
      EndBegins(s, a, t);
      assert s.queues[q].owner == Some(t) <==> Holds(s, t, q);
      assert s.queues[q].owner == Some(User) <==> Holds(s, User, q);
    }
  }

  /** The wakeup stays pending through every step of a completing thread ... */
  lemma WakesEnd(s: State, a: Action)
    requires Locks(s) && Wakes(s) && Enabled(s, a) && EndStep(a)
    ensures Wakes(Apply(s, a))
  {
    EndMoves(s, a);
    if s.user.Waiting? && s.user.q in s.queues {
      WakeupSurvives(s, Apply(s, a), a.t, NextPc(a), s.user.q);
    }
  }

  lemma WakeupSurvives(s: State, s': State, u: Thread, next: Option<EndPc>, q: nat)
    requires Locks(s) && s.pipeCap > 0 && q in s.queues && WakeupPending(s, q)
    requires AtEnd(s, u, Before(next)) && EndMoved(s, s', u, next)
    ensures q in s'.queues && WakeupPending(s', q)
  {
    assert EndMovesThread(s, s', u, next, u);
    if EndOf(s, u).value.0.queue == q {
      assert s.queues[q].owner == Some(u) <==> Holds(s, u, q);
    } else if s.queues[q].owner.Some? {
      var t := s.queues[q].owner.value;
      assert Holds(s, t, q) && EndMovesThread(s, s', u, next, t);
    }
  }

  /** ... and is true when the poller begins to wait, because it just saw an empty list under
      the lock. */
  lemma WakesOther(s: State, a: Action)
    requires Wakes(s) && Shape(s) && Enabled(s, a) && !EndStep(a)
    ensures Wakes(Apply(s, a))
  {
    if s.user.Waiting? && Apply(s, a).user.Waiting? {
      assert a.WorkFinish? && WakeupPending(s, s.user.q);
      if s.queues[s.user.q].owner.Some? {
        EndBegins(s, a, s.queues[s.user.q].owner.value);
      }
    }
  }
}
