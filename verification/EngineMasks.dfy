/** The kernel's interest masks over whole runs.  Every theorem is about one descriptor `fd`
    and one queue `q`, and asks only that `fd` is used from `q`; whatever the run does with
    other descriptors, from however many queues, makes no difference. */
module EngineMasks {
  import opened FdAccounting
  import opened Engine
  import opened EngineSafety
  import opened EnginePlaces
  import opened EngineTheorems

  /** No start on this descriptor was ever refused with EPERM. */
  predicate Clean(s: State, fd: nat) {
    fd in s.eperm && s.eperm[fd] == (0, 0)
  }

  /** The action does not start a request of another queue than `q` on `fd`. */
  predicate UsesFrom(a: Action, fd: nat, q: nat) {
    a.StartIo? && a.fd == fd ==> a.req.queue == q
  }

  predicate RegisteredAs(s: State, q: nat, fd: nat, mask: Mask) {
    if mask == NOTHING then (q, fd) !in s.reg
    else (q, fd) in s.reg && s.reg[(q, fd)] == mask
  }

  /** Only requests of `q` are pending on `fd`, ... */
  ghost predicate PendingFrom(s: State, fd: nat, q: nat) {
    forall r :: Has(PendingOf(s, fd), r) ==> r.queue == q
  }

  /** ... only `q` has it registered, ... */
  ghost predicate RegisteredFrom(s: State, fd: nat, q: nat) {
    forall p :: (p, fd) in s.reg ==> p == q && fd in s.eperm
  }

  /** ... and with the right mask, if no counter is off. */
  predicate MaskedAt(s: State, fd: nat, q: nat) {
    Clean(s, fd) ==>
      if fd in s.fds then RegisteredAs(s, q, fd, s.fds[fd].Interest())
      else (q, fd) in s.reg ==> PendingOf(s, fd) != []
  }

  ghost predicate Private(s: State, fd: nat, q: nat) {
    PendingFrom(s, fd, q) && RegisteredFrom(s, fd, q) && MaskedAt(s, fd, q)
  }

  // ---- What a step leaves alone ----

  lemma SamePending(s: State, a: Action)
    requires Counted(s) && Enabled(s, a) && !MoveStep(a)
    ensures forall fd :: PendingOf(Apply(s, a), fd) == PendingOf(s, fd)
  {
    if EndStep(a) {
      EndKeepsPending(s, a);
    } else if PollStep(a) {
      QuietPoll(s, a);
    } else if a.PollTake? {
      TakeFrame(s);
    } else {
      QuietOther(s, a);
    }
  }


  lemma EndKeepsPending(s: State, a: Action)
    requires Enabled(s, a) && EndStep(a)
    ensures forall fd :: PendingOf(Apply(s, a), fd) == PendingOf(s, fd)
  {
    EndMoves(s, a);
  }


  lemma RegFrame(s: State, a: Action)
    requires Enabled(s, a) && !MoveStep(a)
    ensures Apply(s, a).reg == s.reg
  {
    if EndStep(a) {
      EndMoves(s, a);
    }
  }


  lemma EpermFrame(s: State, a: Action)
    requires Enabled(s, a) && !a.Open? && !a.StartIo?
    ensures Apply(s, a).eperm == s.eperm
  {
    if EndStep(a) {
      EndMoves(s, a);
    }
  }


  lemma FdsFrame(s: State, a: Action)
    requires Enabled(s, a) && !MoveStep(a)
    ensures Apply(s, a).fds
         == if a.Open? then s.fds[a.fd := Empty()] else if a.BeginClose? then s.fds - {a.fd} else s.fds
  {
    if EndStep(a) {
      EndMoves(s, a);
    }
  }


  /** Nothing about `fd` is different. */
  ghost predicate SameAt(s: State, s': State, fd: nat) {
    && (fd in s.fds <==> fd in s'.fds) && (fd in s.fds ==> s'.fds[fd] == s.fds[fd])
    && (fd in s.eperm <==> fd in s'.eperm) && (fd in s.eperm ==> s'.eperm[fd] == s.eperm[fd])
    && PendingOf(s', fd) == PendingOf(s, fd)
    && forall p :: (p, fd) in s.reg || (p, fd) in s'.reg ==>
         (p, fd) in s.reg && (p, fd) in s'.reg && s'.reg[(p, fd)] == s.reg[(p, fd)]
  }

  /** The step is about descriptor `fd`. */
  predicate Touches(s: State, a: Action, fd: nat)
    requires Enabled(s, a)
  {
    match a
    case Open(f) => f == fd
    case StartIo(_, f, _, _, _) => f == fd
    case Cancel(_, f) => f == fd
    case BeginClose(f) => f == fd
    case CloseNext => s.user.fd == fd
    case WaitFd(f, ready, _) => f == fd && GetReq(s.fds[fd].head, ready).Some?
    case _ => false
  }

  lemma StartElsewhere(s: State, x: Req, f: nat, kind: Kind, outcome: Code, op: Code, fd: nat)
    requires Enabled(s, StartIo(x, f, kind, outcome, op)) && f != fd
    ensures SameAt(s, Apply(s, StartIo(x, f, kind, outcome, op)), fd)
  {
  }

  lemma CancelElsewhere(s: State, x: Req, f: nat, fd: nat)
    requires Enabled(s, Cancel(x, f)) && f != fd
    ensures SameAt(s, Apply(s, Cancel(x, f)), fd)
  {
  }

  lemma CloseElsewhere(s: State, fd: nat)
    requires Enabled(s, CloseNext) && s.user.fd != fd
    ensures SameAt(s, Apply(s, CloseNext), fd)
  {
  }

  lemma ReportElsewhere(s: State, f: nat, ready: Mask, op: Code, fd: nat)
    requires Enabled(s, WaitFd(f, ready, op)) && (f != fd || GetReq(s.fds[f].head, ready).None?)
    ensures SameAt(s, Apply(s, WaitFd(f, ready, op)), fd)
  {
  }

  lemma MoveElsewhere(s: State, a: Action, fd: nat)
    requires Enabled(s, a) && MoveStep(a) && !Touches(s, a, fd)
    ensures SameAt(s, Apply(s, a), fd)
  {
    if a.StartIo? {
      StartElsewhere(s, a.req, a.fd, a.kind, a.outcome, a.op, fd);
    } else if a.Cancel? {
      CancelElsewhere(s, a.req, a.fd, fd);
    } else if a.CloseNext? {
      CloseElsewhere(s, fd);
    } else if a.WaitFd? {
      ReportElsewhere(s, a.fd, a.ready, a.op, fd);
    }
  }

  lemma OpenElsewhere(s: State, f: nat, fd: nat)
    requires Enabled(s, Open(f)) && f != fd
    ensures SameAt(s, Apply(s, Open(f)), fd)
  {
  }

  /** A step about another descriptor changes nothing about this one. */
  lemma Elsewhere(s: State, a: Action, fd: nat)
    requires Counted(s) && Enabled(s, a) && !Touches(s, a, fd)
    ensures SameAt(s, Apply(s, a), fd)
  {
    if MoveStep(a) {
      MoveElsewhere(s, a, fd);
    } else if a.Open? {
      OpenElsewhere(s, a.fd, fd);
    } else {
      SamePending(s, a);
      RegFrame(s, a);
      EpermFrame(s, a);
      FdsFrame(s, a);
    }
  }

  // ---- What a step about the descriptor does ----

  /** A request that leaves a list takes nothing else with it. */
  lemma StillPending(s: State, f: nat, x: Req, r: Req)
    requires Counted(s) && f in s.fds && NoRepeats(s.fds[f].head) && Has(s.fds[f].head, x)
    requires Has(Stopped(s.fds[f], x).head, r)
    ensures Has(s.fds[f].head, r)
  {
    PendingIsStoppable(s, f, x);
    RemoveHas(s.fds[f].head, x, r);
  }


  lemma OpenIsPrivate(s: State, fd: nat, q: nat)
    requires Enabled(s, Open(fd)) && Private(s, fd, q)
    ensures Private(Apply(s, Open(fd)), fd, q)
  {
  }

  lemma StartIsPrivate(s: State, x: Req, fd: nat, kind: Kind, outcome: Code, op: Code, q: nat)
    requires Enabled(s, StartIo(x, fd, kind, outcome, op)) && Private(s, fd, q) && x.queue == q
    ensures Private(Apply(s, StartIo(x, fd, kind, outcome, op)), fd, q)
  {
    var s' := Apply(s, StartIo(x, fd, kind, outcome, op));
    assert forall r :: Has(PendingOf(s', fd), r) ==> Has(PendingOf(s, fd), r) || r == x;
    if outcome == EPERM {
      var before: (nat, nat), after := s.eperm[fd], s'.eperm[fd];
      assert after.0 + after.1 == before.0 + before.1 + 1 && before.0 + before.1 >= 0;
      assert after != (0, 0);
    } else {
      assert s'.reg == Registered(s.reg, (q, fd), s'.fds[fd].Interest(), s'.fds[fd].Interest());
    }
  }

  lemma CancelIsPrivate(s: State, x: Req, fd: nat, q: nat)
    requires PendingAgrees(s) && Counted(s) && Enabled(s, Cancel(x, fd)) && Private(s, fd, q)
    ensures Private(Apply(s, Cancel(x, fd)), fd, q)
  {
    var s' := Apply(s, Cancel(x, fd));
    assert NoRepeats(PendingOf(s, fd)) && Has(PendingOf(s, fd), x);
    forall r | Has(PendingOf(s', fd), r) ensures r.queue == q {
      StillPending(s, fd, x, r);
      assert Has(PendingOf(s, fd), r);
    }
  }

  lemma ReportIsPrivate(s: State, fd: nat, ready: Mask, op: Code, x: Req, q: nat)
    requires PendingAgrees(s) && Counted(s) && Enabled(s, WaitFd(fd, ready, op)) && Private(s, fd, q)
    requires GetReq(s.fds[fd].head, ready) == Some(x)
    ensures Private(Apply(s, WaitFd(fd, ready, op)), fd, q)
  {
    var s' := Apply(s, WaitFd(fd, ready, op));
    GetReqHas(s, fd, ready);
    assert NoRepeats(PendingOf(s, fd)) && Has(PendingOf(s, fd), x);
    forall r | Has(PendingOf(s', fd), r) ensures r.queue == q {
      StillPending(s, fd, x, r);
      assert Has(PendingOf(s, fd), r);
    }
  }

  /** A clean descriptor that is registered has a pending request. */
  lemma RegisteredHasPending(s: State, fd: nat)
    requires Counted(s) && fd in s.fds && Clean(s, fd) && s.fds[fd].Interest() != NOTHING
    ensures s.fds[fd].head != []
  {
  }


  lemma BeginIsPrivate(s: State, fd: nat, q: nat)
    requires Counted(s) && Enabled(s, BeginClose(fd)) && Private(s, fd, q)
    ensures Private(Apply(s, BeginClose(fd)), fd, q)
  {
    assert PendingOf(Apply(s, BeginClose(fd)), fd) == PendingOf(s, fd);
    if Clean(s, fd) && s.fds[fd].Interest() != NOTHING {
      RegisteredHasPending(s, fd);
    }
  }

  lemma CloseIsPrivate(s: State, q: nat)
    requires Enabled(s, CloseNext) && s.user.fd !in s.fds && Private(s, s.user.fd, q)
    ensures Private(Apply(s, CloseNext), s.user.fd, q)
  {
    assert Has(PendingOf(s, s.user.fd), s.user.rest[0].0);
    assert forall r :: Has(s.user.rest[1..], r) ==> Has(PendingOf(s, s.user.fd), r);
  }

  lemma SameIsPrivate(s: State, s': State, fd: nat, q: nat)
    requires Private(s, fd, q) && SameAt(s, s', fd)
    ensures Private(s', fd, q)
  {
  }

  lemma PrivateStep(s: State, a: Action, fd: nat, q: nat)
    requires PendingAgrees(s) && Counted(s) && Shape(s) && Enabled(s, a) && Private(s, fd, q) && UsesFrom(a, fd, q)
    ensures Private(Apply(s, a), fd, q)
  {
    if !Touches(s, a, fd) {
      Elsewhere(s, a, fd);
      SameIsPrivate(s, Apply(s, a), fd, q);
    } else if a.Open? {
      OpenIsPrivate(s, fd, q);
    } else if a.StartIo? {
      StartIsPrivate(s, a.req, fd, a.kind, a.outcome, a.op, q);
    } else if a.Cancel? {
      CancelIsPrivate(s, a.req, fd, q);
    } else if a.BeginClose? {
      BeginIsPrivate(s, fd, q);
    } else if a.CloseNext? {
      CloseIsPrivate(s, q);
    } else {
      ReportIsPrivate(s, fd, a.ready, a.op, GetReq(s.fds[fd].head, a.ready).value, q);
    }
  }

  lemma {:induction false} RunPrivate(s: State, acts: seq<Action>, fd: nat, q: nat)
    requires Inv(s) && Private(s, fd, q) && Follows(s, acts) && forall a :: a in acts ==> UsesFrom(a, fd, q)
    ensures Inv(Run(s, acts)) && Private(Run(s, acts), fd, q)
    decreases acts
  {
    if acts != [] {
      assert UsesFrom(acts[0], fd, q);
      StepKeepsInv(s, acts[0]);
      PrivateStep(s, acts[0], fd, q);
      RunPrivate(Apply(s, acts[0]), acts[1..], fd, q);
    }
  }

  /** A state some run reaches that uses `fd` from `q`, and other descriptors as it likes. */
  ghost predicate ReachableFrom(s: State, fd: nat, q: nat) {
    exists s0, acts ::
      Init(s0) && Follows(s0, acts) && Run(s0, acts) == s && forall a :: a in acts ==> UsesFrom(a, fd, q)
  }

  lemma ReachablePrivate(s: State, fd: nat, q: nat)
    requires ReachableFrom(s, fd, q)
    ensures Inv(s) && Private(s, fd, q)
  {
    var s0, acts :|
      Init(s0) && Follows(s0, acts) && Run(s0, acts) == s && forall a :: a in acts ==> UsesFrom(a, fd, q);
    InitInv(s0);
    RunPrivate(s0, acts, fd, q);
  }

  // ---- The theorems ----

  /** Counters, list and kernel mask agree in every reachable state: the counters count the
      pending requests, the registered mask has exactly the directions somebody waits for,
      and no other queue has the descriptor registered. */
  lemma CountersAndMasksExact(s: State, fd: nat, q: nat)
    requires ReachableFrom(s, fd, q) && fd in s.fds && Clean(s, fd)
    ensures Exact(s.fds[fd])
    ensures RegisteredAs(s, q, fd, Mask(Count(s.fds[fd].head, READABLE) > 0, Count(s.fds[fd].head, WRITABLE) > 0))
    ensures (q, fd) in s.reg <==> s.fds[fd].head != []
    ensures (q, fd) in s.reg ==> IsAwaited(s.reg[(q, fd)], s.fds[fd].head)
    ensures forall p :: p != q ==> (p, fd) !in s.reg
  {
    ReachablePrivate(s, fd, q);
    assert Accounted(s.fds[fd], 0, 0);
    ExactIsAwaited(s.fds[fd]);
  }

  /** A request is handed over by a report only if the report lets its operation proceed. */
  lemma DeliveredProceeds(s: State, fd: nat, ready: Mask, op: Code, r: Req)
    requires Reachable(s) && Enabled(s, WaitFd(fd, ready, op)) && GetReq(s.fds[fd].head, ready) == Some(r)
    ensures Apply(s, WaitFd(fd, ready, op)).trace == s.trace + [Produced(r, op, FromOperation), Delivered(r, op)]
    ensures Has(s.fds[fd].head, r) && Proceeds(Performs(KindIn(s.fds[fd].head, r)), ready)
  {
    ReachableInv(s);
    assert NoRepeats(PendingOf(s, fd));
    FoundProceeds(s.fds[fd].head, ready);
  }

  /** On any descriptor, clean or not, a counter exceeds the pending requests of its
      direction by exactly the starts that EPERM refused: counters are exact if and only if
      there was none. */
  lemma CountersExactIffClean(s: State, fd: nat)
    requires Reachable(s) && fd in s.fds
    ensures Exact(s.fds[fd]) <==> Clean(s, fd)
  {
    ReachableInv(s);
  }


  /** Whatever the kernel reports for a clean descriptor, a request of the polled queue is
      delivered by that very step. */
  lemma CleanReportDelivers(s: State, fd: nat, q: nat, ready: Mask, op: Code)
    requires ReachableFrom(s, fd, q) && Enabled(s, WaitFd(fd, ready, op)) && Clean(s, fd)
    ensures var s' := Apply(s, WaitFd(fd, ready, op));
      && s'.user == Idle && |s'.trace| == |s.trace| + 2
      && s'.trace[|s.trace| + 1].Delivered? && s'.trace[|s.trace| + 1].req.queue == s.user.q
      && s'.trace[|s.trace| + 1].code == op
  {
    ReachablePrivate(s, fd, q);
    assert Accounted(s.fds[fd], 0, 0);
    assert (s.user.q, fd) in s.reg && s.user.q == q;
    ReportFindsRequest(s.fds[fd], ready);
    GetReqHas(s, fd, ready);
    assert Has(PendingOf(s, fd), GetReq(s.fds[fd].head, ready).value);
  }

  /** When the close of a clean descriptor has walked its list, no queue has it registered. */
  lemma CloseLeavesNoRegistration(s: State, q: nat, p: nat)
    requires Enabled(s, CloseDone) && ReachableFrom(s, s.user.fd, q) && Clean(s, s.user.fd)
    ensures (p, s.user.fd) !in s.reg
  {
    ReachablePrivate(s, s.user.fd, q);
    assert PendingOf(s, s.user.fd) == [];
  }
}
