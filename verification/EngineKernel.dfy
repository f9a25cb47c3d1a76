/** The engine over a kernel that answers steadily.  Whether a descriptor can be registered
    depends on the type of the file behind it, so EPERM is the answer to all starts on a
    descriptor or to none: `pollable` says which, for the descriptor a theorem is about. */
module EngineKernel {
  import opened FdAccounting
  import opened Engine
  import opened EngineSafety
  import opened EngineTheorems
  import opened EngineMasks

  predicate Steady(a: Action, fd: nat, pollable: bool) {
    a.StartIo? && a.fd == fd ==> (a.outcome == OK <==> pollable)
  }

  /** A descriptor that cannot be registered never has anything pending or registered, and one
      that can was never refused. */
  ghost predicate Settled(s: State, fd: nat, pollable: bool) {
    if pollable then fd in s.eperm ==> s.eperm[fd] == (0, 0)
    else PendingOf(s, fd) == [] && forall p :: (p, fd) !in s.reg
  }

  lemma SettledStart(s: State, x: Req, fd: nat, kind: Kind, outcome: Code, op: Code, pollable: bool)
    requires Enabled(s, StartIo(x, fd, kind, outcome, op)) && (outcome == OK <==> pollable)
    requires Settled(s, fd, pollable)
    ensures Settled(Apply(s, StartIo(x, fd, kind, outcome, op)), fd, pollable)
  {
  }

  lemma SettledOpen(s: State, fd: nat, pollable: bool)
    requires Enabled(s, Open(fd)) && Settled(s, fd, pollable)
    ensures Settled(Apply(s, Open(fd)), fd, pollable)
  {
  }

  lemma SettledBegin(s: State, fd: nat, pollable: bool)
    requires Enabled(s, BeginClose(fd)) && Settled(s, fd, pollable)
    ensures Settled(Apply(s, BeginClose(fd)), fd, pollable)
  {
  }

  lemma SettledCancel(s: State, x: Req, fd: nat, pollable: bool)
    requires Enabled(s, Cancel(x, fd)) && Settled(s, fd, pollable)
    ensures Settled(Apply(s, Cancel(x, fd)), fd, pollable)
  {
    assert s.fds[fd].head != [];
  }

  lemma SettledReport(s: State, fd: nat, ready: Mask, op: Code, pollable: bool)
    requires Enabled(s, WaitFd(fd, ready, op)) && Settled(s, fd, pollable)
    ensures Settled(Apply(s, WaitFd(fd, ready, op)), fd, pollable)
  {
  }

  lemma SettledClose(s: State, pollable: bool)
    requires Enabled(s, CloseNext) && s.user.fd !in s.fds && Settled(s, s.user.fd, pollable)
    ensures Settled(Apply(s, CloseNext), s.user.fd, pollable)
  {
  }

  lemma SettledStep(s: State, a: Action, fd: nat, pollable: bool)
    requires Counted(s) && Shape(s) && Enabled(s, a) && Steady(a, fd, pollable) && Settled(s, fd, pollable)
    ensures Settled(Apply(s, a), fd, pollable)
  {
    if !Touches(s, a, fd) {
      Elsewhere(s, a, fd);
    } else if a.Open? {
      SettledOpen(s, fd, pollable);
    } else if a.StartIo? {
      SettledStart(s, a.req, fd, a.kind, a.outcome, a.op, pollable);
    } else if a.Cancel? {
      SettledCancel(s, a.req, fd, pollable);
    } else if a.BeginClose? {
      SettledBegin(s, fd, pollable);
    } else if a.CloseNext? {
      SettledClose(s, pollable);
    } else {
      SettledReport(s, fd, a.ready, a.op, pollable);
    }
  }

  lemma {:induction false} RunSettled(s: State, acts: seq<Action>, fd: nat, pollable: bool)
    requires Inv(s) && Settled(s, fd, pollable) && Follows(s, acts)
    requires forall a :: a in acts ==> Steady(a, fd, pollable)
    ensures Inv(Run(s, acts)) && Settled(Run(s, acts), fd, pollable)
    decreases acts
  {
    if acts != [] {
      assert Steady(acts[0], fd, pollable);
      StepKeepsInv(s, acts[0]);
      SettledStep(s, acts[0], fd, pollable);
      RunSettled(Apply(s, acts[0]), acts[1..], fd, pollable);
    }
  }

  /** A state some run reaches in which the kernel answers steadily for `fd`. */
  ghost predicate ReachableSteadily(s: State, fd: nat, pollable: bool) {
    exists s0, acts ::
      Init(s0) && Follows(s0, acts) && Run(s0, acts) == s && forall a :: a in acts ==> Steady(a, fd, pollable)
  }

  lemma ReachableSettled(s: State, fd: nat, pollable: bool)
    requires ReachableSteadily(s, fd, pollable)
    ensures Inv(s) && Settled(s, fd, pollable)
  {
    var s0, acts :|
      Init(s0) && Follows(s0, acts) && Run(s0, acts) == s && forall a :: a in acts ==> Steady(a, fd, pollable);
    InitInv(s0);
    RunSettled(s0, acts, fd, pollable);
  }

  /** A steady kernel reports only descriptors on which no start was ever refused. */
  lemma ReportedIsClean(s: State, pollable: bool, fd: nat, ready: Mask, op: Code)
    requires ReachableSteadily(s, fd, pollable) && Enabled(s, WaitFd(fd, ready, op))
    ensures pollable && Clean(s, fd)
  {
    ReachableSettled(s, fd, pollable);
  }

  /** The poll loop never spins on a registered descriptor: whatever the kernel reports, a
      request of the polled queue is delivered by that very step. */
  lemma ReportDelivers(s: State, q: nat, pollable: bool, fd: nat, ready: Mask, op: Code)
    requires ReachableFrom(s, fd, q) && ReachableSteadily(s, fd, pollable) && Enabled(s, WaitFd(fd, ready, op))
    ensures var s' := Apply(s, WaitFd(fd, ready, op));
      && s'.user == Idle && |s'.trace| == |s.trace| + 2
      && s'.trace[|s.trace| + 1].Delivered? && s'.trace[|s.trace| + 1].req.queue == s.user.q
      && s'.trace[|s.trace| + 1].code == op
  {
    ReportedIsClean(s, pollable, fd, ready, op);
    CleanReportDelivers(s, fd, q, ready, op);
  }

  /** The kernel's interest is right for every open descriptor that is used from one queue:
      that queue has registered exactly the directions somebody waits for, and no other queue
      has registered it.  The counters behind it are exact if nothing was refused. */
  lemma MasksExact(s: State, q: nat, pollable: bool, fd: nat)
    requires ReachableFrom(s, fd, q) && ReachableSteadily(s, fd, pollable) && fd in s.fds
    ensures RegisteredAs(s, q, fd, Mask(Count(s.fds[fd].head, READABLE) > 0, Count(s.fds[fd].head, WRITABLE) > 0))
    ensures forall p :: p != q ==> (p, fd) !in s.reg
    ensures pollable ==> Exact(s.fds[fd])
  {
    ReachableSettled(s, fd, pollable);
    if pollable {
      CountersAndMasksExact(s, fd, q);
    }
  }

  /** When a close has walked its list, no queue has the descriptor registered. */
  lemma CloseUnregisters(s: State, q: nat, pollable: bool, p: nat)
    requires Enabled(s, CloseDone) && ReachableFrom(s, s.user.fd, q) && ReachableSteadily(s, s.user.fd, pollable)
    ensures (p, s.user.fd) !in s.reg
  {
    ReachableSettled(s, s.user.fd, pollable);
    ReachablePrivate(s, s.user.fd, q);
    if (p, s.user.fd) in s.reg {
      CloseLeavesNoRegistration(s, q, p);
    }
  }
}
