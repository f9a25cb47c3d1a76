/** Whole runs of the engine. */
module EngineTheorems {
  import opened FdAccounting
  import opened Engine
  import opened EngineSafety
  import opened EnginePlaces

  lemma InitInv(s: State)
    requires Init(s)
    ensures Inv(s)
  {
  }

  lemma MoveKeepsPlaces(s: State, a: Action)
    requires Places(s) && Traced(s) && Counted(s) && Shape(s) && Enabled(s, a) && Moves(s, a)
    ensures Places(Apply(s, a)) && Traced(Apply(s, a))
  {
    if a.StartIo? {
      StartMoves(s, a.req, a.fd, a.kind, a.outcome, a.op);
    } else if a.Exec? {
      ExecMoves(s, a.req, a.w);
    } else if a.Cancel? {
      CancelMoves(s, a.req, a.fd);
    } else if a.CloseNext? {
      CloseMoves(s);
    } else if a.WaitFd? {
      ReportMoves(s, a.fd, a.ready, a.op);
    } else if a.WorkFinish? {
      WorkMoves(s, a.w, a.code);
    } else if a.PollTake? {
      TakeMoves(s);
    } else {
      PushMoves(s, a.t);
    }
  }

  lemma QuietStep(s: State, a: Action)
    requires Places(s) && Traced(s) && Counted(s) && Enabled(s, a) && !Moves(s, a)
    ensures Places(Apply(s, a)) && Traced(Apply(s, a))
  {
    if EndStep(a) {
      QuietEnd(s, a);
    } else if PollStep(a) {
      QuietPoll(s, a);
    } else {
      QuietOther(s, a);
    }
    Unmoved(s, Apply(s, a));
  }

  lemma PlacesStep(s: State, a: Action)
    requires Places(s) && Traced(s) && Counted(s) && Shape(s) && Enabled(s, a)
    ensures Places(Apply(s, a)) && Traced(Apply(s, a))
  {
    if Moves(s, a) {
      MoveKeepsPlaces(s, a);
    } else {
      QuietStep(s, a);
    }
  }

  /** Every step keeps the invariant. */
  lemma StepKeepsInv(s: State, a: Action)
    requires Inv(s) && Enabled(s, a)
    ensures Inv(Apply(s, a))
  {
    PlacesStep(s, a);
    CountedStep(s, a);
    if EndStep(a) {
      ShapeEnd(s, a);
      LocksEnd(s, a);
      WakesEnd(s, a);
    } else {
      if MoveStep(a) {
        ShapeMove(s, a);
      } else {
        ShapeOther(s, a);
      }
      LocksOther(s, a);
      WakesOther(s, a);
    }
  }

  lemma {:induction false} RunKeepsInv(s: State, acts: seq<Action>)
    requires Inv(s) && Follows(s, acts)
    ensures Inv(Run(s, acts))
    decreases acts
  {
    if acts != [] {
      StepKeepsInv(s, acts[0]);
      RunKeepsInv(Apply(s, acts[0]), acts[1..]);
    }
  }

  lemma ReachableInv(s: State)
    requires Reachable(s)
    ensures Inv(s)
  {
    var s0, acts :| Init(s0) && Follows(s0, acts) && Run(s0, acts) == s;
    InitInv(s0);
    RunKeepsInv(s0, acts);
  }

  lemma {:induction false} RunAppend(s: State, acts: seq<Action>, a: Action)
    requires Follows(s, acts) && Enabled(Run(s, acts), a)
    ensures Follows(s, acts + [a]) && Run(s, acts + [a]) == Apply(Run(s, acts), a)
    decreases acts
  {
    if acts == [] {
      assert [a][1..] == [];
    } else {
      RunAppend(Apply(s, acts[0]), acts[1..], a);
      assert (acts + [a])[1..] == acts[1..] + [a];
    }
  }

  lemma ReachableStep(s: State, a: Action)
    requires Reachable(s) && Enabled(s, a)
    ensures Reachable(Apply(s, a))
  {
    var s0, acts :| Init(s0) && Follows(s0, acts) && Run(s0, acts) == s;
    RunAppend(s0, acts, a);
  }

  // ---- Exactly one place ----

  /** Where the data structures themselves show request `r`. */
  predicate Shows(s: State, r: Req, p: Place) {
    match p
    case OnFd(fd) => Has(PendingOf(s, fd), r)
    case InHand(t, c) => HandOf(s, t) == Some((r, c))
    case OnQueue(c) => r.queue in s.queues && (r, c) in s.queues[r.queue].ready
  }

  /** A request that was started and not yet delivered is in exactly one place, once; any
      other request is nowhere.  Whether it is in flight is read off the trace. */
  lemma ExactlyOnePlace(s: State, r: Req)
    requires Reachable(s)
    ensures StatusOf(s.trace, r) == AtRest ==> forall p :: !Shows(s, r, p)
    ensures StatusOf(s.trace, r) != AtRest ==>
      exists p :: Shows(s, r, p) && forall p' :: Shows(s, r, p') ==> p' == p
    ensures forall q, c :: q in s.queues && (r, c) in s.queues[q].ready ==> q == r.queue
    ensures (forall fd :: NoRepeats(PendingOf(s, fd))) && (forall q :: q in s.queues ==> Unrepeated(s.queues[q].ready))
  {
    ReachableInv(s);
    assert StatusOf(s.trace, r) == Expected(s, r);
    forall p ensures Shows(s, r, p) <==> At(s, r, p) {
      match p
      case OnFd(fd) => assert Has(PendingOf(s, fd), r) <==> At(s, r, OnFd(fd));
      case InHand(t, c) => assert HandOf(s, t) == Some((r, c)) <==> At(s, r, InHand(t, c));
      case OnQueue(c) => if r.queue in s.queues {
        assert (r, c) in s.queues[r.queue].ready <==> At(s, r, OnQueue(c)) && r.queue == r.queue;
      }
    }
    if r in s.place {
      assert Shows(s, r, s.place[r]);
    }
  }

  /** The trace of every request is a repetition of start, production, delivery of what was
      produced: it is never delivered twice for one start, nor with another code. */
  lemma TraceIsLegal(s: State, r: Req)
    requires Reachable(s)
    ensures StatusOf(s.trace, r) != Broken
  {
    ReachableInv(s);
    assert StatusOf(s.trace, r) == Expected(s, r);
  }

  function CountStarts(trace: seq<Event>, r: Req): nat {
    if trace == [] then 0
    else (if trace[|trace|-1] == Started(r) then 1 else 0) + CountStarts(trace[..|trace|-1], r)
  }

  function CountDeliveries(trace: seq<Event>, r: Req): nat {
    if trace == [] then 0
    else
      var e := trace[|trace|-1];
      (if e.Delivered? && e.req == r then 1 else 0) + CountDeliveries(trace[..|trace|-1], r)
  }

  lemma {:induction false} LegalPrefix(trace: seq<Event>, r: Req)
    requires trace != [] && StatusOf(trace, r) != Broken
    ensures StatusOf(trace[..|trace|-1], r) != Broken
  {
  }

  lemma {:induction false} StartsMatchDeliveries(trace: seq<Event>, r: Req)
    requires StatusOf(trace, r) != Broken
    ensures CountStarts(trace, r) == CountDeliveries(trace, r) + (if StatusOf(trace, r) == AtRest then 0 else 1)
  {
    if trace != [] {
      LegalPrefix(trace, r);
      StartsMatchDeliveries(trace[..|trace|-1], r);
    }
  }

  /** Per request, starts and deliveries differ by one exactly while it is in flight. */
  lemma DeliveredOncePerStart(s: State, r: Req)
    requires Reachable(s)
    ensures CountStarts(s.trace, r)
         == CountDeliveries(s.trace, r) + (if exists p :: Shows(s, r, p) then 1 else 0)
  {
    TraceIsLegal(s, r);
    StartsMatchDeliveries(s.trace, r);
    ExactlyOnePlace(s, r);
  }

  /** The code of `r` at the end of a legal trace was produced by the last event about `r`. */
  lemma {:induction false} DoneWasProduced(trace: seq<Event>, r: Req, code: Code) returns (j: nat)
    requires StatusOf(trace, r) == Done(code)
    ensures j < |trace| && trace[j].Produced? && trace[j].req == r && trace[j].code == code
    ensures trace[j].source != FromOperation ==> code == ECANCELED
    ensures forall k :: j < k < |trace| ==> trace[k].req != r
  {
    var last := |trace| - 1;
    if trace[last].req == r {
      j := last;
    } else {
      j := DoneWasProduced(trace[..last], r, code);
    }
  }

  lemma {:induction false} LegalUpTo(trace: seq<Event>, i: nat, r: Req)
    requires i <= |trace| && StatusOf(trace, r) != Broken
    ensures StatusOf(trace[..i], r) != Broken
    decreases |trace| - i
  {
    if i == |trace| {
      assert trace[..i] == trace;
    } else {
      LegalUpTo(trace, i + 1, r);
      assert trace[..i+1][..i] == trace[..i];
    }
  }

  /** Every delivery hands over the code that its operation, cancel or close produced last,
      and a cancel or close always produces YO_ECANCELED. */
  lemma DeliveredCodeWasProduced(s: State, i: nat) returns (j: nat)
    requires Reachable(s) && i < |s.trace| && s.trace[i].Delivered?
    ensures j < i && s.trace[j].Produced? && s.trace[j].req == s.trace[i].req && s.trace[j].code == s.trace[i].code
    ensures s.trace[j].source != FromOperation ==> s.trace[i].code == ECANCELED
    ensures forall k :: j < k < i ==> s.trace[k].req != s.trace[i].req
  {
    var r := s.trace[i].req;
    TraceIsLegal(s, r);
    LegalUpTo(s.trace, i + 1, r);
    assert s.trace[..i+1][..i] == s.trace[..i];
    j := DoneWasProduced(s.trace[..i], r, s.trace[i].code);
  }

  // ---- The lock and the wakeup ----

  lemma MutualExclusion(s: State, q: nat, t: Thread, u: Thread)
    requires Reachable(s) && q in s.queues && Holds(s, t, q) && Holds(s, u, q)
    ensures t == u
  {
    ReachableInv(s);
    assert s.queues[q].owner == Some(t) && s.queues[q].owner == Some(u);
  }

  /** No lost wakeup: while the poller waits in the kernel and a request is ready, the
      self-pipe holds a byte or a thread inside the lock is just about to write one. */
  lemma NoLostWakeup(s: State, q: nat)
    requires Reachable(s) && s.user == Waiting(q)
    ensures q in s.queues
    ensures s.queues[q].ready != [] ==>
      s.queues[q].pipe > 0 || exists t :: AtEnd(s, t, Pushed) && EndOf(s, t).value.0.queue == q
  {
    ReachableInv(s);
    assert WakeupPending(s, q);
    if s.queues[q].ready != [] && s.queues[q].pipe == 0 {
      var t := s.queues[q].owner.value;
      assert Holds(s, t, q);
    }
  }
}
