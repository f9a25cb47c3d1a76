/** Where in a run things come from: the codes that are delivered, and the notifications that
    end a wait. */
module EngineRuns {
  import opened FdAccounting
  import opened Engine
  import opened EngineSafety
  import opened EngineTheorems

  lemma {:induction false} PrefixFollows(s: State, acts: seq<Action>, k: nat)
    requires Follows(s, acts) && k < |acts|
    ensures Follows(s, acts[..k]) && Enabled(Run(s, acts[..k]), acts[k])
    decreases k
  {
    if k > 0 {
      PrefixFollows(Apply(s, acts[0]), acts[1..], k - 1);
      assert acts[..k][0] == acts[0] && acts[..k][1..] == acts[1..][..k-1];
    } else {
      assert acts[..0] == [];
    }
  }

  /** The state in which action `k` of a run is taken. */
  function StateAt(s: State, acts: seq<Action>, k: nat): (at: State)
    requires Follows(s, acts) && k < |acts|
    ensures Enabled(at, acts[k])
  {
    PrefixFollows(s, acts, k);
    Run(s, acts[..k])
  }

  lemma StateNext(s: State, acts: seq<Action>, k: nat)
    requires Follows(s, acts) && 0 < k < |acts|
    ensures StateAt(s, acts, k) == StateAt(Apply(s, acts[0]), acts[1..], k - 1) && acts[k] == acts[1..][k-1]
  {
    assert acts[..k][0] == acts[0] && acts[..k][1..] == acts[1..][..k-1];
  }

  lemma StateFirst(s: State, acts: seq<Action>)
    requires Follows(s, acts) && acts != []
    ensures StateAt(s, acts, 0) == s
  {
    assert acts[..0] == [];
  }

  // ---- Where a code comes from ----

  /** The action brings the result `c` of request `r`: the callback of the worker that holds `r`
      returned it, the operation returned it, after a refused registration or a report, or the
      request is cancelled or its descriptor closed. */
  predicate Returns(s: State, a: Action, r: Req, c: Code)
    requires Enabled(s, a)
  {
    match a
    case WorkFinish(w, code) => s.workers[w] == Busy(r) && code == c
    case StartIo(x, _, _, outcome, op) => x == r && outcome == EPERM && op == c
    case WaitFd(fd, ready, op) => GetReq(s.fds[fd].head, ready) == Some(r) && op == c
    case Cancel(x, _) => x == r && c == ECANCELED
    case CloseNext => s.user.rest[0].0 == r && c == ECANCELED
    case _ => false
  }

  /** Actions that append to the trace. */
  predicate Speaks(a: Action) {
    a.StartIo? || a.Exec? || a.Cancel? || a.CloseNext? || a.PollTake? || a.WaitFd? || a.WorkFinish?
  }

  lemma SilentStep(s: State, a: Action)
    requires Enabled(s, a) && !Speaks(a)
    ensures Apply(s, a).trace == s.trace
  {
    if EndStep(a) {
      EndMoves(s, a);
    }
  }

  lemma StepReturns(s: State, a: Action)
    requires Enabled(s, a)
    ensures s.trace <= Apply(s, a).trace
    ensures forall j :: |s.trace| <= j < |Apply(s, a).trace| && Apply(s, a).trace[j].Produced? ==>
      Returns(s, a, Apply(s, a).trace[j].req, Apply(s, a).trace[j].code)
  {
    if !Speaks(a) {
      SilentStep(s, a);
    }
  }

  lemma {:induction false} TraceGrows(s: State, acts: seq<Action>)
    requires Follows(s, acts)
    ensures s.trace <= Run(s, acts).trace
    decreases acts
  {
    if acts != [] {
      StepReturns(s, acts[0]);
      TraceGrows(Apply(s, acts[0]), acts[1..]);
    }
  }

  lemma {:induction false} ProducedByAction(s: State, acts: seq<Action>, j: nat) returns (k: nat)
    requires Follows(s, acts) && |s.trace| <= j < |Run(s, acts).trace| && Run(s, acts).trace[j].Produced?
    ensures k < |acts|
    ensures |StateAt(s, acts, k).trace| <= j < |Apply(StateAt(s, acts, k), acts[k]).trace|
    ensures Returns(StateAt(s, acts, k), acts[k], Run(s, acts).trace[j].req, Run(s, acts).trace[j].code)
    decreases acts
  {
    var s' := Apply(s, acts[0]);
    StepReturns(s, acts[0]);
    TraceGrows(s', acts[1..]);
    if j < |s'.trace| {
      k := 0;
      StateFirst(s, acts);
    } else {
      k := ProducedByAction(s', acts[1..], j);
      k := k + 1;
      StateNext(s, acts, k);
    }
  }

  /** Every delivery of every run hands over the result that some action of the run brought for
      that request, and nothing happened to the request in between; in particular it was not
      started again. */
  lemma DeliveredWasReturned(s0: State, acts: seq<Action>, i: nat) returns (k: nat, j: nat)
    requires Init(s0) && Follows(s0, acts) && i < |Run(s0, acts).trace| && Run(s0, acts).trace[i].Delivered?
    ensures var trace := Run(s0, acts).trace;
      && k < |acts| && Returns(StateAt(s0, acts, k), acts[k], trace[i].req, trace[i].code)
      && |StateAt(s0, acts, k).trace| <= j < |Apply(StateAt(s0, acts, k), acts[k]).trace| && j < i
      && forall m :: j < m < i ==> trace[m].req != trace[i].req
  {
    j := DeliveredCodeWasProduced(Run(s0, acts), i);
    k := ProducedByAction(s0, acts, j);
  }

  // ---- What ends a wait ----

  /** The action writes to the self-pipe of `q`, or ends the wait of its poller. */
  predicate Notifies(s: State, a: Action, q: nat) {
    a.EndNotify? && EndOf(s, a.t).Some? && EndOf(s, a.t).value.0.queue == q
  }

  predicate IsWoken(s: State, a: Action, q: nat) {
    a.WaitNotify? && s.user == Waiting(q)
  }

  /** The poller is emptying the pipe of `q`, or it is empty. */
  predicate Drained(s: State, q: nat) {
    q in s.queues && (s.user == Draining(q) || s.queues[q].pipe == 0)
  }

  lemma EndKeepsDrained(s: State, a: Action, q: nat)
    requires Drained(s, q) && Enabled(s, a) && EndStep(a) && !Notifies(s, a, q)
    ensures Drained(Apply(s, a), q)
  {
    EndMoves(s, a);
  }

  lemma OtherKeepsDrained(s: State, a: Action, q: nat)
    requires Drained(s, q) && Enabled(s, a) && !EndStep(a)
    ensures Drained(Apply(s, a), q)
  {
  }

  lemma StepKeepsDrained(s: State, a: Action, q: nat)
    requires Drained(s, q) && Enabled(s, a) && !Notifies(s, a, q)
    ensures Drained(Apply(s, a), q)
  {
    if EndStep(a) {
      EndKeepsDrained(s, a, q);
    } else {
      OtherKeepsDrained(s, a, q);
    }
  }

  /** After a notification the next one has been written later. */
  lemma {:induction false} NextNotification(s: State, acts: seq<Action>, j: nat, q: nat) returns (k: nat)
    requires Drained(s, q) && Follows(s, acts) && j < |acts| && IsWoken(StateAt(s, acts, j), acts[j], q)
    ensures k < j && Notifies(StateAt(s, acts, k), acts[k], q)
    decreases j
  {
    StateFirst(s, acts);
    if Notifies(s, acts[0], q) && j > 0 {
      k := 0;
    } else if j > 0 {
      StepKeepsDrained(s, acts[0], q);
      StateNext(s, acts, j);
      k := NextNotification(Apply(s, acts[0]), acts[1..], j - 1, q);
      k := k + 1;
      StateNext(s, acts, k);
    }
  }

  lemma NotificationIsTaken(s: State, q: nat)
    requires Enabled(s, WaitNotify) && s.user == Waiting(q)
    ensures Drained(Apply(s, WaitNotify), q)
  {
  }

  /** A notification wakes the poller of a queue once: between two waits of one queue that a
      notification ended, another one was written. */
  lemma {:induction false} WokenOncePerNotification(s: State, acts: seq<Action>, i: nat, j: nat, q: nat)
    returns (k: nat)
    requires Follows(s, acts) && i < j < |acts|
    requires IsWoken(StateAt(s, acts, i), acts[i], q) && IsWoken(StateAt(s, acts, j), acts[j], q)
    ensures i < k < j && Notifies(StateAt(s, acts, k), acts[k], q)
    decreases i
  {
    StateNext(s, acts, j);
    if i > 0 {
      StateNext(s, acts, i);
      k := WokenOncePerNotification(Apply(s, acts[0]), acts[1..], i - 1, j - 1, q);
    } else {
      StateFirst(s, acts);
      NotificationIsTaken(s, q);
      k := NextNotification(Apply(s, acts[0]), acts[1..], j - 1, q);
    }
    k := k + 1;
    StateNext(s, acts, k);
  }

  // ---- What is in the pipe ----

  function Notifications(s: State, acts: seq<Action>, q: nat): nat
    requires Follows(s, acts)
    decreases acts
  {
    if acts == [] then 0
    else (if Notifies(s, acts[0], q) then 1 else 0) + Notifications(Apply(s, acts[0]), acts[1..], q)
  }

  /** The poller of `q` never reads from its pipe during the run. */
  predicate Undrained(s: State, acts: seq<Action>, q: nat)
    requires Follows(s, acts)
    decreases acts
  {
    acts == [] || (!(acts[0].DrainSome? && s.user == Draining(q)) && Undrained(Apply(s, acts[0]), acts[1..], q))
  }

  function Filled(pipe: nat, written: nat, room: nat): nat {
    if pipe + written < room then pipe + written else room
  }

  lemma NotifyWrites(s: State, t: Thread, q: nat)
    requires Enabled(s, EndNotify(t)) && q in s.queues && s.queues[q].pipe <= s.pipeCap
    ensures var s' := Apply(s, EndNotify(t));
      && q in s'.queues && s'.pipeCap == s.pipeCap
      && s'.queues[q].pipe == Filled(s.queues[q].pipe, if Notifies(s, EndNotify(t), q) then 1 else 0, s.pipeCap)
  {
  }

  lemma OthersDoNotWrite(s: State, a: Action, q: nat)
    requires Enabled(s, a) && !a.EndNotify? && q in s.queues
    ensures var s' := Apply(s, a);
      && q in s'.queues && s'.pipeCap == s.pipeCap && s'.queues[q].pipe <= s.queues[q].pipe
      && ((a.DrainSome? && s.user == Draining(q)) || s'.queues[q].pipe == s.queues[q].pipe)
  {
    if EndStep(a) {
      EndMoves(s, a);
    }
  }

  /** A self-pipe never holds more bytes than it has room for, nor more than have been written
      to it; and while its poller reads nothing, it holds all of them or is full. */
  lemma {:induction false} PipeIsWritten(s: State, acts: seq<Action>, q: nat)
    requires Follows(s, acts) && q in s.queues && s.queues[q].pipe <= s.pipeCap
    ensures var e := Run(s, acts);
      && q in e.queues && e.pipeCap == s.pipeCap
      && e.queues[q].pipe <= Filled(s.queues[q].pipe, Notifications(s, acts, q), s.pipeCap)
      && (Undrained(s, acts, q) ==>
            e.queues[q].pipe == Filled(s.queues[q].pipe, Notifications(s, acts, q), s.pipeCap))
    decreases acts
  {
    if acts != [] {
      if acts[0].EndNotify? {
        NotifyWrites(s, acts[0].t, q);
      } else {
        OthersDoNotWrite(s, acts[0], q);
      }
      PipeIsWritten(Apply(s, acts[0]), acts[1..], q);
    }
  }
}
