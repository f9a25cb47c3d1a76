/** What follows for every run of the thread pool. */
module PoolTheorems {
  import opened FdAccounting
  import opened Pool

  lemma InitInv(s: State)
    requires Init(s)
    ensures Inv(s)
  {
  }

  lemma StepKeepsInv(s: State, a: Action)
    requires Inv(s) && Enabled(s, a)
    ensures Inv(Apply(s, a))
  {
    ListStep(s, a);
    WorkersStep(s, a);
    CallStep(s, a);
    TasksStep(s, a);
    BusyStep(s, a);
  }

  lemma {:induction false} RunKeepsInv(s: State, acts: seq<Action>)
    requires Inv(s) && Follows(s, acts)
    ensures Inv(Run(s, acts))
    decreases acts
  {
    if acts != [] {
      StepKeepsInv(s, acts[0]);
      RunKeepsInv(Apply(s, acts[0]), acts[1..]);
    }
  }

  lemma ReachableInv(s: State)
    requires Reachable(s)
    ensures Inv(s)
  {
    var s0, acts :| Init(s0) && Follows(s0, acts) && Run(s0, acts) == s;
    InitInv(s0);
    RunKeepsInv(s0, acts);
  }

  /** A step of the submitter never writes to an occupied slot. */
  lemma SubmitterFrame(s: State, a: Action, w: nat)
    requires Enabled(s, a) && !ByWorker(a) && w in s.workers && s.workers[w].slot.Some?
    ensures w in Apply(s, a).workers || (a.Spawn? && s.call.w == w)
    ensures w in Apply(s, a).workers ==>
      && Apply(s, a).workers[w].slot == s.workers[w].slot
      && (s.workers[w].pc == Waiting || (a.Spawn? && s.call.w == w) || Apply(s, a).workers[w].pc == s.workers[w].pc)
  {
  }

  /** An occupied slot changes only when its own worker empties it, after that very task
      ended: no submission overwrites a task, and clearing never drops a newer one. */
  lemma SlotIsSafe(s: State, a: Action, w: nat)
    requires Reachable(s) && Enabled(s, a) && w in s.workers && s.workers[w].slot.Some? && w in Apply(s, a).workers
    ensures var slot := s.workers[w].slot;
      || Apply(s, a).workers[w].slot == slot
      || (a == Reclaim(w) && Apply(s, a).workers[w].slot == None && StatusOf(s.trace, slot.value) == Finished(w))
  {
    ReachableInv(s);
    if ByWorker(a) {
      WorkerFrame(s, a, w);
      assert SlotAgrees(s, w) && HomeAgrees(s, w);
    } else {
      SubmitterFrame(s, a, w);
    }
  }

  // ---- Exactly once ----

  /** How often a task began, was run, and ended. */
  function Tally(trace: seq<Event>, t: Task): (nat, nat, nat) {
    if trace == [] then (0, 0, 0)
    else
      var (b, r, e) := Tally(trace[..|trace|-1], t);
      match trace[|trace|-1]
      case Began(u) => if u == t then (b + 1, r, e) else (b, r, e)
      case Ran(u, _) => if u == t then (b, r + 1, e) else (b, r, e)
      case Ended(u, _) => if u == t then (b, r, e + 1) else (b, r, e)
  }

  lemma {:induction false} StatusTallies(trace: seq<Event>, t: Task)
    ensures StatusOf(trace, t) != Broken ==>
      Tally(trace, t) == match StatusOf(trace, t)
                         case New => (0, 0, 0)
                         case Open => (1, 0, 0)
                         case Held(_) => (1, 1, 0)
                         case _ => (1, 1, 1)
  {
    if trace != [] {
      StatusTallies(trace[..|trace|-1], t);
    }
  }

  /** The trace of every task is legal: it begins, one worker runs it, that worker ends it,
      and nothing else ever happens to it. */
  lemma TraceIsLegal(s: State, t: Task)
    requires Reachable(s)
    ensures StatusOf(s.trace, t) != Broken
    ensures t in s.accepted ==> t in s.home && StatusOf(s.trace, t) in {Open, Held(s.home[t]), Finished(s.home[t])}
    ensures t in s.refused ==> StatusOf(s.trace, t) == Open
  {
    ReachableInv(s);
    assert TaskAgrees(s, t);
    if t in s.home && s.home[t] in s.workers && s.workers[s.home[t]].slot == Some(t) {
      assert HomeAgrees(s, s.home[t]);
      assert LockAgrees(s, s.home[t]);
    }
  }

  /** No task is run or ended twice, none is run before it began or ended before it ran, and
      a refused one is never run. */
  lemma RunAtMostOnce(s: State, t: Task)
    requires Reachable(s)
    ensures var (b, r, e) := Tally(s.trace, t);
      e <= r <= b <= 1 && (t in s.accepted ==> b == 1) && (t in s.refused ==> r == 0)
  {
    TraceIsLegal(s, t);
    StatusTallies(s.trace, t);
  }

  // ---- No lost wakeup ----

  /** A worker asleep on an occupied slot is about to be signalled: the submitter is inside its
      lock, and its own next steps wake the worker. */
  lemma NoLostWakeup(s: State, w: nat)
    requires Reachable(s) && IsAt(s, w, Waiting) && s.workers[w].slot.Some?
    ensures AboutToTell(s, w)
    ensures s.call.Filled? ==> Enabled(s, Begin)
    ensures s.call.Filled? ==> Enabled(Apply(s, Begin), Tell) && IsAt(Apply(Apply(s, Begin), Tell), w, Woken)
    ensures s.call.Begun? ==> Enabled(s, Tell) && IsAt(Apply(s, Tell), w, Woken)
  {
    ReachableInv(s);
    assert LockAgrees(s, w);
  }

  /** Nobody can move: neither the submitter nor a worker has a step (a new submission and a
      wait that returns by itself aside). */
  ghost predicate Quiet(s: State) {
    forall a: Action :: a.Submit? || a.Wake? || !Enabled(s, a)
  }

  lemma QuietLocks(s: State, w: nat)
    requires Inv(s) && Quiet(s) && w in s.workers
    ensures !Inside(s, w) && s.workers[w].lock == Nobody
  {
    assert LockAgrees(s, w);
    assert !Enabled(s, Skip) && !Enabled(s, Fill) && !Enabled(s, Begin) && !Enabled(s, Tell) && !Enabled(s, Unlock);
    assert !Enabled(s, Take(w)) && !Enabled(s, Sleep(w));
  }

  lemma QuietWorkers(s: State, w: nat)
    requires Inv(s) && Quiet(s) && w in s.workers
    ensures IsAt(s, w, Waiting) || IsAt(s, w, Dead) || IsAt(s, w, Unborn)
  {
    QuietLocks(s, w);
    assert LockAgrees(s, w);
    assert !Enabled(s, Lock(w)) && !Enabled(s, Finish(w)) && !Enabled(s, Reclaim(w));
  }

  lemma QuietIsIdle(s: State)
    requires Inv(s) && Quiet(s)
    ensures s.call == Idle
  {
    if AtWorker(s) {
      QuietLocks(s, Current(s));
    }
    assert !Enabled(s, ScanLock) && !Enabled(s, NoMemory) && !Enabled(s, Spawn(0)) && !Enabled(s, Link);
  }

  /** When everything has come to rest, an accepted task has been run to its end if and only
      if its worker's thread was really created. */
  lemma RestMeansDone(s: State, t: Task)
    requires Reachable(s) && Quiet(s) && t in s.accepted
    ensures t in s.home
    ensures StatusOf(s.trace, t) == Finished(s.home[t]) <==>
            !(IsAt(s, s.home[t], Dead) && s.workers[s.home[t]].slot == Some(t))
  {
    ReachableInv(s);
    QuietIsIdle(s);
    assert TaskAgrees(s, t);
    var w := s.home[t];
    if w in s.workers && s.workers[w].slot == Some(t) {
      QuietWorkers(s, w);
      assert LockAgrees(s, w) && SlotAgrees(s, w) && HomeAgrees(s, w);
    }
  }

  lemma DeadStaysDead(s: State, a: Action, w: nat)
    requires IsAt(s, w, Dead) && s.workers[w].slot.Some? && CallAgrees(s) && Enabled(s, a)
    ensures IsAt(Apply(s, a), w, Dead) && Apply(s, a).workers[w].slot == s.workers[w].slot
  {
    if ByWorker(a) {
      WorkerFrame(s, a, w);
    } else {
      SubmitterFrame(s, a, w);
    }
  }

  lemma DeadHoldsOpen(s: State, w: nat)
    requires WorkersAgree(s) && IsAt(s, w, Dead)
    ensures s.workers[w].slot.Some? && StatusOf(s.trace, s.workers[w].slot.value) == Open
  {
    assert LockAgrees(s, w) && SlotAgrees(s, w) && HomeAgrees(s, w);
    if s.call.Filled? && AtWorker(s) {
      assert LockAgrees(s, Current(s));
    }
  }

  /** yo_req_exec tests the result of pthread_create for `< 0`, and that result is never
      negative: the task of a thread that could not be created was accepted, is never run,
      and its worker is never used again. */
  lemma {:induction false} UncreatedThreadLosesTask(s: State, w: nat, acts: seq<Action>)
    requires Inv(s) && IsAt(s, w, Dead) && Follows(s, acts)
    ensures s.workers[w].slot.Some?
    ensures IsAt(Run(s, acts), w, Dead) && Run(s, acts).workers[w].slot == s.workers[w].slot
    ensures StatusOf(Run(s, acts).trace, s.workers[w].slot.value) == Open
    decreases acts
  {
    DeadHoldsOpen(s, w);
    if acts != [] {
      StepKeepsInv(s, acts[0]);
      DeadStaysDead(s, acts[0], w);
      UncreatedThreadLosesTask(Apply(s, acts[0]), w, acts[1..]);
    }
  }

  // ---- Growth ----

  predicate InScan(s: State) {
    s.call.Scanning? || s.call.Looking?
  }

  lemma {:induction false} ScanKeeps(s: State, acts: seq<Action>)
    requires Follows(s, acts) && forall a :: a in acts ==> !a.Submit?
    ensures var e := Run(s, acts); InScan(e) ==> InScan(s) && e.call.busy == s.call.busy && e.list == s.list
    decreases acts
  {
    if acts != [] {
      assert !acts[0].Submit?;
      ScanKeeps(Apply(s, acts[0]), acts[1..]);
    }
  }

  /** A worker is created only if every worker there was had an occupied slot when the scan
      began, although workers may have gone idle since. */
  lemma GrowsOnlyWhenFull(s: State, t: Task, acts: seq<Action>, w: nat)
    requires Reachable(s) && Enabled(s, Submit(t))
    requires Follows(Apply(s, Submit(t)), acts) && forall a :: a in acts ==> !a.Submit?
    requires Enabled(Run(Apply(s, Submit(t)), acts), Allocate(w))
    ensures forall v :: v in s.list ==> v in s.workers && s.workers[v].slot.Some?
  {
    ReachableInv(s);
    StepKeepsInv(s, Submit(t));
    RunKeepsInv(Apply(s, Submit(t)), acts);
    ScanKeeps(Apply(s, Submit(t)), acts);
  }

  lemma {:induction false} RunSplit(s: State, acts: seq<Action>, i: nat)
    requires Follows(s, acts) && i <= |acts|
    ensures Follows(s, acts[..i]) && Follows(Run(s, acts[..i]), acts[i..])
    ensures Run(Run(s, acts[..i]), acts[i..]) == Run(s, acts)
    decreases i
  {
    if i > 0 {
      RunSplit(Apply(s, acts[0]), acts[1..], i - 1);
      assert acts[..i][1..] == acts[1..][..i-1] && acts[1..][i-1..] == acts[i..];
    } else {
      assert acts[0..] == acts && acts[..0] == [];
    }
  }

  lemma LastStep(s: State, acts: seq<Action>)
    requires Follows(s, acts) && acts != []
    ensures var before := acts[..|acts|-1];
      && Follows(s, before) && Enabled(Run(s, before), acts[|acts|-1])
      && Run(s, acts) == Apply(Run(s, before), acts[|acts|-1])
  {
    var last := |acts| - 1;
    RunSplit(s, acts, last);
    assert acts[last..] == [acts[last]] && [acts[last]][1..] == [];
  }

  /** In the run from `s0`, action `i` submits a task while `n` slots are occupied. */
  predicate SubmitsAt(s0: State, acts: seq<Action>, i: nat, n: nat) {
    && i < |acts| && acts[i].Submit? && Follows(s0, acts[..i]) && |Occupied(Run(s0, acts[..i]))| == n
  }

  /** `peak` is not free: it was reached by a submission. */
  lemma {:induction false} PeakWasSeen(s0: State, acts: seq<Action>) returns (i: nat)
    requires Init(s0) && Follows(s0, acts) && acts != [] && Run(s0, acts).peak > 0
    ensures SubmitsAt(s0, acts, i, Run(s0, acts).peak - 1)
    decreases |acts|
  {
    var last := |acts| - 1;
    LastStep(s0, acts);
    var before, a := Run(s0, acts[..last]), acts[last];
    if a.Submit? && |Occupied(before)| + 1 > before.peak {
      i := last;
    } else {
      i := PeakWasSeen(s0, acts[..last]);
      assert acts[..last][..i] == acts[..i];
    }
  }

  /** If a pool has n + 1 workers, some scan of the run began with at least n slots occupied:
      the pool never outgrows the most slots occupied at the beginning of a scan, plus one. */
  lemma PoolIsBounded(s0: State, acts: seq<Action>) returns (i: nat, n: nat)
    requires Init(s0) && Follows(s0, acts) && Run(s0, acts).list != []
    ensures SubmitsAt(s0, acts, i, n) && |Run(s0, acts).list| <= n + 1
  {
    InitInv(s0);
    RunKeepsInv(s0, acts);
    i := PeakWasSeen(s0, acts);
    n := Run(s0, acts).peak - 1;
  }

  lemma {:induction false} RunAppend(s: State, acts: seq<Action>, a: Action)
    requires Follows(s, acts) && Enabled(Run(s, acts), a)
    ensures Follows(s, acts + [a]) && Run(s, acts + [a]) == Apply(Run(s, acts), a)
    decreases acts
  {
    if acts == [] {
      assert [a][1..] == [];
    } else {
      RunAppend(Apply(s, acts[0]), acts[1..], a);
      assert (acts + [a])[1..] == acts[1..] + [a];
    }
  }

  lemma ReachableStep(s: State, a: Action)
    requires Reachable(s) && Enabled(s, a)
    ensures Reachable(Apply(s, a))
  {
    var s0, acts :| Init(s0) && Follows(s0, acts) && Run(s0, acts) == s;
    RunAppend(s0, acts, a);
  }

  /** The pool with worker 0 at `pc`, holding task 0. */
  function OneWorker(pc: Pc, lock: Owner, trace: seq<Event>): State {
    State(map[0 := Worker(Some(0), lock, pc)], [0], Idle, map[0 := 0], {0}, {}, {0}, 1, trace)
  }

  /** The same while the first submission is creating it. */
  function NewWorker(pc: Pc, call: Call, trace: seq<Event>): State {
    State(map[0 := Worker(Some(0), Nobody, pc)], [], call, map[0 := 0], {0}, {}, {}, 1, trace)
  }

  lemma FirstAllocate()
    ensures Reachable(NewWorker(Unborn, Spawning(0, 0), [Began(0)]))
  {
    var s := State(map[], [], Idle, map[], {}, {}, {}, 0, []);
    assert Init(s) && Follows(s, []) && Run(s, []) == s;
    ReachableStep(s, Submit(0));
    s := Apply(s, Submit(0));
    assert s == State(map[], [], Scanning(0, 0, {}), map[], {0}, {}, {}, 1, []);
    ReachableStep(s, Allocate(0));
    assert Apply(s, Allocate(0)) == NewWorker(Unborn, Spawning(0, 0), [Began(0)]);
  }

  lemma FirstSpawn(trace: seq<Event>)
    requires Reachable(NewWorker(Unborn, Spawning(0, 0), trace))
    ensures Reachable(NewWorker(Starting, Linking(0, 0), trace))
  {
    var s := NewWorker(Unborn, Spawning(0, 0), trace);
    ReachableStep(s, Spawn(0));
    assert Apply(s, Spawn(0)) == NewWorker(Starting, Linking(0, 0), trace);
  }

  lemma FirstLink(trace: seq<Event>)
    requires Reachable(NewWorker(Starting, Linking(0, 0), trace))
    ensures Reachable(OneWorker(Starting, Nobody, trace))
  {
    var s := NewWorker(Starting, Linking(0, 0), trace);
    ReachableStep(s, Link);
    assert Apply(s, Link) == OneWorker(Starting, Nobody, trace);
  }

  lemma FirstLock(trace: seq<Event>)
    requires Reachable(OneWorker(Starting, Nobody, trace))
    ensures Reachable(OneWorker(Checking, Self, trace))
  {
    var s := OneWorker(Starting, Nobody, trace);
    ReachableStep(s, Lock(0));
    assert s.workers[0 := Worker(Some(0), Self, Checking)] == map[0 := Worker(Some(0), Self, Checking)];
    assert Apply(s, Lock(0)) == OneWorker(Checking, Self, trace);
  }

  lemma FirstTake(trace: seq<Event>)
    requires Reachable(OneWorker(Checking, Self, trace))
    ensures Reachable(OneWorker(Running(0), Nobody, trace + [Ran(0, 0)]))
  {
    var s := OneWorker(Checking, Self, trace);
    ReachableStep(s, Take(0));
    assert Apply(s, Take(0)) == OneWorker(Running(0), Nobody, trace + [Ran(0, 0)]);
  }

  lemma FirstFinish(trace: seq<Event>)
    requires Reachable(OneWorker(Running(0), Nobody, trace))
    ensures Reachable(OneWorker(Clearing(0), Nobody, trace + [Ended(0, 0)]))
  {
    var s := OneWorker(Running(0), Nobody, trace);
    ReachableStep(s, Finish(0));
    assert Apply(s, Finish(0)) == OneWorker(Clearing(0), Nobody, trace + [Ended(0, 0)]);
  }

  lemma FirstTaskEnded()
    ensures Reachable(OneWorker(Clearing(0), Nobody, [Began(0), Ran(0, 0), Ended(0, 0)]))
  {
    FirstAllocate();
    FirstSpawn([Began(0)]);
    FirstLink([Began(0)]);
    FirstLock([Began(0)]);
    FirstTake([Began(0)]);
    assert [Began(0)] + [Ran(0, 0)] == [Began(0), Ran(0, 0)];
    FirstFinish([Began(0), Ran(0, 0)]);
    assert [Began(0), Ran(0, 0)] + [Ended(0, 0)] == [Began(0), Ran(0, 0), Ended(0, 0)];
  }

  /** Such a worker can come about: pthread_create reports failure with 11, and the submission
      is accepted all the same. */
  lemma UncreatedThreadIsReached() returns (s: State)
    ensures Reachable(s) && IsAt(s, 0, Dead) && s.workers[0].slot == Some(0) && 0 in s.accepted
  {
    FirstAllocate();
    s := NewWorker(Unborn, Spawning(0, 0), [Began(0)]);
    ReachableStep(s, Spawn(11));
    s := Apply(s, Spawn(11));
    ReachableStep(s, Link);
    s := Apply(s, Link);
  }

  lemma SecondScan(s: State) returns (e: State)
    requires Reachable(s) && s.call == Idle && 1 !in s.known
    requires s.workers == map[0 := Worker(Some(0), Nobody, Clearing(0))] && s.list == [0]
    ensures Reachable(e) && e.known == s.known + {1} && e.list == [0] && e.workers.Keys == {0}
    ensures e.call.Scanning? && e.call.i == 1
  {
    ReachableStep(s, Submit(1));
    e := Apply(s, Submit(1));
    ReachableStep(e, ScanLock);
    e := Apply(e, ScanLock);
    ReachableStep(e, Skip);
    e := Apply(e, Skip);
  }

  lemma SecondWorker(s: State) returns (e: State)
    requires Reachable(s) && s.list == [0] && s.workers.Keys == {0} && s.call.Scanning? && s.call.i == 1
    ensures Reachable(e) && e.known == s.known && e.list == [1, 0]
  {
    ReachableStep(s, Allocate(1));
    e := Apply(s, Allocate(1));
    ReachableStep(e, Spawn(0));
    e := Apply(e, Spawn(0));
    ReachableStep(e, Link);
    e := Apply(e, Link);
  }

  /** The bound in slots is not one in tasks: a slot is still occupied for a moment after its
      task ended.  With one worker and every task ended, one more task can still create a
      second worker. */
  lemma EndedTaskStillCounts() returns (s: State, e: State)
    ensures Reachable(s) && s.call == Idle && |s.list| == 1
    ensures forall t :: t in s.known ==> StatusOf(s.trace, t) == Finished(0)
    ensures Reachable(e) && e.known == s.known + {1} && |e.list| == 2
  {
    FirstTaskEnded();
    s := OneWorker(Clearing(0), Nobody, [Began(0), Ran(0, 0), Ended(0, 0)]);
    StatusAppend([], Began(0), 0);
    StatusAppend([Began(0)], Ran(0, 0), 0);
    StatusAppend([Began(0), Ran(0, 0)], Ended(0, 0), 0);
    e := SecondScan(s);
    e := SecondWorker(e);
  }
}
