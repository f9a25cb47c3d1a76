/** The growth of the pool counted in tasks.  The pool itself counts slots, and a slot stays
    occupied for a moment after its task ended, while its worker is at `Clearing`. */
module PoolTasks {
  import opened Pool
  import opened PoolTheorems

  /** Tasks that have begun, were not refused, and have not ended. */
  function Outstanding(s: State): set<Task> {
    set t | t in s.known && t !in s.refused && (StatusOf(s.trace, t).Open? || StatusOf(s.trace, t).Held?)
  }

  /** Workers of the pool whose task has not ended ... */
  function Working(s: State): set<nat> {
    set w | w in s.list && w in s.workers && s.workers[w].slot.Some?
            && !StatusOf(s.trace, s.workers[w].slot.value).Finished?
  }

  /** ... and those between the end of their task and the clearing of its slot. */
  function Leaving(s: State): set<nat> {
    set w | w in s.list && w in s.workers && s.workers[w].pc.Clearing?
  }

  /** An occupied slot holds a finished task exactly while its worker is about to clear it. */
  lemma FinishedWhileClearing(s: State, w: nat)
    requires Inv(s) && w in s.workers && s.workers[w].slot.Some?
    ensures StatusOf(s.trace, s.workers[w].slot.value).Finished? <==> s.workers[w].pc.Clearing?
  {
    assert LockAgrees(s, w) && SlotAgrees(s, w) && HomeAgrees(s, w);
  }

  lemma OccupiedSplits(s: State)
    requires Inv(s)
    ensures Occupied(s) == Working(s) + Leaving(s) && Working(s) !! Leaving(s)
  {
    forall w | w in s.workers ensures
      && (s.workers[w].pc.Clearing? ==> s.workers[w].slot.Some?)
      && (s.workers[w].slot.Some? ==>
            (StatusOf(s.trace, s.workers[w].slot.value).Finished? <==> s.workers[w].pc.Clearing?)) {
      assert LockAgrees(s, w) && SlotAgrees(s, w);
      if s.workers[w].slot.Some? {
        FinishedWhileClearing(s, w);
      }
    }
  }

  /** The workers whose task has not ended are exactly those with an occupied slot if and only
      if no worker is at `Clearing`. */
  lemma SlotsAreTasksIff(s: State)
    requires Reachable(s)
    ensures Working(s) == Occupied(s) <==> Leaving(s) == {}
  {
    ReachableInv(s);
    OccupiedSplits(s);
  }

  function TaskOf(s: State, w: nat): Task
    requires w in s.workers && s.workers[w].slot.Some?
  {
    s.workers[w].slot.value
  }

  ghost predicate AtHome(s: State, ws: set<nat>) {
    forall w :: w in ws ==>
      w in s.workers && s.workers[w].slot.Some? && TaskOf(s, w) in s.home && s.home[TaskOf(s, w)] == w
  }

  lemma {:induction false} OneTaskEach(s: State, ws: set<nat>)
    requires AtHome(s, ws)
    ensures |set w | w in ws :: TaskOf(s, w)| == |ws|
    decreases ws
  {
    var tasks := set w | w in ws :: TaskOf(s, w);
    if ws != {} {
      var v :| v in ws;
      var rest := ws - {v};
      OneTaskEach(s, rest);
      var others := set w | w in rest :: TaskOf(s, w);
      assert tasks == others + {TaskOf(s, v)};
      assert TaskOf(s, v) !in others;
    } else {
      assert tasks == {};
    }
  }

  lemma WorkingIsOutstanding(s: State, w: nat)
    requires Inv(s) && s.call == Idle && w in Working(s)
    ensures TaskOf(s, w) in Outstanding(s) && TaskOf(s, w) in s.home && s.home[TaskOf(s, w)] == w
  {
    assert LockAgrees(s, w) && HomeAgrees(s, w);
  }

  lemma OutstandingHasWorker(s: State, t: Task)
    requires Inv(s) && s.call == Idle && t in Outstanding(s)
    ensures t in s.home && s.home[t] in Working(s) && TaskOf(s, s.home[t]) == t
  {
    assert TaskAgrees(s, t);
  }

  /** Between two calls, occupied slots count the outstanding tasks and the workers that have
      not yet cleared theirs. */
  lemma SlotsCountTasks(s: State)
    requires Reachable(s) && s.call == Idle
    ensures |Occupied(s)| == |Outstanding(s)| + |Leaving(s)|
  {
    ReachableInv(s);
    OccupiedSplits(s);
    TasksOfWorking(s);
    OneTaskEach(s, Working(s));
  }

  /** The outstanding tasks are the ones in the slots of working workers, each in its home. */
  lemma TasksOfWorking(s: State)
    requires Inv(s) && s.call == Idle
    ensures forall w :: w in Working(s) ==> TaskOf(s, w) in s.home && s.home[TaskOf(s, w)] == w
    ensures Outstanding(s) == set w | w in Working(s) :: TaskOf(s, w)
  {
    forall w | w in Working(s)
      ensures TaskOf(s, w) in Outstanding(s) && TaskOf(s, w) in s.home && s.home[TaskOf(s, w)] == w
    {
      WorkingIsOutstanding(s, w);
    }
    forall t | t in Outstanding(s) ensures t in s.home && s.home[t] in Working(s) && TaskOf(s, s.home[t]) == t {
      OutstandingHasWorker(s, t);
    }
  }

  /** A scan that begins while nobody is clearing a slot creates a worker only if every worker
      there was has a task that has not ended, one each. */
  lemma GrowsOnlyWhenWorking(s: State, t: Task, acts: seq<Action>, w: nat)
    requires Reachable(s) && Enabled(s, Submit(t)) && Leaving(s) == {}
    requires Follows(Apply(s, Submit(t)), acts) && forall a :: a in acts ==> !a.Submit?
    requires Enabled(Run(Apply(s, Submit(t)), acts), Allocate(w))
    ensures (forall v :: v in s.list ==> v in Working(s)) && |s.list| <= |Outstanding(s)|
  {
    GrowsOnlyWhenFull(s, t, acts, w);
    SlotsAreTasksIff(s);
    SlotsCountTasks(s);
    ReachableInv(s);
    DistinctFits(s.list, Occupied(s));
  }

  lemma SubmitState(s0: State, acts: seq<Action>, i: nat)
    requires Init(s0) && Follows(s0, acts) && i < |acts| && acts[i].Submit?
    ensures Follows(s0, acts[..i]) && Reachable(Run(s0, acts[..i])) && Run(s0, acts[..i]).call == Idle
  {
    RunSplit(s0, acts, i);
    assert acts[i..][0] == acts[i];
  }

  /** The bound in tasks, for every run: some scan began with so many tasks outstanding and
      slots not yet cleared that the pool has at most one worker more. */
  lemma PoolIsBoundedByTasks(s0: State, acts: seq<Action>) returns (i: nat)
    requires Init(s0) && Follows(s0, acts) && Run(s0, acts).list != []
    ensures i < |acts| && acts[i].Submit? && Follows(s0, acts[..i])
    ensures var s := Run(s0, acts[..i]); |Run(s0, acts).list| <= |Outstanding(s)| + |Leaving(s)| + 1
  {
    var n;
    i, n := PoolIsBounded(s0, acts);
    SubmitState(s0, acts, i);
    SlotsCountTasks(Run(s0, acts[..i]));
  }

  /** No worker is between the end of its task and the clearing of its slot whenever the run
      submits a task. */
  ghost predicate SubmitsWhenCleared(s0: State, acts: seq<Action>) {
    forall i :: 0 <= i < |acts| && acts[i].Submit? && Follows(s0, acts[..i]) ==> Leaving(Run(s0, acts[..i])) == {}
  }

  /** Over such runs the bound holds for tasks alone. */
  lemma TasksBoundWhenCleared(s0: State, acts: seq<Action>) returns (i: nat)
    requires Init(s0) && Follows(s0, acts) && Run(s0, acts).list != [] && SubmitsWhenCleared(s0, acts)
    ensures i < |acts| && acts[i].Submit? && Follows(s0, acts[..i])
    ensures |Run(s0, acts).list| <= |Outstanding(Run(s0, acts[..i]))| + 1
  {
    i := PoolIsBoundedByTasks(s0, acts);
  }
}
