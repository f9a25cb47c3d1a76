/** The pool comes to rest: every run without new submissions is short, apart from waits that
    return by themselves, and where none can go on every task has run that has a thread. */
module PoolProgress {
  import opened FdAccounting
  import opened Pool
  import opened PoolTheorems

  /** The steps a worker still takes before it sleeps. */
  function WorkerRank(x: Worker): nat {
    match x.pc
    case Dead => 0
    case Unborn => 5
    case Waiting => if x.slot.Some? then 5 else 0
    case Starting => if x.slot.Some? then 5 else 2
    case Woken => if x.slot.Some? then 5 else 2
    case Checking => if x.slot.Some? then 4 else 1
    case Running(_) => 3
    case Clearing(_) => 2
  }

  /** The steps the call still takes, and the work it may still give to a worker. */
  function CallRank(s: State): int {
    match s.call
    case Idle => 0
    case Scanning(_, i, _) => 2 * (|s.list| - i) + 10
    case Looking(_, i, _) => 2 * (|s.list| - i) + 9
    case Filled(_, _) => 3
    case Begun(_, _) => 2
    case Told(_, _) => 1
    case Spawning(_, _) => 2
    case Linking(_, _) => 1
  }

  function Sum(ws: map<nat, Worker>): nat {
    if ws == map[] then 0
    else
      var w := Least(ws.Keys);
      WorkerRank(ws[w]) + Sum(ws - {w})
  }

  /** Some element, always the same one. */
  function Least(ws: set<nat>): (w: nat)
    requires ws != {}
    ensures w in ws && forall v :: v in ws ==> w <= v
  {
    HasLeast(ws);
    var w :| w in ws && forall v :: v in ws ==> w <= v;
    w
  }

  lemma HasLeast(ws: set<nat>)
    requires ws != {}
    ensures exists w :: w in ws && forall v :: v in ws ==> w <= v
  {
    var w := LeastOf(ws);
  }

  lemma {:induction false} LeastOf(ws: set<nat>) returns (w: nat)
    requires ws != {}
    ensures w in ws && forall v :: v in ws ==> w <= v
    decreases ws
  {
    w :| w in ws;
    var x, rest := w, ws - {w};
    if rest != {} {
      var v := LeastOf(rest);
      w := if x <= v then x else v;
    }
    forall v | v in ws ensures w <= v {
      assert v == x || v in rest;
    }
  }

  lemma {:induction false} SumWithout(ws: map<nat, Worker>, w: nat)
    requires w in ws
    ensures Sum(ws) == WorkerRank(ws[w]) + Sum(ws - {w})
    decreases |ws|
  {
    var v := Least(ws.Keys);
    if v != w {
      SumWithout(ws - {v}, w);
      SumWithout(ws - {w}, v);
      assert ws - {v} - {w} == ws - {w} - {v};
    }
  }

  lemma SumPut(ws: map<nat, Worker>, w: nat, x: Worker)
    ensures Sum(ws[w := x]) == Sum(ws - {w}) + WorkerRank(x)
    ensures w in ws ==> Sum(ws[w := x]) == Sum(ws) - WorkerRank(ws[w]) + WorkerRank(x)
  {
    SumWithout(ws[w := x], w);
    assert ws[w := x] - {w} == ws - {w};
    if w in ws {
      SumWithout(ws, w);
    }
  }

  function Rank(s: State): int {
    CallRank(s) + Sum(s.workers)
  }

  /** How many waits of a run return by themselves. */
  function Wakes(acts: seq<Action>): nat {
    if acts == [] then 0 else (if acts[0].Wake? then 1 else 0) + Wakes(acts[1..])
  }

  lemma WorkerRankFalls(s: State, a: Action)
    requires Enabled(s, a) && ByWorker(a) && !a.Wake?
    ensures a.w in Apply(s, a).workers && WorkerRank(Apply(s, a).workers[a.w]) < WorkerRank(s.workers[a.w])
  {
  }

  lemma WorkerAlone(s: State, a: Action)
    requires Enabled(s, a) && ByWorker(a)
    ensures a.w in Apply(s, a).workers && Apply(s, a).workers == s.workers[a.w := Apply(s, a).workers[a.w]]
    ensures Apply(s, a).call == s.call && Apply(s, a).list == s.list
  {
  }

  lemma WorkerCounts(s: State, a: Action)
    requires Enabled(s, a) && ByWorker(a) && !a.Wake?
    ensures Rank(Apply(s, a)) < Rank(s)
  {
    WorkerRankFalls(s, a);
    WorkerAlone(s, a);
    SumPut(s.workers, a.w, Apply(s, a).workers[a.w]);
  }

  lemma ScanCounts(s: State, a: Action)
    requires CallAgrees(s) && Enabled(s, a) && ScanStep(a) && !a.Submit? && !a.Begin?
    ensures Rank(Apply(s, a)) < Rank(s)
  {
    SumPut(s.workers, Current(s), Apply(s, a).workers[Current(s)]);
  }

  lemma UnlockCounts(s: State)
    requires Enabled(s, Unlock)
    ensures Rank(Apply(s, Unlock)) < Rank(s)
  {
    SumPut(s.workers, Current(s), Apply(s, Unlock).workers[Current(s)]);
  }

  lemma AllocateCounts(s: State, w: nat)
    requires Enabled(s, Allocate(w))
    ensures Rank(Apply(s, Allocate(w))) < Rank(s)
  {
    SumPut(s.workers, w, Apply(s, Allocate(w)).workers[w]);
    assert s.workers - {w} == s.workers;
  }

  lemma SpawnCounts(s: State, rc: int)
    requires CallAgrees(s) && Enabled(s, Spawn(rc))
    ensures Rank(Apply(s, Spawn(rc))) < Rank(s)
  {
    if rc < 0 {
      SumWithout(s.workers, s.call.w);
    } else {
      SumPut(s.workers, s.call.w, Apply(s, Spawn(rc)).workers[s.call.w]);
    }
  }

  /** A wait that returns by itself costs the worker one look at its slot. */
  lemma WakeCounts(s: State, w: nat)
    requires Enabled(s, Wake(w))
    ensures Rank(Apply(s, Wake(w))) <= Rank(s) + 2
  {
    WorkerAlone(s, Wake(w));
    SumPut(s.workers, w, Apply(s, Wake(w)).workers[w]);
  }

  /** Every other step but a submission uses something up. */
  lemma StepCounts(s: State, a: Action)
    requires CallAgrees(s) && Enabled(s, a) && !a.Submit? && !a.Wake?
    ensures Rank(Apply(s, a)) < Rank(s)
  {
    if ByWorker(a) {
      WorkerCounts(s, a);
    } else if ScanStep(a) && !a.Begin? {
      ScanCounts(s, a);
    } else if a.Unlock? {
      UnlockCounts(s);
    } else if a.Allocate? {
      AllocateCounts(s, a.w);
    } else if a.Spawn? {
      SpawnCounts(s, a.rc);
    }
  }

  lemma RankIsNat(s: State)
    requires CallAgrees(s)
    ensures Rank(s) >= 0
  {
  }

  lemma {:induction false} RunsAreShort(s: State, acts: seq<Action>)
    requires Inv(s) && Follows(s, acts) && forall a :: a in acts ==> !a.Submit?
    ensures |acts| <= Rank(s) + 3 * Wakes(acts)
    decreases acts
  {
    RankIsNat(s);
    if acts != [] {
      assert !acts[0].Submit?;
      StepKeepsInv(s, acts[0]);
      if acts[0].Wake? {
        WakeCounts(s, acts[0].w);
      } else {
        StepCounts(s, acts[0]);
      }
      RunsAreShort(Apply(s, acts[0]), acts[1..]);
    }
  }

  lemma {:induction false} SumIsBounded(ws: map<nat, Worker>)
    ensures Sum(ws) <= 5 * |ws|
    decreases |ws|
  {
    if ws != map[] {
      var w := Least(ws.Keys);
      SumIsBounded(ws - {w});
    }
  }

  /** From every reachable state, no run without a new submission has more steps than ten, two
      for each worker of the list, five for each worker there is, and three for each wait that
      returned by itself. */
  lemma RestComesSoon(s: State, acts: seq<Action>)
    requires Reachable(s) && Follows(s, acts) && forall a :: a in acts ==> !a.Submit?
    ensures |acts| <= 10 + 2 * |s.list| + 5 * |s.workers| + 3 * Wakes(acts)
  {
    ReachableInv(s);
    RunsAreShort(s, acts);
    SumIsBounded(s.workers);
  }

  lemma {:induction false} RunReachable(s: State, acts: seq<Action>)
    requires Reachable(s) && Follows(s, acts)
    ensures Reachable(Run(s, acts))
    decreases acts
  {
    if acts != [] {
      ReachableStep(s, acts[0]);
      RunReachable(Apply(s, acts[0]), acts[1..]);
    }
  }

  /** So every accepted task runs: a run without a new submission that goes on as long as
      anybody can move is at most so long, and at its end every task accepted so far has ended,
      unless it sits with a worker whose thread was never created. */
  lemma EveryTaskRuns(s: State, acts: seq<Action>, t: Task)
    requires Reachable(s) && Follows(s, acts) && (forall a :: a in acts ==> !a.Submit?) && Quiet(Run(s, acts))
    requires t in Run(s, acts).accepted
    ensures |acts| <= 10 + 2 * |s.list| + 5 * |s.workers| + 3 * Wakes(acts)
    ensures var e := Run(s, acts);
      t in e.home && (StatusOf(e.trace, t) == Finished(e.home[t]) <==>
                      !(IsAt(e, e.home[t], Dead) && e.workers[e.home[t]].slot == Some(t)))
  {
    RestComesSoon(s, acts);
    RunReachable(s, acts);
    RestMeansDone(Run(s, acts), t);
  }

  /** Such runs exist. */
  lemma {:induction false} RestIsReached(s: State) returns (acts: seq<Action>)
    requires Inv(s)
    ensures Follows(s, acts) && (forall a :: a in acts ==> !a.Submit? && !a.Wake?) && Quiet(Run(s, acts))
    decreases Rank(s)
  {
    RankIsNat(s);
    if Quiet(s) {
      acts := [];
    } else {
      var a: Action :| !a.Submit? && !a.Wake? && Enabled(s, a);
      StepKeepsInv(s, a);
      StepCounts(s, a);
      RankIsNat(Apply(s, a));
      var rest := RestIsReached(Apply(s, a));
      acts := [a] + rest;
      assert acts[1..] == rest;
    }
  }
}
