/** The thread pool (src/pool.c) as a step machine: one submitting thread, any number of
    workers, one lock, one condition and one slot per worker.  A task is one call of
    yo_req_exec.  Pools are not torn down here, so `kys` is never set. */
module Pool {
  import opened FdAccounting
  import opened SlotList

  type Task = nat

  datatype Event =
    | Began(task: Task)              // yoi_req_begin
    | Ran(task: Task, worker: nat)       // the callback is entered
    | Ended(task: Task, worker: nat)     // yoi_req_end

  datatype Owner = Nobody | Submitter | Self

  /** Where a worker thread is in yoi_pool_worker_entry. */
  datatype Pc =
    | Unborn                // allocated, its thread not yet asked for
    | Starting              // before the first lock
    | Checking              // holds its lock, about to look at its slot
    | Running(task: Task)   // slot read, lock released
    | Clearing(task: Task)  // request ended, about to lock and clear the slot
    | Waiting               // in yo_cond_wait
    | Woken                 // signalled, lock not yet taken again
    | Dead                  // thread creation failed and nobody noticed

  datatype Worker = Worker(slot: Option<Task>, lock: Owner, pc: Pc)

  /** Where the submitter is in yo_req_exec.  `busy` is a history variable: the workers whose
      slots were occupied when the scan began. */
  datatype Call =
    | Idle
    | Scanning(task: Task, i: nat, busy: set<nat>)
    | Looking(task: Task, i: nat, busy: set<nat>)   // holds the lock of worker i
    | Filled(task: Task, i: nat)
    | Begun(task: Task, i: nat)
    | Told(task: Task, i: nat)
    | Spawning(task: Task, w: nat)
    | Linking(task: Task, w: nat)

  /** `list` is the pool's list, newest worker first.  `home`, `refused`, `accepted` and
      `peak` are history variables: the worker a task was given to, the calls that failed
      after yoi_req_begin, the calls that returned YO_OK, and the largest number of occupied
      slots at the beginning of a scan, plus one for the task submitted. */
  datatype State = State(
    workers: map<nat, Worker>,
    list: seq<nat>,
    call: Call,
    home: map<Task, nat>,
    known: set<Task>,
    refused: set<Task>,
    accepted: set<Task>,
    peak: nat,
    trace: seq<Event>)

  datatype Action =
    | Submit(task: Task)
    | ScanLock
    | Skip
    | Fill
    | Begin
    | Tell
    | Unlock
    | NoMemory
    | Allocate(w: nat)
    | Spawn(rc: int)
    | Link
    | Lock(w: nat)
    | Take(w: nat)
    | Sleep(w: nat)
    | Finish(w: nat)
    | Reclaim(w: nat)
    | Wake(w: nat)       // yo_cond_wait may return without a signal

  predicate AtWorker(s: State) {
    && (s.call.Scanning? || s.call.Looking? || s.call.Filled? || s.call.Begun? || s.call.Told?)
    && s.call.i < |s.list| && s.list[s.call.i] in s.workers
  }

  /** The worker the scan stands at. */
  function Current(s: State): nat
    requires AtWorker(s)
  {
    s.list[s.call.i]
  }

  predicate IsAt(s: State, w: nat, pc: Pc) {
    w in s.workers && s.workers[w].pc == pc
  }

  predicate Enabled(s: State, a: Action) {
    match a
    case Submit(t) => s.call == Idle && t !in s.known
    case ScanLock => s.call.Scanning? && AtWorker(s) && s.workers[Current(s)].lock == Nobody
    case Skip => s.call.Looking? && AtWorker(s) && s.workers[Current(s)].slot.Some?
    case Fill => s.call.Looking? && AtWorker(s) && s.workers[Current(s)].slot.None?
    case Begin => s.call.Filled? && AtWorker(s)
    case Tell => s.call.Begun? && AtWorker(s)
    case Unlock => s.call.Told? && AtWorker(s)
    case NoMemory => s.call.Scanning? && s.call.i == |s.list|
    case Allocate(w) => s.call.Scanning? && s.call.i == |s.list| && w !in s.workers
    case Spawn(_) => s.call.Spawning? && s.call.w in s.workers
    case Link => s.call.Linking?
    case Lock(w) => (IsAt(s, w, Starting) || IsAt(s, w, Woken)) && s.workers[w].lock == Nobody
    case Take(w) => IsAt(s, w, Checking) && s.workers[w].slot.Some?
    case Sleep(w) => IsAt(s, w, Checking) && s.workers[w].slot.None?
    case Finish(w) => w in s.workers && s.workers[w].pc.Running?
    case Reclaim(w) => w in s.workers && s.workers[w].pc.Clearing? && s.workers[w].lock == Nobody
    case Wake(w) => IsAt(s, w, Waiting)
  }

  function Occupied(s: State): set<nat> {
    set w | w in s.list && w in s.workers && s.workers[w].slot.Some?
  }

  function Put(s: State, w: nat, x: Worker): State {
    s.(workers := s.workers[w := x])
  }

  function Apply(s: State, a: Action): State
    requires Enabled(s, a)
  {
    match a
    case Submit(t) =>
      var busy := Occupied(s);
      s.(call := Scanning(t, 0, busy), known := s.known + {t},
         peak := if |busy| + 1 > s.peak then |busy| + 1 else s.peak)
    case ScanLock =>
      var w := Current(s);
      Put(s, w, s.workers[w].(lock := Submitter)).(call := Looking(s.call.task, s.call.i, s.call.busy))
    case Skip =>
      var w := Current(s);
      Put(s, w, s.workers[w].(lock := Nobody)).(call := Scanning(s.call.task, s.call.i + 1, s.call.busy))
    case Fill =>
      var w := Current(s);
      Put(s, w, s.workers[w].(slot := Some(s.call.task)))
        .(call := Filled(s.call.task, s.call.i), home := s.home[s.call.task := w])
    case Begin => s.(call := Begun(s.call.task, s.call.i), trace := s.trace + [Began(s.call.task)])
    case Tell =>
      var w := Current(s);
      Put(s, w, s.workers[w].(pc := if s.workers[w].pc == Waiting then Woken else s.workers[w].pc))
        .(call := Told(s.call.task, s.call.i))
    case Unlock =>
      var w := Current(s);
      Put(s, w, s.workers[w].(lock := Nobody)).(call := Idle, accepted := s.accepted + {s.call.task})
    case NoMemory => s.(call := Idle)
    case Allocate(w) =>
      Put(s, w, Worker(Some(s.call.task), Nobody, Unborn))
        .(call := Spawning(s.call.task, w), home := s.home[s.call.task := w], trace := s.trace + [Began(s.call.task)])
    case Spawn(rc) =>
      var w := s.call.w;
      if rc < 0 then s.(workers := s.workers - {w}, call := Idle, refused := s.refused + {s.call.task})
      else Put(s, w, s.workers[w].(pc := if rc == 0 then Starting else Dead)).(call := Linking(s.call.task, w))
    case Link => s.(list := [s.call.w] + s.list, call := Idle, accepted := s.accepted + {s.call.task})
    case Lock(w) => Put(s, w, s.workers[w].(lock := Self, pc := Checking))
    case Take(w) =>
      var t := s.workers[w].slot.value;
      Put(s, w, s.workers[w].(lock := Nobody, pc := Running(t))).(trace := s.trace + [Ran(t, w)])
    case Sleep(w) => Put(s, w, s.workers[w].(lock := Nobody, pc := Waiting))
    case Finish(w) =>
      var t := s.workers[w].pc.task;
      Put(s, w, s.workers[w].(pc := Clearing(t))).(trace := s.trace + [Ended(t, w)])
    case Reclaim(w) => Put(s, w, Worker(None, Self, Checking))
    case Wake(w) => Put(s, w, s.workers[w].(pc := Woken))
  }

  predicate Init(s: State) {
    s == State(map[], [], Idle, map[], {}, {}, {}, 0, [])
  }

  predicate Follows(s: State, acts: seq<Action>)
    decreases acts
  {
    acts == [] || (Enabled(s, acts[0]) && Follows(Apply(s, acts[0]), acts[1..]))
  }

  function Run(s: State, acts: seq<Action>): State
    requires Follows(s, acts)
    decreases acts
  {
    if acts == [] then s else Run(Apply(s, acts[0]), acts[1..])
  }

  ghost predicate Reachable(s: State) {
    exists s0, acts :: Init(s0) && Follows(s0, acts) && Run(s0, acts) == s
  }

  // ---- The trace of one task ----

  datatype Status = New | Open | Held(worker: nat) | Finished(worker: nat) | Broken

  /** A task begins, one worker runs it, and the same worker ends it, once. */
  function Advance(st: Status, e: Event): Status {
    match e
    case Began(_) => if st == New then Open else Broken
    case Ran(_, w) => if st == Open then Held(w) else Broken
    case Ended(_, w) => if st == Held(w) then Finished(w) else Broken
  }

  function StatusOf(trace: seq<Event>, t: Task): Status {
    if trace == [] then New
    else
      var before := StatusOf(trace[..|trace|-1], t);
      var e := trace[|trace|-1];
      if e.task == t then Advance(before, e) else before
  }

  lemma StatusAppend(trace: seq<Event>, e: Event, t: Task)
    ensures StatusOf(trace + [e], t) == if e.task == t then Advance(StatusOf(trace, t), e) else StatusOf(trace, t)
  {
    assert (trace + [e])[..|trace|] == trace;
  }

  // ---- The invariant ----

  /** The submitter is inside the lock of worker `w`. */
  predicate Inside(s: State, w: nat) {
    (s.call.Looking? || s.call.Filled? || s.call.Begun? || s.call.Told?) && AtWorker(s) && Current(s) == w
  }

  /** ... between filling the slot and signalling. */
  predicate AboutToTell(s: State, w: nat) {
    (s.call.Filled? || s.call.Begun?) && AtWorker(s) && Current(s) == w
  }

  predicate LockAgrees(s: State, w: nat)
    requires w in s.workers
  {
    && (s.workers[w].lock == Self <==> s.workers[w].pc == Checking)
    && (s.workers[w].lock == Submitter <==> Inside(s, w))
  }

  predicate SlotAgrees(s: State, w: nat)
    requires w in s.workers
  {
    match s.workers[w].pc
    case Running(t) => s.workers[w].slot == Some(t) && !AboutToTell(s, w)
    case Clearing(t) => s.workers[w].slot == Some(t) && !AboutToTell(s, w)
    case Waiting => s.workers[w].slot.None? || AboutToTell(s, w)
    case Unborn => s.workers[w].slot.Some? && s.call.Spawning? && s.call.w == w
    case Dead => s.workers[w].slot.Some? && !AboutToTell(s, w)
    case _ => true
  }

  /** The status a task in the slot of `w` has. */
  function SlotStatus(s: State, w: nat): Status
    requires w in s.workers
  {
    match s.workers[w].pc
    case Running(_) => Held(w)
    case Clearing(_) => Finished(w)
    case _ => if s.call.Filled? && AtWorker(s) && Current(s) == w then New else Open
  }

  predicate HomeAgrees(s: State, w: nat)
    requires w in s.workers
  {
    match s.workers[w].slot
    case Some(t) =>
      t in s.home && s.home[t] == w && t !in s.refused && StatusOf(s.trace, t) == SlotStatus(s, w)
    case None => true
  }

  predicate TaskAgrees(s: State, t: Task) {
    if t !in s.home then StatusOf(s.trace, t) == New && t !in s.accepted && t !in s.refused
    else
      || (s.home[t] in s.workers && s.workers[s.home[t]].slot == Some(t))
      || (StatusOf(s.trace, t) == Finished(s.home[t]) && t !in s.refused)
      || (StatusOf(s.trace, t) == Open && t in s.refused && t !in s.accepted)
  }

  /** The task of the call in progress has no worker until a slot is filled. */
  predicate CallAgrees(s: State) {
    match s.call
    case Idle => true
    case Scanning(t, i, _) => i <= |s.list| && t !in s.home && t in s.known
    case Looking(t, i, _) => AtWorker(s) && t !in s.home && t in s.known
    case Filled(t, _) => AtWorker(s) && s.workers[Current(s)].slot == Some(t) && t !in s.accepted
    case Begun(t, _) => AtWorker(s) && s.workers[Current(s)].slot == Some(t)
    case Told(t, _) => AtWorker(s) && s.workers[Current(s)].slot == Some(t)
    case Spawning(t, w) =>
      w in s.workers && w !in s.list && s.workers[w] == Worker(Some(t), Nobody, Unborn) && t !in s.accepted
    case Linking(t, w) => w in s.workers && w !in s.list && t in s.home && t !in s.refused
  }

  ghost predicate ListAgrees(s: State) {
    && Distinct(s.list)
    && (forall w :: w in s.list ==> w in s.workers)
    && (forall w :: w in s.workers ==>
          w in s.list || ((s.call.Spawning? || s.call.Linking?) && s.call.w == w))
  }

  ghost predicate WorkersAgree(s: State) {
    forall w :: w in s.workers ==> LockAgrees(s, w) && SlotAgrees(s, w) && HomeAgrees(s, w)
  }

  ghost predicate TasksAgree(s: State) {
    && (forall t :: TaskAgrees(s, t))
    && (forall t :: t in s.home ==> t in s.known)
  }

  /** What the scan has seen, and the room it leaves for one more worker. */
  ghost predicate ScanAgrees(s: State) {
    && |s.list| <= s.peak
    && (s.call.Spawning? || s.call.Linking? ==> |s.list| < s.peak)
    && (s.call.Scanning? || s.call.Looking? ==>
          && |s.call.busy| < s.peak && s.call.i <= |s.list|
          && (forall j :: 0 <= j < s.call.i ==> s.list[j] in s.call.busy)
          && (forall w :: w in s.list && w in s.workers && s.workers[w].slot.Some? ==> w in s.call.busy))
  }

  ghost predicate Inv(s: State) {
    ListAgrees(s) && WorkersAgree(s) && CallAgrees(s) && TasksAgree(s) && ScanAgrees(s)
  }

  // ---- One step ----

  function EventOf(s: State, a: Action): Option<Event>
    requires Enabled(s, a)
  {
    match a
    case Begin => Some(Began(s.call.task))
    case Allocate(_) => Some(Began(s.call.task))
    case Take(w) => Some(Ran(s.workers[w].slot.value, w))
    case Finish(w) => Some(Ended(s.workers[w].pc.task, w))
    case _ => None
  }

  lemma TraceStep(s: State, a: Action, t: Task)
    requires Enabled(s, a)
    ensures StatusOf(Apply(s, a).trace, t)
         == match EventOf(s, a)
            case Some(e) => if e.task == t then Advance(StatusOf(s.trace, t), e) else StatusOf(s.trace, t)
            case None => StatusOf(s.trace, t)
  {
    var e := EventOf(s, a);
    if e.Some? {
      StatusAppend(s.trace, e.value, t);
    }
  }

  lemma ListStep(s: State, a: Action)
    requires ListAgrees(s) && CallAgrees(s) && Enabled(s, a)
    ensures ListAgrees(Apply(s, a))
  {
    if ByWorker(a) {
      WorkerFrame(s, a, a.w);
    } else if a.Link? {
      DistinctPrepend(s.call.w, s.list);
    }
  }

  predicate ByWorker(a: Action) {
    a.Lock? || a.Take? || a.Sleep? || a.Finish? || a.Reclaim? || a.Wake?
  }

  /** Steps of the scan, up to the signal. */
  predicate ScanStep(a: Action) {
    a.Submit? || a.ScanLock? || a.Skip? || a.Fill? || a.Begin? || a.Tell?
  }

  lemma CallOfWorker(s: State, a: Action)
    requires CallAgrees(s) && Enabled(s, a) && ByWorker(a) && (AtWorker(s) ==> LockAgrees(s, Current(s)))
    ensures CallAgrees(Apply(s, a))
  {
  }

  lemma CallOfScan(s: State, a: Action)
    requires CallAgrees(s) && Enabled(s, a) && ScanStep(a)
    requires TasksAgree(s)
    ensures CallAgrees(Apply(s, a))
  {
    if a.Submit? {
      assert TaskAgrees(s, a.task);
    } else if a.Fill? {
      assert TaskAgrees(s, s.call.task);
    }
  }

  lemma CallOfGrowth(s: State, a: Action)
    requires CallAgrees(s) && Enabled(s, a) && !ScanStep(a) && !ByWorker(a) && ListAgrees(s)
    requires TasksAgree(s)
    requires s.call.Spawning? ==> s.call.w in s.workers && HomeAgrees(s, s.call.w)
    ensures CallAgrees(Apply(s, a))
  {
    if a.Allocate? || a.Spawn? {
      assert TaskAgrees(s, s.call.task);
    }
  }

  lemma CallStep(s: State, a: Action)
    requires ListAgrees(s) && WorkersAgree(s) && CallAgrees(s) && TasksAgree(s) && Enabled(s, a)
    ensures CallAgrees(Apply(s, a))
  {
    if ByWorker(a) {
      CallOfWorker(s, a);
    } else if ScanStep(a) {
      CallOfScan(s, a);
    } else {
      CallOfGrowth(s, a);
    }
  }

  /** What is known of the workers a step concerns: `w`, and the one the scan stands at. */
  predicate Known(s: State, w: nat) {
    && (w in s.workers ==> LockAgrees(s, w) && SlotAgrees(s, w) && HomeAgrees(s, w))
    && (AtWorker(s) ==> LockAgrees(s, Current(s)) && HomeAgrees(s, Current(s)))
    && (s.call.Spawning? && s.call.w in s.workers ==> HomeAgrees(s, s.call.w))
  }

  lemma InvKnows(s: State, w: nat)
    requires WorkersAgree(s)
    ensures Known(s, w)
  {
  }

  lemma LockOfWorker(s: State, a: Action, w: nat)
    requires Known(s, w) && Enabled(s, a) && ByWorker(a) && w in Apply(s, a).workers
    ensures LockAgrees(Apply(s, a), w)
  {
  }

  lemma LockOfScan(s: State, a: Action, w: nat)
    requires Known(s, w) && Distinct(s.list) && Enabled(s, a) && ScanStep(a) && w in Apply(s, a).workers
    ensures LockAgrees(Apply(s, a), w)
  {
    if a.Skip? && s.call.i + 1 < |s.list| {
      assert Differ(s.list, s.call.i, s.call.i + 1);
    }
  }

  lemma LockOfGrowth(s: State, a: Action, w: nat)
    requires Known(s, w) && CallAgrees(s) && Enabled(s, a) && !ScanStep(a) && !ByWorker(a) && w in Apply(s, a).workers
    ensures LockAgrees(Apply(s, a), w)
  {
  }

  /** No step of one worker touches another, and the submitter touches only the worker whose
      lock it holds. */
  lemma LockStep(s: State, a: Action, w: nat)
    requires Known(s, w) && Distinct(s.list) && CallAgrees(s) && Enabled(s, a) && w in Apply(s, a).workers
    ensures LockAgrees(Apply(s, a), w)
  {
    if ByWorker(a) {
      LockOfWorker(s, a, w);
    } else if ScanStep(a) {
      LockOfScan(s, a, w);
    } else {
      LockOfGrowth(s, a, w);
    }
  }

  lemma SlotStep(s: State, a: Action, w: nat)
    requires Known(s, w) && CallAgrees(s) && Enabled(s, a) && w in Apply(s, a).workers
    ensures SlotAgrees(Apply(s, a), w)
  {
    if ByWorker(a) {
      SlotOfWorker(s, a, w);
    } else if ScanStep(a) {
      SlotOfScan(s, a, w);
    } else {
      SlotOfGrowth(s, a, w);
    }
  }

  /** A step of a worker is its own. */
  lemma WorkerFrame(s: State, a: Action, w: nat)
    requires Enabled(s, a) && ByWorker(a) && w in s.workers
    ensures w in Apply(s, a).workers && (a.w != w ==> Apply(s, a).workers[w] == s.workers[w])
    ensures !a.Reclaim? ==> Apply(s, a).workers[w].slot == s.workers[w].slot
    ensures Apply(s, a).workers[w].slot.Some? ==> s.workers[w].slot.Some?
    ensures Apply(s, a).peak == s.peak && Apply(s, a).call == s.call && Apply(s, a).list == s.list
    ensures Apply(s, a).home == s.home && Apply(s, a).refused == s.refused
    ensures Apply(s, a).workers.Keys == s.workers.Keys
  {
  }

  lemma SlotOfWorker(s: State, a: Action, w: nat)
    requires Known(s, w) && Enabled(s, a) && ByWorker(a) && w in Apply(s, a).workers
    ensures SlotAgrees(Apply(s, a), w)
  {
    if a.w != w {
      WorkerFrame(s, a, w);
    } else {
      SlotOfOwner(s, a);
    }
  }

  lemma SlotOfOwner(s: State, a: Action)
    requires ByWorker(a) && Known(s, a.w) && Enabled(s, a)
    ensures SlotAgrees(Apply(s, a), a.w)
  {
    if a.Lock? || a.Reclaim? {
    } else if a.Take? || a.Finish? {
    } else {
    }
  }

  lemma SlotOfScan(s: State, a: Action, w: nat)
    requires Known(s, w) && CallAgrees(s) && Enabled(s, a) && ScanStep(a) && w in Apply(s, a).workers
    ensures SlotAgrees(Apply(s, a), w)
  {
  }

  lemma SlotOfGrowth(s: State, a: Action, w: nat)
    requires Known(s, w) && CallAgrees(s) && Enabled(s, a) && !ScanStep(a) && !ByWorker(a) && w in Apply(s, a).workers
    ensures SlotAgrees(Apply(s, a), w)
  {
  }

  lemma HomeStep(s: State, a: Action, w: nat, t: Task)
    requires Known(s, w) && CallAgrees(s) && Enabled(s, a) && (ByWorker(a) ==> Known(s, a.w))
    requires w in Apply(s, a).workers && Apply(s, a).workers[w].slot == Some(t) && TaskAgrees(s, t)
    ensures HomeAgrees(Apply(s, a), w)
  {
    if ByWorker(a) {
      HomeOfWorker(s, a, w, t);
    } else if a.Fill? {
      HomeOfFill(s, w, t);
    } else if a.Begin? {
      HomeOfBegin(s, w, t);
    } else if a.Allocate? {
      HomeOfAllocate(s, a.w, w, t);
    } else if ScanStep(a) {
      HomeOfScan(s, a, w, t);
    } else {
      HomeOfGrowth(s, a, w, t);
    }
  }

  lemma HomeOfWorker(s: State, a: Action, w: nat, t: Task)
    requires Known(s, w) && Enabled(s, a) && ByWorker(a) && Known(s, a.w)
    requires w in Apply(s, a).workers && Apply(s, a).workers[w].slot == Some(t)
    ensures HomeAgrees(Apply(s, a), w)
  {
    if a.w == w {
      HomeOfOwner(s, a, t);
    } else {
      WorkerFrame(s, a, w);
      OtherTask(s, a, w, t);
      HomeUnmoved(s, Apply(s, a), w, t);
    }
  }

  /** The task a worker takes or ends is not the one another worker holds. */
  lemma OtherTask(s: State, a: Action, w: nat, t: Task)
    requires ByWorker(a) && a.w != w && Known(s, a.w) && Known(s, w) && Enabled(s, a)
    requires w in s.workers && s.workers[w].slot == Some(t)
    ensures StatusOf(Apply(s, a).trace, t) == StatusOf(s.trace, t)
  {
    TraceStep(s, a, t);
  }

  lemma HomeUnmoved(s: State, s': State, w: nat, t: Task)
    requires w in s.workers && w in s'.workers && s'.workers[w] == s.workers[w] && s.workers[w].slot == Some(t)
    requires s'.call == s.call && s'.list == s.list && s'.home == s.home && s'.refused == s.refused
    requires s'.workers.Keys == s.workers.Keys && StatusOf(s'.trace, t) == StatusOf(s.trace, t) && HomeAgrees(s, w)
    ensures HomeAgrees(s', w)
  {
  }

  lemma HomeOfOwner(s: State, a: Action, t: Task)
    requires ByWorker(a) && Known(s, a.w) && Enabled(s, a)
    requires Apply(s, a).workers[a.w].slot == Some(t)
    ensures HomeAgrees(Apply(s, a), a.w)
  {
    TraceStep(s, a, t);
  }

  lemma HomeOfFill(s: State, w: nat, t: Task)
    requires Known(s, w) && CallAgrees(s) && Enabled(s, Fill) && TaskAgrees(s, t)
    requires w in Apply(s, Fill).workers && Apply(s, Fill).workers[w].slot == Some(t)
    ensures HomeAgrees(Apply(s, Fill), w)
  {
    if w != Current(s) { assert s.workers[w].slot == Some(t); }
  }

  lemma HomeOfBegin(s: State, w: nat, t: Task)
    requires Known(s, w) && CallAgrees(s) && Enabled(s, Begin) && TaskAgrees(s, t)
    requires w in Apply(s, Begin).workers && Apply(s, Begin).workers[w].slot == Some(t)
    ensures HomeAgrees(Apply(s, Begin), w)
  {
    StatusAppend(s.trace, Began(s.call.task), t);
  }

  lemma HomeOfAllocate(s: State, v: nat, w: nat, t: Task)
    requires Known(s, w) && CallAgrees(s) && Enabled(s, Allocate(v)) && TaskAgrees(s, t)
    requires w in Apply(s, Allocate(v)).workers && Apply(s, Allocate(v)).workers[w].slot == Some(t)
    ensures HomeAgrees(Apply(s, Allocate(v)), w)
  {
    StatusAppend(s.trace, Began(s.call.task), t);
    if w != v { assert s.workers[w].slot == Some(t); }
  }

  lemma HomeOfScan(s: State, a: Action, w: nat, t: Task)
    requires Known(s, w) && CallAgrees(s) && Enabled(s, a) && ScanStep(a) && !a.Fill? && !a.Begin?
    requires w in Apply(s, a).workers && Apply(s, a).workers[w].slot == Some(t)
    ensures HomeAgrees(Apply(s, a), w)
  {
  }

  lemma HomeOfGrowth(s: State, a: Action, w: nat, t: Task)
    requires Known(s, w) && CallAgrees(s) && Enabled(s, a) && !ScanStep(a) && !ByWorker(a) && !a.Allocate?
    requires w in Apply(s, a).workers && Apply(s, a).workers[w].slot == Some(t)
    ensures HomeAgrees(Apply(s, a), w)
  {
  }

  lemma WorkersStep(s: State, a: Action)
    requires Inv(s) && Enabled(s, a)
    ensures WorkersAgree(Apply(s, a))
  {
    var s' := Apply(s, a);
    forall w | w in s'.workers ensures LockAgrees(s', w) && SlotAgrees(s', w) && HomeAgrees(s', w) {
      InvKnows(s, w);
      if ByWorker(a) {
        InvKnows(s, a.w);
      }
      LockStep(s, a, w);
      SlotStep(s, a, w);
      if s'.workers[w].slot.Some? {
        assert TaskAgrees(s, s'.workers[w].slot.value);
        HomeStep(s, a, w, s'.workers[w].slot.value);
      }
    }
  }

  lemma TaskOfTake(s: State, w: nat, t: Task)
    requires Enabled(s, Take(w)) && TaskAgrees(s, t) && Known(s, w)
    ensures TaskAgrees(Apply(s, Take(w)), t)
  {
    StatusAppend(s.trace, Ran(s.workers[w].slot.value, w), t);
  }

  lemma TaskOfFinish(s: State, w: nat, t: Task)
    requires Enabled(s, Finish(w)) && TaskAgrees(s, t) && Known(s, w)
    ensures TaskAgrees(Apply(s, Finish(w)), t)
  {
    StatusAppend(s.trace, Ended(s.workers[w].pc.task, w), t);
  }

  lemma TaskOfReclaim(s: State, w: nat, t: Task)
    requires Enabled(s, Reclaim(w)) && TaskAgrees(s, t) && Known(s, w)
    ensures TaskAgrees(Apply(s, Reclaim(w)), t)
  {
  }

  lemma TaskOfWorker(s: State, a: Action, t: Task)
    requires Enabled(s, a) && ByWorker(a) && TaskAgrees(s, t) && Known(s, a.w)
    ensures TaskAgrees(Apply(s, a), t)
  {
    if a.Take? {
      TaskOfTake(s, a.w, t);
    } else if a.Finish? {
      TaskOfFinish(s, a.w, t);
    } else if a.Reclaim? {
      TaskOfReclaim(s, a.w, t);
    }
  }

  lemma TaskOfScan(s: State, a: Action, t: Task)
    requires Enabled(s, a) && ScanStep(a) && CallAgrees(s) && TaskAgrees(s, t) && (t in s.home ==> t in s.known)
    requires Known(s, if t in s.home then s.home[t] else 0)
    ensures TaskAgrees(Apply(s, a), t)
  {
    TraceStep(s, a, t);
  }

  lemma TaskOfGrowth(s: State, a: Action, t: Task)
    requires Enabled(s, a) && !ScanStep(a) && !ByWorker(a) && CallAgrees(s) && TaskAgrees(s, t)
    requires Known(s, if t in s.home then s.home[t] else 0)
    ensures TaskAgrees(Apply(s, a), t)
  {
    TraceStep(s, a, t);
  }

  lemma TasksStep(s: State, a: Action)
    requires WorkersAgree(s) && CallAgrees(s) && TasksAgree(s) && Enabled(s, a)
    ensures TasksAgree(Apply(s, a))
  {
    forall t ensures TaskAgrees(Apply(s, a), t) {
      assert TaskAgrees(s, t);
      InvKnows(s, if t in s.home then s.home[t] else 0);
      if ByWorker(a) {
        InvKnows(s, a.w);
        TaskOfWorker(s, a, t);
      } else if ScanStep(a) {
        TaskOfScan(s, a, t);
      } else {
        TaskOfGrowth(s, a, t);
      }
    }
    KnownStep(s, a);
  }

  lemma KnownStep(s: State, a: Action)
    requires Enabled(s, a) && CallAgrees(s) && forall t :: t in s.home ==> t in s.known
    ensures forall t :: t in Apply(s, a).home ==> t in Apply(s, a).known
  {
  }

  lemma {:induction false} DistinctFits(list: seq<nat>, room: set<nat>)
    requires Distinct(list) && forall w :: w in list ==> w in room
    ensures |list| <= |room|
  {
    if list != [] {
      DistinctTail(list);
      OthersDiffer(list, 0);
      DistinctFits(list[1..], room - {list[0]});
    }
  }

  lemma BusyUnmoved(s: State, s': State)
    requires ScanAgrees(s) && s'.list == s.list && s'.call == s.call && s'.peak == s.peak
    requires forall w :: w in s'.workers && s'.workers[w].slot.Some? ==> w in s.workers && s.workers[w].slot.Some?
    ensures ScanAgrees(s')
  {
  }

  lemma BusyOfWorker(s: State, a: Action)
    requires ScanAgrees(s) && Enabled(s, a) && ByWorker(a)
    ensures ScanAgrees(Apply(s, a))
  {
    WorkerFrame(s, a, a.w);
    forall w | w in Apply(s, a).workers && Apply(s, a).workers[w].slot.Some?
      ensures w in s.workers && s.workers[w].slot.Some?
    {
      WorkerFrame(s, a, w);
    }
    BusyUnmoved(s, Apply(s, a));
  }

  lemma BusyOfScan(s: State, a: Action)
    requires ScanAgrees(s) && CallAgrees(s) && Enabled(s, a) && ScanStep(a)
    ensures ScanAgrees(Apply(s, a))
  {
  }

  /** Slots are filled only by the submitter, and it is busy scanning. */
  lemma BusyStep(s: State, a: Action)
    requires ScanAgrees(s) && CallAgrees(s) && Distinct(s.list) && Enabled(s, a)
    ensures ScanAgrees(Apply(s, a))
  {
    if ByWorker(a) {
      BusyOfWorker(s, a);
    } else if ScanStep(a) {
      BusyOfScan(s, a);
    } else if a.Allocate? {
      DistinctFits(s.list, s.call.busy);
    }
  }
}
