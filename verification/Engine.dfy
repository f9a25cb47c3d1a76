/** The request engine as a step machine (src/unix/pollish.c, src/queue.c): one thread that
    calls the library (start, cancel, close, poll) and any number of pool workers that
    complete requests, interleaved at the granularity of the queue lock.  The kernel is
    nondeterministic: it decides when a wait ends, what it reports, and what operations
    return. */
module Engine {
  import opened FdAccounting

  /** A request is made for one queue and keeps it (yo_req_new). */
  datatype Req = Req(id: nat, queue: nat)

  datatype Thread = User | Worker(id: nat)

  /** Where the code of a completed request comes from. */
  datatype Source = FromOperation | FromCancel | FromClose

  datatype Event =
    | Started(req: Req)
    | Produced(req: Req, code: Code, source: Source)
    | Delivered(req: Req, code: Code)

  /** The stations of yoi_req_end. */
  datatype EndPc = Want | Locked | Pushed | Notified

  datatype After = Return | CloseRest(fd: nat, rest: seq<(Req, Kind)>)

  datatype UserPc =
    | Idle
    | Ending(req: Req, code: Code, at: EndPc, after: After)
    | Closing(fd: nat, rest: seq<(Req, Kind)>)
    | PollTop(q: nat)      // in yo_queue_poll, before the pop
    | PollLocked(q: nat)   // inside yoi_queue_pop
    | Waiting(q: nat)      // in the kernel wait
    | Draining(q: nat)     // emptying the self-pipe

  datatype WorkerPc = Free | Busy(req: Req) | Finishing(req: Req, code: Code, at: EndPc)

  datatype QueueState = QueueState(ready: seq<(Req, Code)>, pipe: nat, owner: Option<Thread>)

  /** Where a request in flight is.  A history variable: the data structures are proved to
      agree with it. */
  datatype Place = OnFd(fd: nat) | InHand(t: Thread, code: Option<Code>) | OnQueue(result: Code)

  datatype State = State(
    pipeCap: nat,
    fds: map<nat, FdState<Req>>,
    reg: map<(nat, nat), Mask>,          // kernel interest: (queue, descriptor) to mask
    queues: map<nat, QueueState>,
    user: UserPc,
    workers: map<nat, WorkerPc>,
    place: map<Req, Place>,
    eperm: map<nat, (nat, nat)>,         // starts refused with EPERM, per descriptor ever opened
    trace: seq<Event>)

  const CHUNK := 1024

  datatype Action =
    | Open(fd: nat)
    | StartIo(req: Req, fd: nat, kind: Kind, outcome: Code, op: Code)
    | Exec(req: Req, w: nat)
    | Cancel(req: Req, fd: nat)
    | BeginClose(fd: nat)
    | CloseNext
    | CloseDone
    | PollBegin(q: nat)
    | PollLock
    | PollTake
    | PollEmpty
    | WaitTimeout
    | WaitNotify
    | DrainSome
    | DrainDone
    | WaitFd(fd: nat, ready: Mask, op: Code)
    | WorkFinish(w: nat, code: Code)
    | EndLock(t: Thread)
    | EndPush(t: Thread)
    | EndNotify(t: Thread)
    | EndUnlock(t: Thread)

  /** The yoi_req_end call thread `t` is inside. */
  function EndOf(s: State, t: Thread): Option<(Req, Code, EndPc)> {
    match t
    case User => if s.user.Ending? then Some((s.user.req, s.user.code, s.user.at)) else None
    case Worker(w) =>
      if w in s.workers && s.workers[w].Finishing?
      then Some((s.workers[w].req, s.workers[w].code, s.workers[w].at)) else None
  }

  predicate AtEnd(s: State, t: Thread, at: EndPc) {
    EndOf(s, t).Some? && EndOf(s, t).value.2 == at && EndOf(s, t).value.0.queue in s.queues
  }

  function MoveEnd(s: State, t: Thread, at: EndPc): State
    requires EndOf(s, t).Some?
  {
    match t
    case User => s.(user := s.user.(at := at))
    case Worker(w) => s.(workers := s.workers[w := s.workers[w].(at := at)])
  }

  function AfterEnd(after: After): UserPc {
    match after
    case Return => Idle
    case CloseRest(fd, rest) => Closing(fd, rest)
  }

  function LeaveEnd(s: State, t: Thread): State
    requires EndOf(s, t).Some?
  {
    match t
    case User => s.(user := AfterEnd(s.user.after))
    case Worker(w) => s.(workers := s.workers[w := Free])
  }

  /** _yoi_pl_req_stop.  The second branch stands for a counter that would wrap; it is proved
      unreachable. */
  function Stopped(st: FdState<Req>, r: Req): FdState<Req> {
    if CanStop(st, r) then Stop(st, r) else st
  }

  predicate Enabled(s: State, a: Action) {
    match a
    case Open(fd) => s.user == Idle && fd !in s.eperm
    case StartIo(r, fd, kind, outcome, op) =>
      && s.user == Idle && fd in s.fds && fd in s.eperm && r !in s.place && r.queue in s.queues
      && (outcome == OK || outcome == EPERM)
    case Exec(r, w) =>
      s.user == Idle && r !in s.place && r.queue in s.queues && (w in s.workers ==> s.workers[w] == Free)
    case Cancel(r, fd) => s.user == Idle && fd in s.fds && Has(s.fds[fd].head, r)
    case BeginClose(fd) => s.user == Idle && fd in s.fds
    case CloseNext => s.user.Closing? && s.user.rest != []
    case CloseDone => s.user.Closing? && s.user.rest == []
    case PollBegin(q) => s.user == Idle && q in s.queues
    case PollLock => s.user.PollTop? && s.user.q in s.queues && s.queues[s.user.q].owner == None
    case PollTake => s.user.PollLocked? && s.user.q in s.queues && s.queues[s.user.q].ready != []
    case PollEmpty => s.user.PollLocked? && s.user.q in s.queues && s.queues[s.user.q].ready == []
    case WaitTimeout => s.user.Waiting?
    case WaitNotify => s.user.Waiting? && s.user.q in s.queues && s.queues[s.user.q].pipe > 0
    case DrainSome => s.user.Draining? && s.user.q in s.queues && s.queues[s.user.q].pipe > 0
    case DrainDone => s.user.Draining? && s.user.q in s.queues && s.queues[s.user.q].pipe == 0
    case WaitFd(fd, ready, op) =>
      s.user.Waiting? && fd in s.fds && (s.user.q, fd) in s.reg && Reportable(s.reg[(s.user.q, fd)], ready)
    case WorkFinish(w, code) => w in s.workers && s.workers[w].Busy?
    case EndLock(t) => AtEnd(s, t, Want) && s.queues[EndOf(s, t).value.0.queue].owner == None
    case EndPush(t) => AtEnd(s, t, Locked)
    case EndNotify(t) => AtEnd(s, t, Pushed)
    case EndUnlock(t) => AtEnd(s, t, Notified)
  }

  function Apply(s: State, a: Action): State
    requires Enabled(s, a)
  {
    match a
    case Open(fd) => s.(fds := s.fds[fd := Empty()], eperm := s.eperm[fd := (0, 0)])
    case StartIo(r, fd, kind, outcome, op) => ApplyStart(s, r, fd, kind, outcome, op)
    case Exec(r, w) =>
      s.(workers := s.workers[w := Busy(r)], place := s.place[r := InHand(Worker(w), None)],
         trace := s.trace + [Started(r)])
    case Cancel(r, fd) =>
      var st := Stopped(s.fds[fd], r);
      s.(fds := s.fds[fd := st], reg := Registered(s.reg, (r.queue, fd), st.Interest(), st.Interest()),
         user := Ending(r, ECANCELED, Want, Return), place := s.place[r := InHand(User, Some(ECANCELED))],
         trace := s.trace + [Produced(r, ECANCELED, FromCancel)])
    case BeginClose(fd) => s.(fds := s.fds - {fd}, user := Closing(fd, s.fds[fd].head))
    case CloseNext =>
      var r := s.user.rest[0].0;
      s.(reg := s.reg - {(r.queue, s.user.fd)},
         user := Ending(r, ECANCELED, Want, CloseRest(s.user.fd, s.user.rest[1..])),
         place := s.place[r := InHand(User, Some(ECANCELED))],
         trace := s.trace + [Produced(r, ECANCELED, FromClose)])
    case CloseDone => s.(user := Idle)
    case PollBegin(q) => s.(user := PollTop(q))
    case PollLock =>
      var q := s.user.q;
      s.(queues := s.queues[q := s.queues[q].(owner := Some(User))], user := PollLocked(q))
    case PollTake =>
      var q := s.user.q;
      var (r, code) := s.queues[q].ready[0];
      s.(queues := s.queues[q := s.queues[q].(ready := s.queues[q].ready[1..], owner := None)], user := Idle,
         place := s.place - {r}, trace := s.trace + [Delivered(r, code)])
    case PollEmpty =>
      var q := s.user.q;
      s.(queues := s.queues[q := s.queues[q].(owner := None)], user := Waiting(q))
    case WaitTimeout => s.(user := Idle)
    case WaitNotify => s.(user := Draining(s.user.q))
    case DrainSome =>
      var q := s.user.q;
      var left := if s.queues[q].pipe > CHUNK then s.queues[q].pipe - CHUNK else 0;
      s.(queues := s.queues[q := s.queues[q].(pipe := left)])
    case DrainDone => s.(user := PollTop(s.user.q))
    case WaitFd(fd, ready, op) => ApplyReport(s, fd, ready, op)
    case WorkFinish(w, code) =>
      var r := s.workers[w].req;
      s.(workers := s.workers[w := Finishing(r, code, Want)], place := s.place[r := InHand(Worker(w), Some(code))],
         trace := s.trace + [Produced(r, code, FromOperation)])
    case EndLock(t) =>
      var q := EndOf(s, t).value.0.queue;
      MoveEnd(s, t, Locked).(queues := s.queues[q := s.queues[q].(owner := Some(t))])
    case EndPush(t) =>
      var (r, code, _) := EndOf(s, t).value;
      var q := s.queues[r.queue];
      MoveEnd(s, t, Pushed).(queues := s.queues[r.queue := q.(ready := [(r, code)] + q.ready)],
                             place := s.place[r := OnQueue(code)])
    case EndNotify(t) =>
      var q := EndOf(s, t).value.0.queue;
      var pipe := if s.queues[q].pipe < s.pipeCap then s.queues[q].pipe + 1 else s.queues[q].pipe;
      MoveEnd(s, t, Notified).(queues := s.queues[q := s.queues[q].(pipe := pipe)])
    case EndUnlock(t) =>
      var q := EndOf(s, t).value.0.queue;
      LeaveEnd(s, t).(queues := s.queues[q := s.queues[q].(owner := None)])
  }

  /** _yoi_pl_req_start */
  function ApplyStart(s: State, r: Req, fd: nat, kind: Kind, outcome: Code, op: Code): State
    requires Enabled(s, StartIo(r, fd, kind, outcome, op))
  {
    var st := Start(s.fds[fd], r, kind, outcome);
    var s' := s.(fds := s.fds[fd := st]);
    if outcome == EPERM then
      var (er, ew) := s.eperm[fd];
      s'.(eperm := s.eperm[fd := if ToMask(kind).readable then (er + 1, ew) else (er, ew + 1)],
          user := Ending(r, op, Want, Return), place := s.place[r := InHand(User, Some(op))],
          trace := s.trace + [Started(r), Produced(r, op, FromOperation)])
    else
      s'.(reg := Registered(s.reg, (r.queue, fd), st.Interest(), st.Interest()), place := s.place[r := OnFd(fd)],
          trace := s.trace + [Started(r)])
  }

  /** yo_queue_poll after the kernel reported a descriptor. */
  function ApplyReport(s: State, fd: nat, ready: Mask, op: Code): State
    requires Enabled(s, WaitFd(fd, ready, op))
  {
    match GetReq(s.fds[fd].head, ready)
    case None => s.(user := PollTop(s.user.q))
    case Some(r) =>
      var st := Stopped(s.fds[fd], r);
      s.(fds := s.fds[fd := st], reg := Registered(s.reg, (r.queue, fd), st.Interest(), st.Interest()), user := Idle,
         place := s.place - {r},
         trace := s.trace + [Produced(r, op, FromOperation), Delivered(r, op)])
  }

  // ---- Runs ----

  predicate Init(s: State) {
    && s.pipeCap > 0
    && s.fds == map[] && s.reg == map[] && s.place == map[] && s.eperm == map[] && s.trace == []
    && s.user == Idle
    && (forall q :: q in s.queues ==> s.queues[q] == QueueState([], 0, None))
    && (forall w :: w in s.workers ==> s.workers[w] == Free)
  }

  predicate Follows(s: State, acts: seq<Action>)
    decreases acts
  {
    acts == [] || (Enabled(s, acts[0]) && Follows(Apply(s, acts[0]), acts[1..]))
  }

  function Run(s: State, acts: seq<Action>): State
    requires Follows(s, acts)
    decreases acts
  {
    if acts == [] then s else Run(Apply(s, acts[0]), acts[1..])
  }

  ghost predicate Reachable(s: State) {
    exists s0, acts :: Init(s0) && Follows(s0, acts) && Run(s0, acts) == s
  }

  // ---- The trace of one request ----

  datatype Status = AtRest | Going | Done(code: Code) | Broken

  /** A request starts, its code is produced, and that code is delivered, over and over.
      Cancelling and closing produce YO_ECANCELED. */
  function Advance(st: Status, e: Event): Status {
    match e
    case Started(_) => if st == AtRest then Going else Broken
    case Produced(_, code, source) =>
      if st == Going && (source != FromOperation ==> code == ECANCELED) then Done(code) else Broken
    case Delivered(_, code) => if st == Done(code) then AtRest else Broken
  }

  function StatusOf(trace: seq<Event>, r: Req): Status {
    if trace == [] then AtRest
    else
      var before := StatusOf(trace[..|trace|-1], r);
      var e := trace[|trace|-1];
      if e.req == r then Advance(before, e) else before
  }

  lemma StatusAppend(trace: seq<Event>, e: Event, r: Req)
    ensures StatusOf(trace + [e], r) == if e.req == r then Advance(StatusOf(trace, r), e) else StatusOf(trace, r)
  {
    assert (trace + [e])[..|trace|] == trace;
  }

  lemma StatusAppend2(trace: seq<Event>, e: Event, f: Event, r: Req)
    requires e.req == f.req
    ensures StatusOf(trace + [e, f], r)
         == if e.req == r then Advance(Advance(StatusOf(trace, r), e), f) else StatusOf(trace, r)
  {
    StatusAppend(trace, e, r);
    StatusAppend(trace + [e], f, r);
    assert trace + [e] + [f] == trace + [e, f];
  }
}
