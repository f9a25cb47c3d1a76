/** Every step keeps every request in exactly one place, and its trace in step with it. */
module EnginePlaces {
  import opened FdAccounting
  import opened Engine
  import opened EngineSafety

  ghost predicate SamePlaces(s: State, s': State) {
    && s'.place == s.place && s'.trace == s.trace
    && s'.queues.Keys == s.queues.Keys
    && (forall fd :: PendingOf(s', fd) == PendingOf(s, fd))
    && (forall t :: HandOf(s', t) == HandOf(s, t))
    && (forall q :: q in s.queues ==> s'.queues[q].ready == s.queues[q].ready)
  }

  lemma UnmovedPending(s: State, s': State)
    requires PendingAgrees(s) && SamePlaces(s, s')
    ensures PendingAgrees(s')
  {
    forall fd, r ensures Has(PendingOf(s', fd), r) <==> At(s', r, OnFd(fd)) {
      assert PendingOf(s', fd) == PendingOf(s, fd);
      assert Has(PendingOf(s, fd), r) <==> At(s, r, OnFd(fd));
    }
    forall fd ensures NoRepeats(PendingOf(s', fd)) {
      assert PendingOf(s', fd) == PendingOf(s, fd);
    }
  }

  lemma UnmovedHands(s: State, s': State)
    requires HandsAgree(s) && SamePlaces(s, s')
    ensures HandsAgree(s')
  {
    forall t, r, c ensures HandOf(s', t) == Some((r, c)) <==> At(s', r, InHand(t, c)) {
      assert HandOf(s', t) == HandOf(s, t);
      assert HandOf(s, t) == Some((r, c)) <==> At(s, r, InHand(t, c));
    }
  }

  lemma UnmovedReady(s: State, s': State)
    requires ReadyAgrees(s) && SamePlaces(s, s')
    ensures ReadyAgrees(s')
  {
    forall q, r, c | q in s'.queues ensures (r, c) in s'.queues[q].ready <==> At(s', r, OnQueue(c)) && r.queue == q {
      assert (r, c) in s.queues[q].ready <==> At(s, r, OnQueue(c)) && r.queue == q;
    }
  }

  lemma UnmovedTrace(s: State, s': State)
    requires Traced(s) && s'.place == s.place && s'.trace == s.trace
    ensures Traced(s')
  {
    forall r ensures StatusOf(s'.trace, r) == Expected(s', r) {
      assert StatusOf(s.trace, r) == Expected(s, r);
    }
  }

  lemma Unmoved(s: State, s': State)
    requires Places(s) && Traced(s) && SamePlaces(s, s')
    ensures Places(s') && Traced(s')
  {
    UnmovedPending(s, s');
    UnmovedHands(s, s');
    UnmovedReady(s, s');
    UnmovedTrace(s, s');
  }

  predicate Moves(s: State, a: Action)
    requires Enabled(s, a)
  {
    || a.StartIo? || a.Exec? || a.Cancel? || a.CloseNext? || a.WorkFinish? || a.PollTake? || a.EndPush?
    || (a.WaitFd? && GetReq(s.fds[a.fd].head, a.ready).Some?)
  }

  /** A thread inside yoi_req_end that moves on, other than to push, holds what it held. */
  lemma SameHand(s: State, s': State, u: Thread, next: Option<EndPc>, t: Thread)
    requires AtEnd(s, u, Before(next)) && EndMoved(s, s', u, next) && next != Some(Pushed)
    ensures HandOf(s', t) == HandOf(s, t)
  {
    assert EndMovesThread(s, s', u, next, t) && EndMovesThread(s, s', u, next, u);
  }

  lemma EndIsQuiet(s: State, s': State, u: Thread, next: Option<EndPc>)
    requires AtEnd(s, u, Before(next)) && EndMoved(s, s', u, next) && next != Some(Pushed)
    ensures SamePlaces(s, s')
  {
    forall t ensures HandOf(s', t) == HandOf(s, t) {
      SameHand(s, s', u, next, t);
    }
  }

  lemma QuietEnd(s: State, a: Action)
    requires Enabled(s, a) && EndStep(a) && !a.EndPush?
    ensures SamePlaces(s, Apply(s, a))
  {
    EndMoves(s, a);
    EndIsQuiet(s, Apply(s, a), a.t, NextPc(a));
  }

  predicate PollStep(a: Action) {
    a.PollBegin? || a.PollLock? || a.PollEmpty? || a.WaitTimeout? || a.WaitNotify? || a.DrainSome? || a.DrainDone?
  }

  /** A step of the poller that takes nothing. */
  predicate Polled(s: State, s': State) {
    && s' == s.(user := s'.user, queues := s'.queues)
    && !s.user.Ending? && !s'.user.Ending? && !s.user.Closing? && !s'.user.Closing?
    && s'.queues.Keys == s.queues.Keys
    && (forall q :: q in s.queues ==> s'.queues[q].ready == s.queues[q].ready)
  }

  lemma PolledIsQuiet(s: State, s': State)
    requires Polled(s, s')
    ensures SamePlaces(s, s')
  {
  }

  lemma LockPolls(s: State)
    requires Enabled(s, PollLock)
    ensures Polled(s, Apply(s, PollLock))
  {
  }

  lemma EmptyPolls(s: State)
    requires Enabled(s, PollEmpty)
    ensures Polled(s, Apply(s, PollEmpty))
  {
  }

  lemma DrainPolls(s: State)
    requires Enabled(s, DrainSome)
    ensures Polled(s, Apply(s, DrainSome))
  {
  }

  lemma PollFrame(s: State, a: Action)
    requires Enabled(s, a) && PollStep(a)
    ensures Polled(s, Apply(s, a))
  {
    match a
    case PollLock => LockPolls(s);
    case PollEmpty => EmptyPolls(s);
    case DrainSome => DrainPolls(s);
    case _ =>
  }

  lemma QuietPoll(s: State, a: Action)
    requires Enabled(s, a) && PollStep(a)
    ensures SamePlaces(s, Apply(s, a))
  {
    PollFrame(s, a);
    PolledIsQuiet(s, Apply(s, a));
  }

  lemma OpenIsQuiet(s: State, fd: nat)
    requires Counted(s) && Enabled(s, Open(fd))
    ensures SamePlaces(s, Apply(s, Open(fd)))
  {
  }

  lemma CloseIsQuiet(s: State, fd: nat)
    requires Enabled(s, BeginClose(fd))
    ensures SamePlaces(s, Apply(s, BeginClose(fd)))
  {
  }

  lemma QuietOther(s: State, a: Action)
    requires Counted(s) && Enabled(s, a) && !EndStep(a) && !Moves(s, a) && !PollStep(a)
    ensures SamePlaces(s, Apply(s, a))
  {
    match a
    case Open(fd) => OpenIsQuiet(s, fd);
    case BeginClose(fd) => CloseIsQuiet(s, fd);
    case CloseDone =>
    case WaitFd(_, _, _) => PolledIsQuiet(s, Apply(s, a));
  }

  // ---- One request moves ----

  /** The structures of `s'` differ from those of `s` by request `r` going to `to`. */
  ghost predicate MovedPending(s: State, s': State, r: Req, to: Option<Place>) {
    && (forall fd :: NoRepeats(PendingOf(s', fd)))
    && (forall fd, x :: Has(PendingOf(s', fd), x) <==>
          if x == r then to == Some(OnFd(fd)) else Has(PendingOf(s, fd), x))
  }

  ghost predicate MovedHands(s: State, s': State, r: Req, to: Option<Place>) {
    && (forall t :: HandOf(s', t) == NewHand(s, r, to, t))
    && (forall t, c :: to == Some(InHand(t, c)) ==> HandOf(s, t) == None || HandOf(s, t).value.0 == r)
  }

  ghost predicate MovedReady(s: State, s': State, r: Req, to: Option<Place>) {
    && s'.queues.Keys == s.queues.Keys && r.queue in s.queues
    && (forall q :: q in s.queues ==> Unrepeated(s'.queues[q].ready))
    && (forall q, x, c :: q in s.queues ==> ((x, c) in s'.queues[q].ready <==>
          if x == r then to == Some(OnQueue(c)) && r.queue == q else (x, c) in s.queues[q].ready))
  }

  function NewHand(s: State, r: Req, to: Option<Place>, t: Thread): Option<(Req, Option<Code>)> {
    if to.Some? && to.value.InHand? && to.value.t == t then Some((r, to.value.code))
    else if HandOf(s, t).Some? && HandOf(s, t).value.0 == r then None
    else HandOf(s, t)
  }

  predicate Relocated(s: State, s': State, r: Req, to: Option<Place>) {
    s'.place == if to.Some? then s.place[r := to.value] else s.place - {r}
  }

  lemma MovedKeepsHands(s: State, s': State, r: Req, to: Option<Place>)
    requires HandsAgree(s) && Relocated(s, s', r, to) && MovedHands(s, s', r, to)
    ensures HandsAgree(s')
  {
    forall t, x, c ensures HandOf(s', t) == Some((x, c)) <==> At(s', x, InHand(t, c)) {
      assert HandOf(s', t) == NewHand(s, r, to, t);
      assert HandOf(s, t) == Some((x, c)) <==> At(s, x, InHand(t, c));
    }
  }

  lemma MovedPlace(s: State, s': State, r: Req, to: Option<Place>, x: Req, p: Place)
    requires Relocated(s, s', r, to)
    ensures At(s', x, p) <==> if x == r then to == Some(p) else At(s, x, p)
  {
  }

  lemma MovedKeepsReady(s: State, s': State, r: Req, to: Option<Place>)
    requires ReadyAgrees(s) && Relocated(s, s', r, to) && MovedReady(s, s', r, to)
    ensures ReadyAgrees(s')
  {
    forall q, x, c | q in s'.queues ensures (x, c) in s'.queues[q].ready <==> At(s', x, OnQueue(c)) && x.queue == q {
      MovedPlace(s, s', r, to, x, OnQueue(c));
      assert (x, c) in s'.queues[q].ready <==>
        if x == r then to == Some(OnQueue(c)) && r.queue == q else (x, c) in s.queues[q].ready;
      assert (x, c) in s.queues[q].ready <==> At(s, x, OnQueue(c)) && x.queue == q;
    }
    assert forall x :: x in s'.place ==> x == r || x in s.place;
  }

  lemma MovedKeepsPlaces(s: State, s': State, r: Req, to: Option<Place>)
    requires Places(s) && Relocated(s, s', r, to)
    requires MovedPending(s, s', r, to) && MovedHands(s, s', r, to) && MovedReady(s, s', r, to)
    ensures Places(s')
  {
    forall fd, x ensures Has(PendingOf(s', fd), x) <==> At(s', x, OnFd(fd)) {
      assert Has(PendingOf(s, fd), x) <==> At(s, x, OnFd(fd));
    }
    MovedKeepsHands(s, s', r, to);
    MovedKeepsReady(s, s', r, to);
  }

  lemma PendingUntouched(s: State, s': State, r: Req, to: Option<Place>)
    requires PendingAgrees(s) && forall fd :: PendingOf(s', fd) == PendingOf(s, fd)
    requires (r in s.place ==> !s.place[r].OnFd?) && (to.Some? ==> !to.value.OnFd?)
    ensures MovedPending(s, s', r, to)
  {
  }

  /** Only the hand of `at` may differ. */
  lemma HandsUntouched(s: State, s': State, r: Req, to: Option<Place>, at: Thread)
    requires HandsAgree(s) && forall t :: t != at ==> HandOf(s', t) == HandOf(s, t)
    requires forall t, c :: At(s, r, InHand(t, c)) ==> t == at
    requires forall t, c :: to == Some(InHand(t, c)) ==> t == at
    requires HandOf(s', at) == NewHand(s, r, to, at)
    requires to.Some? && to.value.InHand? ==> HandOf(s, at) == None || HandOf(s, at).value.0 == r
    ensures MovedHands(s, s', r, to)
  {
  }

  lemma ReadyUntouched(s: State, s': State, r: Req, to: Option<Place>)
    requires ReadyAgrees(s) && s'.queues.Keys == s.queues.Keys && r.queue in s.queues
    requires forall q :: q in s.queues ==> s'.queues[q].ready == s.queues[q].ready
    requires (r in s.place ==> !s.place[r].OnQueue?) && (to.Some? ==> !to.value.OnQueue?)
    ensures MovedReady(s, s', r, to)
  {
  }

  /** ... and its trace gains the matching events. */
  lemma MovedKeepsTrace(s: State, s': State, r: Req, to: Option<Place>, events: seq<Event>)
    requires Traced(s) && Relocated(s, s', r, to)
    requires 1 <= |events| <= 2 && s'.trace == s.trace + events && forall e :: e in events ==> e.req == r
    requires Expected(s', r) == if |events| == 1 then Advance(Expected(s, r), events[0])
                                else Advance(Advance(Expected(s, r), events[0]), events[1])
    ensures Traced(s')
  {
    forall x ensures StatusOf(s'.trace, x) == Expected(s', x) {
      assert StatusOf(s.trace, x) == Expected(s, x) && StatusOf(s.trace, r) == Expected(s, r);
      if |events| == 1 {
        assert events == [events[0]];
        StatusAppend(s.trace, events[0], x);
      } else {
        assert events == [events[0], events[1]];
        StatusAppend2(s.trace, events[0], events[1], x);
      }
    }
  }

  /** What a step that hands `r` over, or lists it, changes outside the pending lists. */
  ghost predicate HandedOver(s: State, s': State, r: Req, to: Option<Place>, at: Thread, events: seq<Event>) {
    && Relocated(s, s', r, to) && s'.queues == s.queues
    && (forall t :: t != at ==> HandOf(s', t) == HandOf(s, t)) && HandOf(s', at) == NewHand(s, r, to, at)
    && s'.trace == s.trace + events && 1 <= |events| <= 2 && (forall e :: e in events ==> e.req == r)
    && Expected(s', r) == (if |events| == 1 then Advance(Expected(s, r), events[0])
                           else Advance(Advance(Expected(s, r), events[0]), events[1]))
  }

  lemma HandOverKeeps(s: State, s': State, r: Req, to: Option<Place>, at: Thread, events: seq<Event>)
    requires Places(s) && Traced(s) && HandedOver(s, s', r, to, at, events) && MovedPending(s, s', r, to)
    requires forall t, c :: At(s, r, InHand(t, c)) || to == Some(InHand(t, c)) ==> t == at
    requires to.Some? && to.value.InHand? ==> HandOf(s, at) == None || HandOf(s, at).value.0 == r
    requires (r in s.place ==> !s.place[r].OnQueue?) && (to.Some? ==> !to.value.OnQueue?) && r.queue in s.queues
    ensures Places(s') && Traced(s')
  {
    HandsUntouched(s, s', r, to, at);
    ReadyUntouched(s, s', r, to);
    MovedKeepsPlaces(s, s', r, to);
    MovedKeepsTrace(s, s', r, to, events);
  }

  lemma RefusalFacts(s: State, r: Req, fd: nat, kind: Kind, op: Code)
    requires Enabled(s, StartIo(r, fd, kind, EPERM, op))
    ensures var s' := Apply(s, StartIo(r, fd, kind, EPERM, op));
      && (forall f :: PendingOf(s', f) == PendingOf(s, f))
      && HandedOver(s, s', r, Some(InHand(User, Some(op))), User, [Started(r), Produced(r, op, FromOperation)])
  {
  }

  lemma StartFacts(s: State, r: Req, fd: nat, kind: Kind, op: Code)
    requires Enabled(s, StartIo(r, fd, kind, OK, op))
    ensures var s' := Apply(s, StartIo(r, fd, kind, OK, op));
      && (forall f :: PendingOf(s', f) == if f == fd then [(r, kind)] + s.fds[fd].head else PendingOf(s, f))
      && HandedOver(s, s', r, Some(OnFd(fd)), User, [Started(r)])
  {
  }

  lemma StartMoves(s: State, r: Req, fd: nat, kind: Kind, outcome: Code, op: Code)
    requires Places(s) && Traced(s) && Enabled(s, StartIo(r, fd, kind, outcome, op))
    ensures var s' := Apply(s, StartIo(r, fd, kind, outcome, op)); Places(s') && Traced(s')
  {
    var s' := Apply(s, StartIo(r, fd, kind, outcome, op));
    if outcome == EPERM {
      var to := Some(InHand(User, Some(op)));
      RefusalFacts(s, r, fd, kind, op);
      PendingUntouched(s, s', r, to);
      HandOverKeeps(s, s', r, to, User, [Started(r), Produced(r, op, FromOperation)]);
    } else {
      StartFacts(s, r, fd, kind, op);
      LinkedOn(s, s', r, fd, kind);
      HandOverKeeps(s, s', r, Some(OnFd(fd)), User, [Started(r)]);
    }
  }

  lemma LinkedOn(s: State, s': State, r: Req, fd: nat, kind: Kind)
    requires PendingAgrees(s) && fd in s.fds && r !in s.place
    requires forall f :: PendingOf(s', f) == if f == fd then [(r, kind)] + s.fds[fd].head else PendingOf(s, f)
    ensures MovedPending(s, s', r, Some(OnFd(fd)))
  {
    var head := s.fds[fd].head;
    var after := [(r, kind)] + head;
    assert after[1..] == head && PendingOf(s, fd) == head;
    assert !Has(PendingOf(s, fd), r) by { assert !At(s, r, OnFd(fd)); }
    NoRepeatsCons(after);
    forall f ensures NoRepeats(PendingOf(s', f)) {
      assert NoRepeats(PendingOf(s, f));
    }
    forall f, x ensures Has(PendingOf(s', f), x) <==>
        if x == r then OnFd(fd) == OnFd(f) else Has(PendingOf(s, f), x)
    {
      HasCons(after, x);
      assert Has(PendingOf(s, f), r) <==> At(s, r, OnFd(f));
    }
  }

  lemma ExecMoves(s: State, r: Req, w: nat)
    requires Places(s) && Traced(s) && Enabled(s, Exec(r, w))
    ensures Places(Apply(s, Exec(r, w))) && Traced(Apply(s, Exec(r, w)))
  {
    var s' := Apply(s, Exec(r, w));
    var to := Some(InHand(Worker(w), None));
    PendingUntouched(s, s', r, to);
    HandOverKeeps(s, s', r, to, Worker(w), [Started(r)]);
  }

  lemma Unlinked(s: State, s': State, fd: nat, r: Req, to: Option<Place>)
    requires PendingAgrees(s) && Has(PendingOf(s, fd), r) && (to.Some? ==> !to.value.OnFd?)
    requires forall f :: PendingOf(s', f) == if f == fd then Remove(PendingOf(s, fd), r) else PendingOf(s, f)
    ensures MovedPending(s, s', r, to)
  {
    var head := PendingOf(s, fd);
    RemoveNoRepeats(head, r);
    forall f ensures NoRepeats(PendingOf(s', f)) {
      assert NoRepeats(PendingOf(s, f));
    }
    forall f, x ensures Has(PendingOf(s', f), x) <==> if x == r then to == Some(OnFd(f)) else Has(PendingOf(s, f), x) {
      RemoveHas(head, r, x);
      assert Has(PendingOf(s, fd), r) && At(s, r, OnFd(fd));
      assert Has(PendingOf(s, f), r) ==> At(s, r, OnFd(f));
    }
  }

  lemma CancelFacts(s: State, r: Req, fd: nat)
    requires Enabled(s, Cancel(r, fd)) && At(s, r, OnFd(fd)) && CanStop(s.fds[fd], r)
    ensures var s' := Apply(s, Cancel(r, fd));
      && (forall f :: PendingOf(s', f) == if f == fd then Remove(PendingOf(s, fd), r) else PendingOf(s, f))
      && HandedOver(s, s', r, Some(InHand(User, Some(ECANCELED))), User, [Produced(r, ECANCELED, FromCancel)])
  {
  }

  lemma CancelMoves(s: State, r: Req, fd: nat)
    requires Places(s) && Traced(s) && Counted(s) && Enabled(s, Cancel(r, fd))
    ensures Places(Apply(s, Cancel(r, fd))) && Traced(Apply(s, Cancel(r, fd)))
  {
    var s' := Apply(s, Cancel(r, fd));
    var to := Some(InHand(User, Some(ECANCELED)));
    PendingQueueKnown(s, fd, r);
    PendingIsStoppable(s, fd, r);
    CancelFacts(s, r, fd);
    Unlinked(s, s', fd, r, to);
    HandOverKeeps(s, s', r, to, User, [Produced(r, ECANCELED, FromCancel)]);
  }

  lemma CloseFacts(s: State, r: Req, fd: nat)
    requires Enabled(s, CloseNext) && r == s.user.rest[0].0 && fd == s.user.fd && fd !in s.fds && At(s, r, OnFd(fd))
    ensures var s' := Apply(s, CloseNext);
      && (forall f :: PendingOf(s', f) == if f == fd then Remove(PendingOf(s, fd), r) else PendingOf(s, f))
      && HandedOver(s, s', r, Some(InHand(User, Some(ECANCELED))), User, [Produced(r, ECANCELED, FromClose)])
  {
  }

  lemma CloseMoves(s: State)
    requires Places(s) && Traced(s) && Shape(s) && Enabled(s, CloseNext)
    ensures Places(Apply(s, CloseNext)) && Traced(Apply(s, CloseNext))
  {
    var r, fd := s.user.rest[0].0, s.user.fd;
    var to := Some(InHand(User, Some(ECANCELED)));
    assert PendingOf(s, fd) == s.user.rest && Has(PendingOf(s, fd), r);
    PendingQueueKnown(s, fd, r);
    CloseFacts(s, r, fd);
    Unlinked(s, Apply(s, CloseNext), fd, r, to);
    HandOverKeeps(s, Apply(s, CloseNext), r, to, User, [Produced(r, ECANCELED, FromClose)]);
  }

  lemma ReportFacts(s: State, fd: nat, ready: Mask, op: Code, r: Req)
    requires Enabled(s, WaitFd(fd, ready, op)) && GetReq(s.fds[fd].head, ready) == Some(r)
    requires At(s, r, OnFd(fd)) && CanStop(s.fds[fd], r)
    ensures var s' := Apply(s, WaitFd(fd, ready, op));
      HandedOver(s, s', r, None, User, [Produced(r, op, FromOperation), Delivered(r, op)])
  {
  }

  lemma ReportUnlinks(s: State, fd: nat, ready: Mask, op: Code, r: Req)
    requires Enabled(s, WaitFd(fd, ready, op)) && GetReq(s.fds[fd].head, ready) == Some(r) && CanStop(s.fds[fd], r)
    ensures var s' := Apply(s, WaitFd(fd, ready, op));
      forall f :: PendingOf(s', f) == if f == fd then Remove(PendingOf(s, fd), r) else PendingOf(s, f)
  {
  }

  lemma ReportMoves(s: State, fd: nat, ready: Mask, op: Code)
    requires Places(s) && Traced(s) && Counted(s)
    requires Enabled(s, WaitFd(fd, ready, op)) && GetReq(s.fds[fd].head, ready).Some?
    ensures Places(Apply(s, WaitFd(fd, ready, op))) && Traced(Apply(s, WaitFd(fd, ready, op)))
  {
    var s' := Apply(s, WaitFd(fd, ready, op));
    var r := GetReq(s.fds[fd].head, ready).value;
    GetReqHas(s, fd, ready);
    PendingIsStoppable(s, fd, r);
    PendingQueueKnown(s, fd, r);
    ReportUnlinks(s, fd, ready, op, r);
    ReportFacts(s, fd, ready, op, r);
    Unlinked(s, s', fd, r, None);
    HandOverKeeps(s, s', r, None, User, [Produced(r, op, FromOperation), Delivered(r, op)]);
  }

  lemma WorkMoves(s: State, w: nat, code: Code)
    requires Places(s) && Traced(s) && Enabled(s, WorkFinish(w, code))
    ensures Places(Apply(s, WorkFinish(w, code))) && Traced(Apply(s, WorkFinish(w, code)))
  {
    var s' := Apply(s, WorkFinish(w, code));
    var r := s.workers[w].req;
    var to := Some(InHand(Worker(w), Some(code)));
    assert HandOf(s, Worker(w)) == Some((r, None)) && At(s, r, InHand(Worker(w), None));
    PendingUntouched(s, s', r, to);
    HandOverKeeps(s, s', r, to, Worker(w), [Produced(r, code, FromOperation)]);
  }

  lemma ReadyTail(ready: seq<(Req, Code)>)
    requires ready != [] && Unrepeated(ready)
    ensures Unrepeated(ready[1..])
    ensures forall x, c :: (x, c) in ready[1..] <==> (x, c) in ready && x != ready[0].0
  {
  }

  lemma ReadyCons(r: Req, code: Code, ready: seq<(Req, Code)>)
    requires Unrepeated(ready) && forall i :: 0 <= i < |ready| ==> ready[i].0 != r
    ensures Unrepeated([(r, code)] + ready)
    ensures forall x, c :: (x, c) in [(r, code)] + ready <==> (x, c) == (r, code) || (x, c) in ready
  {
  }

  lemma PoppedReady(s: State, s': State, q: nat)
    requires ReadyAgrees(s) && q in s.queues && s.queues[q].ready != []
    requires q in s'.queues && s'.queues == s.queues[q := s'.queues[q]] && s'.queues[q].ready == s.queues[q].ready[1..]
    ensures MovedReady(s, s', s.queues[q].ready[0].0, None)
    ensures At(s, s.queues[q].ready[0].0, OnQueue(s.queues[q].ready[0].1))
  {
    var ready := s.queues[q].ready;
    var (r, code) := ready[0];
    ReadyTail(ready);
    assert (r, code) in s.queues[q].ready;
    forall p, x, c | p in s.queues ensures (x, c) in s'.queues[p].ready <==> x != r && (x, c) in s.queues[p].ready {
      assert (r, c) in s.queues[p].ready ==> At(s, r, OnQueue(c)) && r.queue == p;
    }
  }

  lemma TakeMoves(s: State)
    requires Places(s) && Traced(s) && Enabled(s, PollTake)
    ensures Places(Apply(s, PollTake)) && Traced(Apply(s, PollTake))
  {
    TakePlaces(s);
    var (r, code) := s.queues[s.user.q].ready[0];
    TakeTrace(s, Apply(s, PollTake), r, code);
  }

  lemma TakeTrace(s: State, s': State, r: Req, code: Code)
    requires Traced(s) && At(s, r, OnQueue(code))
    requires s'.place == s.place - {r} && s'.trace == s.trace + [Delivered(r, code)]
    ensures Traced(s')
  {
    MovedKeepsTrace(s, s', r, None, [Delivered(r, code)]);
  }

  lemma TakeFrame(s: State)
    requires Enabled(s, PollTake)
    ensures var s' := Apply(s, PollTake); var q := s.user.q;
      && (forall fd :: PendingOf(s', fd) == PendingOf(s, fd))
      && (forall t :: HandOf(s', t) == HandOf(s, t))
      && s'.queues == s.queues[q := s'.queues[q]] && s'.queues[q].ready == s.queues[q].ready[1..]
      && Relocated(s, s', s.queues[q].ready[0].0, None)
  {
  }

  /** A step at a ready list: the request goes to it or leaves it. */
  lemma ReadyMoves(s: State, s': State, r: Req, to: Option<Place>, at: Thread)
    requires Places(s) && Relocated(s, s', r, to) && MovedReady(s, s', r, to)
    requires forall fd :: PendingOf(s', fd) == PendingOf(s, fd)
    requires forall t :: t != at ==> HandOf(s', t) == HandOf(s, t)
    requires HandOf(s', at) == NewHand(s, r, to, at)
    requires r in s.place && !s.place[r].OnFd? && (to.Some? ==> to.value.OnQueue?)
    requires forall t, c :: At(s, r, InHand(t, c)) ==> t == at
    ensures Places(s')
  {
    PendingUntouched(s, s', r, to);
    HandsUntouched(s, s', r, to, at);
    MovedKeepsPlaces(s, s', r, to);
  }

  lemma Taken(s: State, s': State, q: nat)
    requires Places(s) && q in s.queues && s.queues[q].ready != [] && HandOf(s, User) == None
    requires forall fd :: PendingOf(s', fd) == PendingOf(s, fd)
    requires forall t :: HandOf(s', t) == HandOf(s, t)
    requires q in s'.queues && s'.queues == s.queues[q := s'.queues[q]]
    requires s'.queues[q].ready == s.queues[q].ready[1..] && Relocated(s, s', s.queues[q].ready[0].0, None)
    ensures Places(s') && At(s, s.queues[q].ready[0].0, OnQueue(s.queues[q].ready[0].1))
  {
    PoppedReady(s, s', q);
    ReadyMoves(s, s', s.queues[q].ready[0].0, None, User);
  }

  lemma TakePlaces(s: State)
    requires Places(s) && Enabled(s, PollTake)
    ensures Places(Apply(s, PollTake))
    ensures var (r, code) := s.queues[s.user.q].ready[0]; At(s, r, OnQueue(code))
  {
    TakeFrame(s);
    Taken(s, Apply(s, PollTake), s.user.q);
  }

  lemma PushedReady(s: State, s': State, r: Req, code: Code)
    requires ReadyAgrees(s) && r in s.place && !s.place[r].OnQueue?
    requires r.queue in s.queues && r.queue in s'.queues && s'.queues == s.queues[r.queue := s'.queues[r.queue]]
    requires s'.queues[r.queue].ready == [(r, code)] + s.queues[r.queue].ready
    ensures MovedReady(s, s', r, Some(OnQueue(code)))
  {
    forall p, c | p in s.queues ensures (r, c) !in s.queues[p].ready {
      assert (r, c) in s.queues[p].ready ==> At(s, r, OnQueue(c));
    }
    forall i | 0 <= i < |s.queues[r.queue].ready| ensures s.queues[r.queue].ready[i].0 != r {
      var e := s.queues[r.queue].ready[i];
      assert (e.0, e.1) in s.queues[r.queue].ready;
    }
    ReadyCons(r, code, s.queues[r.queue].ready);
  }

  lemma PushMoves(s: State, t: Thread)
    requires Places(s) && Traced(s) && Enabled(s, EndPush(t))
    ensures Places(Apply(s, EndPush(t))) && Traced(Apply(s, EndPush(t)))
  {
    PushPlaces(s, t);
    PushTrace(s, Apply(s, EndPush(t)), t);
  }

  lemma PushTrace(s: State, s': State, t: Thread)
    requires Traced(s) && EndOf(s, t).Some?
    requires var (r, code, _) := EndOf(s, t).value;
      At(s, r, InHand(t, Some(code))) && s'.trace == s.trace && s'.place == s.place[r := OnQueue(code)]
    ensures Traced(s')
  {
  }

  lemma PushHands(s: State, t: Thread)
    requires Enabled(s, EndPush(t))
    ensures var s' := Apply(s, EndPush(t)); var (r, code, _) := EndOf(s, t).value;
      && HandOf(s, t) == Some((r, Some(code)))
      && (forall u :: HandOf(s', u) == if u == t then None else HandOf(s, u))
      && (forall fd :: PendingOf(s', fd) == PendingOf(s, fd))
      && Relocated(s, s', r, Some(OnQueue(code)))
  {
    PushMovesUp(s, t);
    forall u ensures HandOf(Apply(s, EndPush(t)), u) == if u == t then None else HandOf(s, u) {
      assert EndMovesThread(s, Apply(s, EndPush(t)), t, Some(Pushed), u);
    }
  }

  lemma PushQueue(s: State, t: Thread)
    requires Enabled(s, EndPush(t))
    ensures var s' := Apply(s, EndPush(t)); var (r, code, _) := EndOf(s, t).value;
      && r.queue in s.queues && r.queue in s'.queues
      && s'.queues == s.queues[r.queue := s'.queues[r.queue]]
      && s'.queues[r.queue].ready == [(r, code)] + s.queues[r.queue].ready
  {
  }

  lemma PushedOn(s: State, s': State, t: Thread, r: Req, code: Code)
    requires Places(s) && HandOf(s, t) == Some((r, Some(code))) && Relocated(s, s', r, Some(OnQueue(code)))
    requires forall u :: HandOf(s', u) == if u == t then None else HandOf(s, u)
    requires forall fd :: PendingOf(s', fd) == PendingOf(s, fd)
    requires r.queue in s.queues && r.queue in s'.queues && s'.queues == s.queues[r.queue := s'.queues[r.queue]]
    requires s'.queues[r.queue].ready == [(r, code)] + s.queues[r.queue].ready
    ensures Places(s') && At(s, r, InHand(t, Some(code)))
  {
    assert At(s, r, InHand(t, Some(code)));
    PushedReady(s, s', r, code);
    ReadyMoves(s, s', r, Some(OnQueue(code)), t);
  }

  lemma PushPlaces(s: State, t: Thread)
    requires Places(s) && Enabled(s, EndPush(t))
    ensures Places(Apply(s, EndPush(t)))
    ensures var (r, code, _) := EndOf(s, t).value; At(s, r, InHand(t, Some(code)))
  {
    PushHands(s, t);
    PushQueue(s, t);
    PushedOn(s, Apply(s, EndPush(t)), t, EndOf(s, t).value.0, EndOf(s, t).value.1);
  }
}
