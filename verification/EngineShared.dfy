/** Descriptors used from several queues.  Counters are kept per descriptor and masks per queue:
    a stop brings the mask of its own queue up to date and leaves those of the others. */
module EngineShared {
  import opened FdAccounting
  import opened Engine
  import opened EngineTheorems
  import opened EngineMasks

  /** The poller of `q` finds a request behind every report of a clean descriptor if and only if
      what `q` has registered is still within the interest of the descriptor. */
  lemma ReportFindsIff(s: State, fd: nat, q: nat)
    requires Reachable(s) && fd in s.fds && Clean(s, fd) && (q, fd) in s.reg
    ensures (forall ready :: Reportable(s.reg[(q, fd)], ready) ==> GetReq(s.fds[fd].head, ready).Some?)
      <==> Within(s.reg[(q, fd)], s.fds[fd].Interest())
  {
    ReachableInv(s);
    assert Accounted(s.fds[fd], 0, 0);
    AnsweredIff(s.fds[fd].head, s.reg[(q, fd)]);
  }

  // ---- A poll loop that spins ----

  const FIRST := Req(0, 0)
  const SECOND := Req(1, 1)

  /** Two idle queues, and descriptor 0 with what is pending on it. */
  predicate Stage(s: State, st: FdState<Req>, reg: map<(nat, nat), Mask>, user: UserPc) {
    && s.fds == map[0 := st] && s.reg == reg && s.user == user && Clean(s, 0) && s.workers == map[]
    && s.queues == map[0 := QueueState([], 0, None), 1 := QueueState([], 0, None)]
  }

  lemma Opened() returns (s: State)
    ensures Reachable(s) && Stage(s, Empty(), map[], Idle) && s.place == map[]
  {
    var queues := map[0 := QueueState([], 0, None), 1 := QueueState([], 0, None)];
    s := State(1, map[], map[], queues, Idle, map[], map[], map[], []);
    assert Init(s) && Follows(s, []) && Run(s, []) == s;
    ReachableStep(s, Open(0));
    s := Apply(s, Open(0));
  }

  lemma ReadStarts(s: State, st: FdState<Req>, reg: map<(nat, nat), Mask>, r: Req)
    requires Stage(s, st, reg, Idle) && r !in s.place && r.queue in s.queues
    ensures Enabled(s, StartIo(r, 0, Read, OK, OK))
    ensures var s' := Apply(s, StartIo(r, 0, Read, OK, OK));
      && s'.place.Keys == s.place.Keys + {r}
      && Stage(s', FdState([(r, Read)] + st.head, st.readN + 1, st.writeN),
               reg[(r.queue, 0) := Mask(true, st.writeN != 0)], Idle)
  {
    var st' := Start(st, r, Read, OK);
    assert st' == FdState([(r, Read)] + st.head, st.readN + 1, st.writeN);
    assert st'.Interest() == Mask(true, st.writeN != 0);
  }

  lemma ReadStarted(s: State, st: FdState<Req>, reg: map<(nat, nat), Mask>, r: Req) returns (s': State)
    requires Reachable(s) && Stage(s, st, reg, Idle) && r !in s.place && r.queue in s.queues
    ensures Reachable(s') && s'.place.Keys == s.place.Keys + {r}
    ensures Stage(s', FdState([(r, Read)] + st.head, st.readN + 1, st.writeN),
                  reg[(r.queue, 0) := Mask(true, st.writeN != 0)], Idle)
  {
    ReadStarts(s, st, reg, r);
    ReachableStep(s, StartIo(r, 0, Read, OK, OK));
    s' := Apply(s, StartIo(r, 0, Read, OK, OK));
  }

  /** A pop that finds nothing changes nothing. */
  lemma PopFindsNothing(s: State, q: nat)
    requires s.user == PollTop(q) && q in s.queues && s.queues[q].owner == None && s.queues[q].ready == []
    ensures Enabled(s, PollLock) && Enabled(Apply(s, PollLock), PollEmpty)
    ensures Apply(Apply(s, PollLock), PollEmpty) == s.(user := Waiting(q))
  {
    var locked := s.queues[q].(owner := Some(User));
    assert s.queues[q := locked][q := locked.(owner := None)] == s.queues;
  }

  lemma PollerWaits(s: State, st: FdState<Req>, reg: map<(nat, nat), Mask>, q: nat) returns (s': State)
    requires Reachable(s) && Stage(s, st, reg, Idle) && q in s.queues
    ensures Reachable(s') && s' == s.(user := Waiting(q))
  {
    ReachableStep(s, PollBegin(q));
    var top := Apply(s, PollBegin(q));
    PopFindsNothing(top, q);
    ReachableStep(top, PollLock);
    ReachableStep(Apply(top, PollLock), PollEmpty);
    s' := s.(user := Waiting(q));
  }

  lemma ReadDelivers(s: State, r: Req, rest: seq<(Req, Kind)>, reg: map<(nat, nat), Mask>, q: nat)
    requires Stage(s, FdState([(r, Read)] + rest, |rest| + 1, 0), reg, Waiting(q)) && (q, 0) in reg
    requires reg[(q, 0)] == READABLE
    ensures Enabled(s, WaitFd(0, READABLE, OK))
    ensures Stage(Apply(s, WaitFd(0, READABLE, OK)), FdState(rest, |rest|, 0),
                  if rest == [] then reg - {(r.queue, 0)} else reg[(r.queue, 0) := READABLE], Idle)
  {
    var st := FdState([(r, Read)] + rest, |rest| + 1, 0);
    assert GetReq(st.head, READABLE) == Some(r);
    assert st.head[1..] == rest;
    assert Stop(st, r) == FdState(rest, |rest|, 0);
  }

  /** One call of the poller of `q` delivers the newest read, whichever queue it belongs to. */
  lemma ReadIsDelivered(s: State, r: Req, rest: seq<(Req, Kind)>, reg: map<(nat, nat), Mask>, q: nat)
    returns (s': State)
    requires Reachable(s) && Stage(s, FdState([(r, Read)] + rest, |rest| + 1, 0), reg, Idle) && (q, 0) in reg
    requires reg[(q, 0)] == READABLE && q in s.queues
    ensures Reachable(s')
    ensures Stage(s', FdState(rest, |rest|, 0),
                  if rest == [] then reg - {(r.queue, 0)} else reg[(r.queue, 0) := READABLE], Idle)
  {
    s' := PollerWaits(s, FdState([(r, Read)] + rest, |rest| + 1, 0), reg, q);
    ReadDelivers(s', r, rest, reg, q);
    ReachableStep(s', WaitFd(0, READABLE, OK));
    s' := Apply(s', WaitFd(0, READABLE, OK));
  }

  /** Two reads on one descriptor, started from two queues ... */
  lemma BothStarted() returns (s: State)
    ensures Reachable(s)
    ensures Stage(s, FdState([(SECOND, Read)] + [(FIRST, Read)], 2, 0),
                  map[(0, 0) := READABLE, (1, 0) := READABLE], Idle)
  {
    s := Opened();
    s := ReadStarted(s, Empty(), map[], FIRST);
    assert [(FIRST, Read)] + [] == [(FIRST, Read)];
    s := ReadStarted(s, FdState([(FIRST, Read)], 1, 0), map[(0, 0) := READABLE], SECOND);
  }

  /** ... and both delivered to pollers of the first. */
  lemma BothDelivered(s: State, reg: map<(nat, nat), Mask>) returns (s': State)
    requires Reachable(s) && Stage(s, FdState([(SECOND, Read)] + [(FIRST, Read)], 2, 0), reg, Idle)
    requires (0, 0) in reg && reg[(0, 0)] == READABLE && (1, 0) in reg && reg[(1, 0)] == READABLE
    ensures Reachable(s') && Stage(s', FdState([], 0, 0), reg - {(0, 0)}, Idle)
  {
    s' := ReadIsDelivered(s, SECOND, [(FIRST, Read)], reg, 0);
    assert reg[(1, 0) := READABLE] == reg && [(FIRST, Read)] + [] == [(FIRST, Read)];
    s' := ReadIsDelivered(s', FIRST, [], reg, 0);
  }

  /** Nothing is pending any more, but the second queue still has the descriptor registered:
      its poller goes round for as long as there is something to read. */
  lemma SharedDescriptorSpins() returns (s: State)
    ensures Reachable(s) && Clean(s, 0) && s.user == Waiting(1) && Enabled(s, WaitFd(0, READABLE, OK))
    ensures Follows(s, [WaitFd(0, READABLE, OK), PollLock, PollEmpty])
    ensures Run(s, [WaitFd(0, READABLE, OK), PollLock, PollEmpty]) == s
  {
    s := BothStarted();
    var reg := map[(0, 0) := READABLE, (1, 0) := READABLE];
    s := BothDelivered(s, reg);
    s := PollerWaits(s, FdState([], 0, 0), reg - {(0, 0)}, 1);
    GoesRound(s, reg - {(0, 0)});
  }

  lemma GoesRound(s: State, reg: map<(nat, nat), Mask>)
    requires Stage(s, FdState([], 0, 0), reg, Waiting(1)) && (1, 0) in reg && reg[(1, 0)] == READABLE
    ensures Enabled(s, WaitFd(0, READABLE, OK)) && Follows(s, [WaitFd(0, READABLE, OK), PollLock, PollEmpty])
    ensures Run(s, [WaitFd(0, READABLE, OK), PollLock, PollEmpty]) == s
  {
    var top := Apply(s, WaitFd(0, READABLE, OK));
    assert top == s.(user := PollTop(1));
    PopFindsNothing(top, 1);
    ThreeSteps(s, WaitFd(0, READABLE, OK), PollLock, PollEmpty);
  }

  lemma ThreeSteps(s: State, a: Action, b: Action, c: Action)
    requires Enabled(s, a) && Enabled(Apply(s, a), b) && Enabled(Apply(Apply(s, a), b), c)
    ensures Follows(s, [a, b, c]) && Run(s, [a, b, c]) == Apply(Apply(Apply(s, a), b), c)
  {
    var s1 := Apply(s, a);
    var s2 := Apply(s1, b);
    assert [a, b, c][1..] == [b, c] && [b, c][1..] == [c] && [c][1..] == [];
    assert Follows(s2, [c]) && Run(s2, [c]) == Apply(s2, c);
    assert Follows(s1, [b, c]) && Run(s1, [b, c]) == Run(s2, [c]);
  }
}
