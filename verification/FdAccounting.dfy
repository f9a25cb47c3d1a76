/** The bookkeeping one descriptor carries for its pending requests
    (src/unix/pollish.c): the list in `head`, the two counters, and the interest mask
    computed from the counters.  `R` is whatever names a request: a heap node in
    Requests, an identifier in Engine. */
module FdAccounting {

  type Code = int
  const OK: Code := 0
  const ECANCELED: Code := -2
  const ETIMEOUT: Code := -3
  const EPERM: Code := -5

  datatype Option<+T> = None | Some(value: T)

  datatype Kind = Read | Write | PRead | PWrite | Accept

  /** yoi_pl_evn_mask_t, one field per bit. */
  datatype Mask = Mask(readable: bool, writable: bool)
  const NOTHING := Mask(false, false)
  const BOTH := Mask(true, true)

  /** _yoi_pl_tomask */
  function ToMask(k: Kind): Mask {
    match k
    case Read | PRead | Accept => Mask(true, false)
    case Write | PWrite => Mask(false, true)
  }

  // ---- What the requests do ----

  /** The operations a program can ask for on a descriptor. */
  datatype Operation = ReadStream | WriteStream | ReadFile | WriteFile | AcceptClient

  /** The kind the yoa_ entry point of an operation puts into the request. */
  function KindOf(c: Operation): Kind {
    match c
    case ReadStream => Read
    case WriteStream => Write
    case ReadFile => PRead
    case WriteFile => PWrite
    case AcceptClient => Accept
  }

  /** _yoi_pl_req_do */
  function Performs(k: Kind): Operation {
    match k
    case Read => ReadStream
    case Write => WriteStream
    case PRead => ReadFile
    case PWrite => WriteFile
    case Accept => AcceptClient
  }

  /** The operation takes something the descriptor has received; any other needs room for output. */
  predicate TakesInput(c: Operation) {
    c.ReadStream? || c.ReadFile? || c.AcceptClient?
  }

  /** A descriptor in this condition lets the operation proceed. */
  predicate Proceeds(c: Operation, ready: Mask) {
    if TakesInput(c) then ready.readable else ready.writable
  }

  /** What is performed is what was asked for. */
  lemma PerformsWhatWasAsked(c: Operation)
    ensures Performs(KindOf(c)) == c
  {
  }

  /** A report concerns a kind of request exactly when it lets the request's operation proceed. */
  lemma ServesIff(k: Kind, ready: Mask)
    ensures Overlaps(ToMask(k), ready) <==> Proceeds(Performs(k), ready)
  {
  }

  /** Somebody in the list waits to take input, or for room for output. */
  ghost predicate Waits<R>(head: seq<(R, Kind)>, input: bool) {
    exists i :: 0 <= i < |head| && TakesInput(Performs(head[i].1)) == input
  }

  /** The mask has exactly the sides somebody in the list waits for. */
  ghost predicate IsAwaited<R>(mask: Mask, head: seq<(R, Kind)>) {
    (mask.readable <==> Waits(head, true)) && (mask.writable <==> Waits(head, false))
  }

  /** A non-zero bitwise `a & b`. */
  predicate Overlaps(a: Mask, b: Mask) {
    (a.readable && b.readable) || (a.writable && b.writable)
  }

  predicate Within(a: Mask, b: Mask) {
    (a.readable ==> b.readable) && (a.writable ==> b.writable)
  }

  /** yoi_pl_impl_setmask as its header promises it (src/unix/pollish.h:59-62): mask 0 removes
      the registration, any other mask inserts or replaces it. */
  function Registered<K(==), V>(m: map<K, V>, key: K, mask: Mask, value: V): map<K, V> {
    if mask == NOTHING then m - {key} else m[key := value]
  }

  datatype FdState<R> = FdState(head: seq<(R, Kind)>, readN: nat, writeN: nat) {
    /** The mask both _yoi_pl_req_start and _yoi_pl_req_stop hand to the kernel. */
    function Interest(): Mask {
      Mask(readN != 0, writeN != 0)
    }
  }

  function Empty<R>(): FdState<R> {
    FdState([], 0, 0)
  }

  function Bump<R>(st: FdState<R>, k: Kind): FdState<R> {
    if ToMask(k).readable then st.(readN := st.readN + 1) else st.(writeN := st.writeN + 1)
  }

  /** _yoi_pl_req_start: count, register, and link unless the registration said EPERM. */
  function Start<R>(st: FdState<R>, r: R, k: Kind, code: Code): FdState<R> {
    var counted := Bump(st, k);
    if code == EPERM then counted else counted.(head := [(r, k)] + counted.head)
  }

  predicate Has<R(==)>(head: seq<(R, Kind)>, r: R) {
    exists i :: 0 <= i < |head| && head[i].0 == r
  }

  ghost predicate NoRepeats<R>(head: seq<(R, Kind)>) {
    forall i, j :: 0 <= i < j < |head| ==> head[i].0 != head[j].0
  }

  /** The entry of `r`, and the list without it. */
  function KindIn<R(==)>(head: seq<(R, Kind)>, r: R): Kind
    requires Has(head, r)
  {
    if head[0].0 == r then head[0].1 else KindIn(head[1..], r)
  }

  function Remove<R(==)>(head: seq<(R, Kind)>, r: R): seq<(R, Kind)> {
    if head == [] then [] else if head[0].0 == r then head[1..] else [head[0]] + Remove(head[1..], r)
  }

  function Count<R>(head: seq<(R, Kind)>, bit: Mask): nat {
    if head == [] then 0 else (if Overlaps(ToMask(head[0].1), bit) then 1 else 0) + Count(head[1..], bit)
  }

  const READABLE := Mask(true, false)
  const WRITABLE := Mask(false, true)

  /** Counters relative to the list: `r` and `w` starts were counted but never linked. */
  ghost predicate Accounted<R>(st: FdState<R>, r: nat, w: nat) {
    && NoRepeats(st.head)
    && st.readN == Count(st.head, READABLE) + r
    && st.writeN == Count(st.head, WRITABLE) + w
  }

  ghost predicate Exact<R>(st: FdState<R>) {
    Accounted(st, 0, 0)
  }

  /** _yoi_pl_req_stop needs a positive counter: `unsigned` arithmetic would wrap. */
  predicate CanStop<R(==)>(st: FdState<R>, r: R) {
    Has(st.head, r) && (if ToMask(KindIn(st.head, r)).readable then st.readN > 0 else st.writeN > 0)
  }

  function Stop<R(==)>(st: FdState<R>, r: R): FdState<R>
    requires CanStop(st, r)
  {
    var rest := Remove(st.head, r);
    if ToMask(KindIn(st.head, r)).readable
    then FdState(rest, st.readN - 1, st.writeN)
    else FdState(rest, st.readN, st.writeN - 1)
  }

  /** _yoi_pl_get_req: the first request in list order that the event can serve. */
  function GetReq<R>(head: seq<(R, Kind)>, ready: Mask): Option<R> {
    if head == [] then None
    else if Overlaps(ToMask(head[0].1), ready) then Some(head[0].0)
    else GetReq(head[1..], ready)
  }

  lemma {:induction false} RemoveCounts<R>(head: seq<(R, Kind)>, r: R, bit: Mask)
    requires Has(head, r)
    ensures Count(head, bit) == Count(Remove(head, r), bit) + (if Overlaps(ToMask(KindIn(head, r)), bit) then 1 else 0)
  {
    if head[0].0 != r {
      HasTail(head, r);
      RemoveCounts(head[1..], r, bit);
      assert ([head[0]] + Remove(head[1..], r))[1..] == Remove(head[1..], r);
    }
  }

  lemma HasTail<R>(head: seq<(R, Kind)>, r: R)
    requires Has(head, r) && head[0].0 != r
    ensures Has(head[1..], r)
  {
  }

  /** Removal takes out exactly one entry and keeps the order of the rest. */
  lemma {:induction false} RemoveAt<R>(head: seq<(R, Kind)>, k: nat)
    requires NoRepeats(head) && k < |head|
    ensures Remove(head, head[k].0) == head[..k] + head[k+1..]
    ensures Has(head, head[k].0) && KindIn(head, head[k].0) == head[k].1
  {
    if k > 0 {
      RemoveAt(head[1..], k - 1);
      assert head[1..][..k-1] == head[1..k] && head[1..][k..] == head[k+1..];
      assert head[..k] == [head[0]] + head[1..k];
      assert head[1..][k-1] == head[k];
      assert Has(head, head[k].0);
    }
  }

  lemma HasCons<R>(head: seq<(R, Kind)>, q: R)
    requires head != []
    ensures Has(head, q) <==> head[0].0 == q || Has(head[1..], q)
  {
  }

  lemma NoRepeatsCons<R>(head: seq<(R, Kind)>)
    requires head != []
    ensures NoRepeats(head) <==> !Has(head[1..], head[0].0) && NoRepeats(head[1..])
  {
  }

  lemma {:induction false} RemoveHas<R>(head: seq<(R, Kind)>, r: R, q: R)
    requires NoRepeats(head)
    ensures Has(Remove(head, r), q) <==> Has(head, q) && q != r
  {
    if head != [] {
      HasCons(head, q);
      NoRepeatsCons(head);
      if head[0].0 != r {
        RemoveHas(head[1..], r, q);
        var after := [head[0]] + Remove(head[1..], r);
        HasCons(after, q);
        assert after[1..] == Remove(head[1..], r);
      }
    }
  }

  lemma {:induction false} RemoveNoRepeats<R>(head: seq<(R, Kind)>, r: R)
    requires NoRepeats(head)
    ensures NoRepeats(Remove(head, r))
  {
    if head != [] {
      NoRepeatsCons(head);
      if head[0].0 != r {
        RemoveNoRepeats(head[1..], r);
        RemoveHas(head[1..], r, head[0].0);
        var after := [head[0]] + Remove(head[1..], r);
        assert after[1..] == Remove(head[1..], r);
        NoRepeatsCons(after);
      }
    }
  }

  /** The counters never underflow: a pending request was counted. */
  lemma PendingCanStop<R>(st: FdState<R>, r: R, epermR: nat, epermW: nat)
    requires Accounted(st, epermR, epermW) && Has(st.head, r)
    ensures CanStop(st, r)
  {
    RemoveCounts(st.head, r, READABLE);
    RemoveCounts(st.head, r, WRITABLE);
  }

  /** Counter = pending requests of that direction + starts that ended with EPERM.
      The second term is the one the EPERM path forgets to take back. */
  lemma StartAccounts<R>(st: FdState<R>, r: R, k: Kind, code: Code, epermR: nat, epermW: nat)
    requires Accounted(st, epermR, epermW) && !Has(st.head, r)
    ensures var miss := if code == EPERM then 1 else 0;
      Accounted(Start(st, r, k, code),
                epermR + (if ToMask(k).readable then miss else 0),
                epermW + (if ToMask(k).writable then miss else 0))
  {
  }

  /** A start keeps exact counters exact if and only if the registration is not refused
      with EPERM. */
  lemma StartKeepsExactIff<R>(st: FdState<R>, r: R, k: Kind, code: Code)
    requires Exact(st) && !Has(st.head, r)
    ensures Exact(Start(st, r, k, code)) <==> code != EPERM
  {
    StartAccounts(st, r, k, code, 0, 0);
  }

  lemma StopAccounts<R>(st: FdState<R>, r: R, epermR: nat, epermW: nat)
    requires Accounted(st, epermR, epermW) && Has(st.head, r)
    ensures CanStop(st, r) && Accounted(Stop(st, r), epermR, epermW)
  {
    PendingCanStop(st, r, epermR, epermW);
    RemoveCounts(st.head, r, READABLE);
    RemoveCounts(st.head, r, WRITABLE);
    RemoveNoRepeats(st.head, r);
  }

  /** Stopping a request that was just started gives back the state before. */
  lemma StopUndoesStart<R>(st: FdState<R>, r: R, k: Kind)
    requires !Has(st.head, r)
    ensures var st' := Start(st, r, k, OK); CanStop(st', r) && Stop(st', r) == st
  {
    var st' := Start(st, r, k, OK);
    assert st'.head[0].0 == r && st'.head[1..] == st.head;
  }

  /** The search returns the first request whose operation the report lets proceed, and gives up
      only when there is none. */
  lemma {:induction false} GetReqIsFirst<R>(head: seq<(R, Kind)>, ready: Mask)
    ensures match GetReq(head, ready)
      case Some(r) => exists k :: 0 <= k < |head| && head[k].0 == r && Proceeds(Performs(head[k].1), ready)
                        && forall j :: 0 <= j < k ==> !Proceeds(Performs(head[j].1), ready)
      case None => forall j :: 0 <= j < |head| ==> !Proceeds(Performs(head[j].1), ready)
  {
    if head != [] {
      ServesIff(head[0].1, ready);
    }
    if head != [] && !Overlaps(ToMask(head[0].1), ready) {
      GetReqIsFirst(head[1..], ready);
      assert forall j :: 0 < j < |head| ==> head[j] == head[1..][j-1];
      if GetReq(head[1..], ready).Some? {
        var k :| 0 <= k < |head[1..]| && head[1..][k].0 == GetReq(head, ready).value
                   && Proceeds(Performs(head[1..][k].1), ready)
                   && forall j :: 0 <= j < k ==> !Proceeds(Performs(head[1..][j].1), ready);
        assert head[k+1].0 == GetReq(head, ready).value;
      }
    }
  }

  /** What is found without repetitions is performed under a report that lets it proceed. */
  lemma FoundProceeds<R>(head: seq<(R, Kind)>, ready: Mask)
    requires NoRepeats(head) && GetReq(head, ready).Some?
    ensures var r := GetReq(head, ready).value; Has(head, r) && Proceeds(Performs(KindIn(head, r)), ready)
  {
    GetReqIsFirst(head, ready);
    var r := GetReq(head, ready).value;
    var k :| 0 <= k < |head| && head[k].0 == r && Proceeds(Performs(head[k].1), ready);
    KindAt(head, k);
  }

  lemma {:induction false} KindAt<R>(head: seq<(R, Kind)>, k: nat)
    requires NoRepeats(head) && k < |head|
    ensures Has(head, head[k].0) && KindIn(head, head[k].0) == head[k].1
    decreases k
  {
    if k > 0 {
      assert head[0].0 != head[k].0 && head[1..][k-1] == head[k];
      KindAt(head[1..], k - 1);
    }
  }

  /** Every pending request is found by a report of the side its operation waits for, unless an
      earlier one is found. */
  lemma {:induction false} WaitingIsFound<R>(head: seq<(R, Kind)>, k: nat, ready: Mask)
    requires k < |head| && Proceeds(Performs(head[k].1), ready)
    ensures GetReq(head, ready).Some?
  {
    GetReqIsFirst(head, ready);
  }

  lemma {:induction false} CountIsWaiting<R>(head: seq<(R, Kind)>)
    ensures Count(head, READABLE) > 0 <==> Waits(head, true)
    ensures Count(head, WRITABLE) > 0 <==> Waits(head, false)
  {
    if head != [] {
      CountIsWaiting(head[1..]);
      ServesIff(head[0].1, READABLE);
      ServesIff(head[0].1, WRITABLE);
      forall input: bool
        ensures Waits(head, input) <==> TakesInput(Performs(head[0].1)) == input || Waits(head[1..], input)
      {
        if Waits(head[1..], input) {
          var i :| 0 <= i < |head[1..]| && TakesInput(Performs(head[1..][i].1)) == input;
          assert head[i+1] == head[1..][i];
        }
        if Waits(head, input) {
          var i :| 0 <= i < |head| && TakesInput(Performs(head[i].1)) == input;
          assert i > 0 ==> head[1..][i-1] == head[i];
        }
      }
    }
  }

  /** With exact counters the interest has exactly the sides somebody waits for; after a start
      it has the side of the started operation, whatever the counters. */
  lemma ExactIsAwaited<R>(st: FdState<R>)
    requires Exact(st)
    ensures IsAwaited(st.Interest(), st.head) && (st.Interest() == NOTHING <==> st.head == [])
  {
    CountIsWaiting(st.head);
    if st.head != [] {
      assert Waits(st.head, TakesInput(Performs(st.head[0].1)));
    }
  }

  lemma StartRegisters<R>(st: FdState<R>, r: R, k: Kind, code: Code)
    ensures Proceeds(Performs(k), Start(st, r, k, code).Interest())
    ensures Within(st.Interest(), Start(st, r, k, code).Interest())
  {
  }

  lemma {:induction false} CountedIsFound<R>(head: seq<(R, Kind)>, bit: Mask, ready: Mask)
    requires Count(head, bit) > 0 && Within(bit, ready)
    ensures GetReq(head, ready).Some?
  {
    if !Overlaps(ToMask(head[0].1), bit) {
      CountedIsFound(head[1..], bit, ready);
    }
  }

  /** What a kernel may report for a descriptor registered with `mask`: requested events,
      or an error or hangup, which both backends widen to both bits. */
  predicate Reportable(mask: Mask, ready: Mask) {
    mask != NOTHING && ready != NOTHING && (Within(ready, mask) || ready == BOTH)
  }

  /** Exactly when no report for a registration can find an empty-handed poller: every direction
      that is registered has a request behind it. */
  lemma AnsweredIff<R>(head: seq<(R, Kind)>, mask: Mask)
    ensures (forall ready :: Reportable(mask, ready) ==> GetReq(head, ready).Some?)
      <==> (mask.readable ==> Count(head, READABLE) > 0) && (mask.writable ==> Count(head, WRITABLE) > 0)
  {
    if (mask.readable ==> Count(head, READABLE) > 0) && (mask.writable ==> Count(head, WRITABLE) > 0) {
      forall ready | Reportable(mask, ready) ensures GetReq(head, ready).Some? {
        if ready.readable && mask.readable {
          CountedIsFound(head, READABLE, ready);
        } else {
          CountedIsFound(head, WRITABLE, ready);
        }
      }
    } else if mask.readable && Count(head, READABLE) == 0 {
      FoundIsCounted(head, READABLE);
      assert Reportable(mask, READABLE);
    } else {
      FoundIsCounted(head, WRITABLE);
      assert Reportable(mask, WRITABLE);
    }
  }

  /** In particular for the mask computed from the counters. */
  lemma NeverSpinsIff<R>(st: FdState<R>)
    ensures (forall ready :: Reportable(st.Interest(), ready) ==> GetReq(st.head, ready).Some?)
      <==> (st.readN > 0 ==> Count(st.head, READABLE) > 0) && (st.writeN > 0 ==> Count(st.head, WRITABLE) > 0)
  {
    AnsweredIff(st.head, st.Interest());
  }

  lemma {:induction false} FoundIsCounted<R>(head: seq<(R, Kind)>, bit: Mask)
    requires Count(head, bit) == 0
    ensures GetReq(head, bit).None?
  {
    if head != [] {
      FoundIsCounted(head[1..], bit);
    }
  }

  /** The poll loop never spins while the counters are exact. */
  lemma ReportFindsRequest<R>(st: FdState<R>, ready: Mask)
    requires Exact(st) && Reportable(st.Interest(), ready)
    ensures GetReq(st.head, ready).Some?
  {
    NeverSpinsIff(st);
  }

  /** After an EPERM start it could spin: a later request of the other direction registers
      the phantom direction as well, and its readiness finds nobody.  That takes a kernel that
      refuses a descriptor and later accepts the same one; `EngineKernel` is about the others. */
  lemma PhantomCountSpins()
    ensures var st := Start(Start(Empty<int>(), 0, Read, EPERM), 1, Write, OK);
      Reportable(st.Interest(), READABLE) && GetReq(st.head, READABLE).None?
  {
    assert [(1, Write)][1..] == [];
  }
}
