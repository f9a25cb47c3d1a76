/** Requests, descriptors and queues on the heap (src/queue.h, src/queue.c,
    src/unix/pollish.c).  A request is a list node whose embedded structure is the union
    of src/queue.h:27-47: writing one phase gives up the other. */
module Requests {
  import opened SlotList
  import opened FdAccounting

  datatype ReqData =
    | Fresh(queue: Queue)
    | Running(queue: Queue, fd: Fd, kind: Kind, cancelled: bool)
    | Ready(queue: Queue, code: Code, next: DNode?<ReqData>)

  type Request = DNode<ReqData>

  /** A queue as the request functions see it: the list of completed requests, newest first,
      linked through the ready phase of the requests themselves, the kernel's interest map,
      and the bytes in the self-pipe. */
  class Queue {
    var head: DNode?<ReqData>
    ghost var ready: seq<Request>
    var interest: map<int, Mask>
    var pipe: nat
    const pipeCap: nat

    ghost predicate CellAt(i: nat)
      requires i < |ready|
      reads this`ready, ready`item
    {
      && ready[i].item.Ready? && ready[i].item.queue == this
      && ready[i].item.next == (if i + 1 < |ready| then ready[i+1] else null)
    }

    ghost predicate Valid()
      reads this`head, this`ready, ready`item
    {
      && Distinct(ready)
      && head == (if ready == [] then null else ready[0])
      && forall i :: 0 <= i < |ready| ==> CellAt(i)
    }

    lemma OnlyReadyInside(n: Request)
      requires Valid() && !n.item.Ready?
      ensures n !in ready
    {
      forall i | 0 <= i < |ready| ensures ready[i] != n {
        assert CellAt(i);
      }
    }

    /** yoi_pl_impl_setmask as its header promises it.  A refused call changes nothing. */
    method SetMask(num: int, mask: Mask, outcome: Code)
      modifies this`interest
      ensures interest == Answered(old(interest), num, mask, outcome)
      ensures outcome != OK ==> interest == old(interest)
      ensures outcome == OK ==> (num in interest <==> mask != NOTHING) && (mask != NOTHING ==> interest[num] == mask)
      ensures SameElsewhere(old(interest), interest, num)
    {
      if outcome == OK {
        interest := Registered(interest, num, mask, mask);
      }
    }

    /** yoi_queue_impl_notify: a byte, unless the pipe is full. */
    method Notify()
      modifies this`pipe
      ensures pipe == if old(pipe) < pipeCap then old(pipe) + 1 else old(pipe)
    {
      if pipe < pipeCap {
        pipe := pipe + 1;
      }
    }

    /** yoi_queue_pop: the newest completed request leaves the list, with its code. */
    method Pop() returns (res: Option<(Request, Code)>)
      requires Valid()
      modifies this`head, this`ready
      ensures Valid()
      ensures old(ready) == [] ==> res == None && ready == []
      ensures old(ready) != [] ==> ready == old(ready)[1..]
      ensures old(ready) != [] ==> var n := old(ready)[0]; n.item.Ready? && res == Some((n, n.item.code))
    {
      if head == null {
        return None;
      }
      ghost var s := ready;
      assert CellAt(0);
      res := Some((head, head.item.code));
      head := head.item.next;
      ready := ready[1..];
      DistinctTail(s);
      forall i | 0 <= i < |ready| ensures CellAt(i) {
        assert old(CellAt(i + 1));
      }
    }
  }

  /** The registrations after a call the kernel answered with `outcome`. */
  ghost function Answered(interest: map<int, Mask>, num: int, mask: Mask, outcome: Code): map<int, Mask> {
    if outcome == OK then Registered(interest, num, mask, mask) else interest
  }

  /** Only `num` may differ. */
  ghost predicate SameElsewhere(before: map<int, Mask>, after: map<int, Mask>, num: int) {
    forall k :: k != num ==> (k in after <==> k in before) && (k in before ==> after[k] == before[k])
  }

  /** The descriptor is registered if and only if some request is pending, and for exactly the
      sides the pending requests wait for. */
  ghost predicate Watched(interest: map<int, Mask>, num: int, entries: seq<(Request, Kind)>) {
    (num in interest <==> entries != []) && (num in interest ==> IsAwaited(interest[num], entries))
  }

  /** What a kernel that answers `outcome` has made of a queue's registrations. */
  ghost predicate Informed(before: map<int, Mask>, after: map<int, Mask>, num: int, entries: seq<(Request, Kind)>,
                           outcome: Code) {
    if outcome == OK then Watched(after, num, entries) && SameElsewhere(before, after, num) else after == before
  }

  lemma AnsweredInforms(before: map<int, Mask>, num: int, st: FdState<Request>, outcome: Code)
    requires Exact(st)
    ensures Informed(before, Answered(before, num, st.Interest(), outcome), num, st.head, outcome)
  {
    ExactIsAwaited(st);
  }

  lemma StartInforms(st: FdState<Request>, n: Request, kind: Kind, outcome: Code, before: map<int, Mask>, num: int)
    requires !Has(st.head, n)
    ensures var st' := Start(st, n, kind, outcome);
      Exact(st) ==>
        && (Exact(st') <==> outcome != EPERM)
        && Informed(before, Answered(before, num, st'.Interest(), outcome), num, st'.head, outcome)
  {
    if Exact(st) {
      StartKeepsExactIff(st, n, kind, outcome);
      if outcome == OK {
        AnsweredInforms(before, num, Start(st, n, kind, outcome), outcome);
      }
    }
  }

  /** yoi_req_end: the request enters its ready phase with `code`, and its own queue's list in
      front. */
  method ReqEnd(n: Request, code: Code)
    modifies n`item, n.item.queue`head, n.item.queue`ready, n.item.queue`pipe
    ensures var q := old(n.item.queue);
      && n.item == Ready(q, code, old(q.head)) && q.ready == [n] + old(q.ready)
      && (old(q.Valid()) && n !in old(q.ready) ==> q.Valid())
      && (q.pipeCap > 0 ==> q.pipe > 0)
  {
    var q := n.item.queue;
    n.item := Ready(q, code, q.head);
    q.head := n;
    ghost var s := q.ready;
    q.ready := [n] + q.ready;
    if old(q.Valid()) && n !in s {
      DistinctPrepend(n, s);
      forall i | 0 <= i < |q.ready| ensures q.CellAt(i) {
        assert i > 0 ==> old(q.CellAt(i - 1));
      }
    }
    q.Notify();
  }

  class Fd {
    const num: int
    const pending: DList<ReqData>
    var readN: nat
    var writeN: nat
    ghost var entries: seq<(Request, Kind)>  // the pending requests with their kinds, in list order

    ghost predicate EntryAt(i: nat)
      requires i < |entries| == |pending.nodes|
      reads this`entries, pending`nodes, pending.nodes`item
    {
      && pending.nodes[i] == entries[i].0
      && pending.nodes[i].item.Running?
      && pending.nodes[i].item.fd == this
      && pending.nodes[i].item.kind == entries[i].1
    }

    ghost predicate Valid()
      reads this`entries, pending, pending.nodes
    {
      && pending.Valid()
      && |entries| == |pending.nodes|
      && forall i :: 0 <= i < |entries| ==> EntryAt(i)
    }

    ghost function View(): FdState<Request>
      reads this
    {
      FdState(entries, readN, writeN)
    }

    constructor (num: int)
      ensures Valid() && View() == Empty() && this.num == num && fresh(pending)
    {
      this.num := num;
      pending := new DList<ReqData>();
      readN, writeN, entries := 0, 0, [];
    }

    method CountUp(kind: Kind)
      modifies this`readN, this`writeN
      ensures View() == Bump(old(View()), kind)
      ensures if TakesInput(Performs(kind)) then readN == old(readN) + 1 && writeN == old(writeN)
              else readN == old(readN) && writeN == old(writeN) + 1
    {
      if ToMask(kind).readable {
        readN := readN + 1;
      } else {
        writeN := writeN + 1;
      }
    }

    method CountDown(kind: Kind)
      requires if ToMask(kind).readable then readN > 0 else writeN > 0
      modifies this`readN, this`writeN
      ensures Bump(View(), kind) == old(View())
    {
      if ToMask(kind).readable {
        readN := readN - 1;
      } else {
        writeN := writeN - 1;
      }
    }

    /** The mask computed from the counters. */
    function Interest(): (m: Mask)
      reads this
      ensures m == View().Interest()
    {
      Mask(readN != 0, writeN != 0)
    }

    /** Links a request already set to running on this descriptor. */
    method Link(n: Request, ghost other: DList<ReqData>)
      requires Valid() && n !in pending.nodes && n.item.Running? && n.item.fd == this
      requires other.Valid() && n !in other.nodes
      modifies pending, n`next, n`slot, AsSet(pending.head)`slot, this`entries
      ensures Valid() && entries == [(n, n.item.kind)] + old(entries)
      ensures other != pending ==> other.Valid() && other.nodes == old(other.nodes)
    {
      ghost var s := entries;
      pending.Add(n, other);
      entries := [(n, n.item.kind)] + entries;
      forall i | 0 <= i < |entries| ensures EntryAt(i) {
        assert i > 0 ==> old(EntryAt(i - 1));
      }
    }

    lemma EntryOf(n: Request) returns (k: nat)
      requires Valid() && n in pending.nodes
      ensures k < |entries| && EntryAt(k) && n.item.Running? && entries[k] == (n, n.item.kind)
      ensures NoRepeats(entries)
    {
      k :| 0 <= k < |entries| && pending.nodes[k] == n;
      assert EntryAt(k);
      forall i, j | 0 <= i < j < |entries| ensures entries[i].0 != entries[j].0 {
        assert EntryAt(i) && EntryAt(j) && Differ(pending.nodes, i, j);
      }
    }

    lemma NotPending(n: Request)
      requires Valid() && n !in pending.nodes
      ensures !Has(entries, n)
    {
      forall i | 0 <= i < |entries| ensures entries[i].0 != n {
        assert EntryAt(i);
      }
    }

    /** Unlinks a pending request; the view loses exactly its entry. */
    method Unhook(n: Request, ghost other: DList<ReqData>)
      requires Valid() && n in pending.nodes && !n.slot.Unset? && other.Valid()
      modifies pending, Before(n)`next, AsSet(n.next)`slot, this`entries
      ensures Valid() && entries == Remove(old(entries), n) && n !in pending.nodes
      ensures n.next == old(n.next)
      ensures other != pending ==> other.Valid() && other.nodes == old(other.nodes)
    {
      ghost var k := EntryOf(n);
      ghost var s, e := pending.nodes, entries;
      Unlink(n, pending, other);
      WithoutIndex(s, k);
      entries := e[..k] + e[k+1..];
      forall i | 0 <= i < |entries| ensures EntryAt(i) {
        if i < k {
          assert old(EntryAt(i));
        } else {
          assert old(EntryAt(i + 1));
        }
      }
      RemoveAt(e, k);
    }
  }

  /** `other` is this descriptor, or one with a list of its own. */
  ghost predicate Beside(fd: Fd, other: Fd)
    reads other`entries, other.pending, other.pending.nodes
  {
    other.Valid() && (other != fd ==> other.pending != fd.pending)
  }

  /** The yoa_ entry points with _yoi_pl_req_start.  `outcome` is the kernel's answer to the
      registration and `op` the result of the operation when it must run at once. */
  method StartOn(n: Request, fd: Fd, kind: Kind, outcome: Code, op: Code, ghost other: DList<ReqData>)
    returns (code: Code)
    requires fd.Valid() && n !in fd.pending.nodes && other.Valid() && n !in other.nodes
    requires n.item.queue.Valid() && n !in n.item.queue.ready
    modifies n, fd, fd.pending, AsSet(fd.pending.head)`slot, n.item.queue
    ensures fd.Valid() && fd.View() == Start(old(fd.View()), n, kind, outcome)
    ensures var q := old(n.item.queue);
      && q.Valid() && q.interest == Answered(old(q.interest), fd.num, fd.Interest(), outcome)
      && (outcome == EPERM ==> code == OK && n.item == Ready(q, op, old(q.head)) && q.ready == [n] + old(q.ready))
      && (outcome == EPERM && q.pipeCap > 0 ==> q.pipe > 0)
      && (outcome != EPERM ==> code == outcome && n.item == Running(q, fd, kind, false) && q.ready == old(q.ready))
    ensures other != fd.pending ==> other.Valid() && other.nodes == old(other.nodes)
  {
    Begin(n, fd, kind, outcome);
    if outcome == EPERM {
      ReqEnd(n, op);
      return OK;
    }
    fd.Link(n, other);
    return outcome;
  }

  /** The first half of a start: the request is counted, registered, and running. */
  method Begin(n: Request, fd: Fd, kind: Kind, outcome: Code)
    requires fd.Valid() && n !in fd.pending.nodes
    requires n.item.queue.Valid() && n !in n.item.queue.ready
    modifies n`item, fd`readN, fd`writeN, n.item.queue`interest
    ensures fd.Valid() && fd.View() == Bump(old(fd.View()), kind)
    ensures var q := old(n.item.queue);
      && n.item == Running(q, fd, kind, false) && q.Valid()
      && q.interest == Answered(old(q.interest), fd.num, fd.Interest(), outcome)
  {
    var q := n.item.queue;
    n.item := Running(q, fd, kind, false);
    fd.CountUp(kind);
    q.SetMask(fd.num, fd.Interest(), outcome);
    forall i | 0 <= i < |fd.entries| ensures fd.EntryAt(i) {
      assert old(fd.EntryAt(i));
    }
    forall i | 0 <= i < |q.ready| ensures q.CellAt(i) {
      assert old(q.CellAt(i));
    }
  }

  /** ... and any other descriptor stays as it was. */
  method ReqStart(n: Request, fd: Fd, kind: Kind, outcome: Code, op: Code, ghost other: Fd) returns (code: Code)
    requires fd.Valid() && n !in fd.pending.nodes && Beside(fd, other) && n !in other.pending.nodes
    requires n.item.queue.Valid() && n !in n.item.queue.ready
    modifies n, fd, fd.pending, AsSet(fd.pending.head)`slot, n.item.queue
    ensures fd.Valid() && fd.View() == Start(old(fd.View()), n, kind, outcome)
    ensures var q := old(n.item.queue);
      && q.Valid() && q.interest == Answered(old(q.interest), fd.num, fd.Interest(), outcome)
      && (outcome == EPERM ==> code == OK && n.item == Ready(q, op, old(q.head)) && q.ready == [n] + old(q.ready))
      && (outcome == EPERM && q.pipeCap > 0 ==> q.pipe > 0)
      && (outcome != EPERM ==> code == outcome && n.item == Running(q, fd, kind, false) && q.ready == old(q.ready))
    ensures Exact(old(fd.View())) ==>
      && (Exact(fd.View()) <==> outcome != EPERM)
      && Informed(old(n.item.queue.interest), old(n.item.queue).interest, fd.num, fd.entries, outcome)
    ensures other != fd ==> other.Valid() && other.View() == old(other.View())
  {
    fd.NotPending(n);
    StartInforms(fd.View(), n, kind, outcome, n.item.queue.interest, fd.num);
    code := StartOn(n, fd, kind, outcome, op, other.pending);
    if other != fd {
      forall i | 0 <= i < |other.entries| ensures other.EntryAt(i) {
        assert old(other.EntryAt(i));
      }
    }
  }

  /** _yoi_pl_req_stop: uncount, unlink, register the new mask.  The kernel's answer is
      returned, and every caller ignores it. */
  method StopOn(n: Request, outcome: Code, ghost other: DList<ReqData>) returns (code: Code)
    requires n.item.Running? && n.item.fd.Valid() && n in n.item.fd.pending.nodes && !n.slot.Unset?
    requires CanStop(n.item.fd.View(), n) && other.Valid()
    modifies n.item.fd, n.item.fd.pending, Before(n)`next, AsSet(n.next)`slot, n.item.queue`interest
    ensures var fd := n.item.fd;
      && fd.Valid() && fd.View() == Stop(old(fd.View()), n) && n !in fd.pending.nodes
      && n.item.queue.interest == Answered(old(n.item.queue.interest), fd.num, fd.Interest(), outcome)
    ensures code == outcome
    ensures other != n.item.fd.pending ==> other.Valid() && other.nodes == old(other.nodes)
  {
    var fd := n.item.fd;
    ghost var k := fd.EntryOf(n);
    RemoveAt(fd.entries, k);
    fd.CountDown(n.item.kind);
    var mask := fd.Interest();
    fd.Unhook(n, other);
    n.item.queue.SetMask(fd.num, mask, outcome);
    return outcome;
  }

  /** ... and any other descriptor stays as it was. */
  method ReqStop(n: Request, outcome: Code, ghost other: Fd) returns (code: Code)
    requires n.item.Running? && n.item.fd.Valid() && n in n.item.fd.pending.nodes && !n.slot.Unset?
    requires CanStop(n.item.fd.View(), n) && Beside(n.item.fd, other)
    modifies n.item.fd, n.item.fd.pending, Before(n)`next, AsSet(n.next)`slot, n.item.queue`interest
    ensures var fd := n.item.fd;
      && fd.Valid() && fd.View() == Stop(old(fd.View()), n) && n !in fd.pending.nodes
      && n.item.queue.interest == Answered(old(n.item.queue.interest), fd.num, fd.Interest(), outcome)
    ensures code == outcome
    ensures Exact(old(n.item.fd.View())) ==>
      && Exact(n.item.fd.View())
      && Informed(old(n.item.queue.interest), n.item.queue.interest, n.item.fd.num, n.item.fd.entries, outcome)
    ensures other != n.item.fd ==> other.Valid() && other.View() == old(other.View())
  {
    if Exact(n.item.fd.View()) {
      StopAccounts(n.item.fd.View(), n, 0, 0);
      AnsweredInforms(n.item.queue.interest, n.item.fd.num, Stop(n.item.fd.View(), n), outcome);
    }
    code := StopOn(n, outcome, other.pending);
    if other != n.item.fd {
      forall i | 0 <= i < |other.entries| ensures other.EntryAt(i) {
        assert old(other.EntryAt(i));
      }
    }
  }

  method MarkCancelled(n: Request, ghost fd: Fd, ghost q: Queue, ghost other: Fd)
    requires n.item.Running? && fd.Valid() && q.Valid() && other.Valid()
    modifies n`item
    ensures n.item == old(n.item).(cancelled := true)
    ensures fd.Valid() && q.Valid() && other.Valid()
  {
    q.OnlyReadyInside(n);
    n.item := n.item.(cancelled := true);
    forall i | 0 <= i < |q.ready| ensures q.CellAt(i) {
      assert old(q.CellAt(i));
    }
    forall i | 0 <= i < |fd.entries| ensures fd.EntryAt(i) {
      assert old(fd.EntryAt(i));
    }
    forall i | 0 <= i < |other.entries| ensures other.EntryAt(i) {
      assert old(other.EntryAt(i));
    }
  }

  /** A request that is on neither descriptor ends. */
  method EndBeside(n: Request, code: Code, ghost fd: Fd, ghost other: Fd)
    requires n.item.Running? && n.item.queue.Valid()
    requires fd.Valid() && other.Valid() && n !in fd.pending.nodes && n !in other.pending.nodes
    modifies n`item, n.item.queue`head, n.item.queue`ready, n.item.queue`pipe
    ensures var q := old(n.item.queue);
      && q.Valid() && n.item == Ready(q, code, old(q.head)) && q.ready == [n] + old(q.ready)
      && (q.pipeCap > 0 ==> q.pipe > 0)
    ensures fd.Valid() && other.Valid()
  {
    n.item.queue.OnlyReadyInside(n);
    ReqEnd(n, code);
    forall i | 0 <= i < |fd.entries| ensures fd.EntryAt(i) {
      assert old(fd.EntryAt(i));
    }
    forall i | 0 <= i < |other.entries| ensures other.EntryAt(i) {
      assert old(other.EntryAt(i));
    }
  }

  /** yo_req_cancel with _yoi_pl_req_cancel: a request cancelled before is left alone.  The flag
      belongs to the running phase, so it is set before the phase ends. */
  method ReqCancel(n: Request, outcome: Code, ghost other: Fd)
    requires n.item.Running? && n.item.fd.Valid() && n in n.item.fd.pending.nodes && Beside(n.item.fd, other)
    requires CanStop(n.item.fd.View(), n) && !n.slot.Unset? && n.item.queue.Valid()
    modifies n`item, n.item.fd, n.item.fd.pending, Before(n)`next, AsSet(n.next)`slot, n.item.queue
    ensures var fd := old(n.item.fd); var q := old(n.item.queue);
      if old(n.item.cancelled) then
        n.item == old(n.item) && fd.View() == old(fd.View()) && q.ready == old(q.ready) && q.interest == old(q.interest)
      else
        && fd.View() == Stop(old(fd.View()), n)
        && n.item == Ready(q, ECANCELED, old(q.head)) && q.ready == [n] + old(q.ready)
        && (q.pipeCap > 0 ==> q.pipe > 0)
        && q.interest == Answered(old(q.interest), fd.num, fd.Interest(), outcome)
        && (Exact(old(fd.View())) ==>
              Exact(fd.View()) && Informed(old(q.interest), q.interest, fd.num, fd.entries, outcome))
    ensures old(n.item.fd).Valid() && old(n.item.queue).Valid()
    ensures other != old(n.item.fd) ==> other.Valid() && other.View() == old(other.View())
  {
    if n.item.cancelled {
      return;
    }
    var fd := n.item.fd;
    if other != fd {
      ListsAreDisjoint(fd.pending, other.pending);
    }
    MarkCancelled(n, fd, n.item.queue, other);
    var _ := ReqStop(n, outcome, other);
    EndBeside(n, ECANCELED, fd, other);
  }

  /** _yoi_pl_get_req: the walk over `head` finds what the search function finds. */
  method FindReq(fd: Fd, ready: Mask) returns (res: Option<Request>)
    requires fd.Valid()
    ensures res == GetReq(fd.View().head, ready)
    ensures res.Some? ==> res.value in fd.pending.nodes
  {
    var i := fd.pending.head;
    ghost var k, s := 0, fd.pending.nodes;
    while i != null
      invariant 0 <= k <= |s| && i == (if k < |s| then s[k] else null)
      invariant GetReq(fd.entries, ready) == GetReq(fd.entries[k..], ready)
      decreases |s| - k
    {
      assert fd.pending.LinkedAt(s, k) && fd.EntryAt(k);
      assert fd.entries[k..][0] == (i, i.item.kind) && fd.entries[k..][1..] == fd.entries[k+1..];
      if Overlaps(ToMask(i.item.kind), ready) {
        return Some(i);
      }
      i := i.next;
      k := k + 1;
    }
    return None;
  }

  /** A pending request of `fd` is stopped: it was counted, and the accounting is kept. */
  method StopPending(n: Request, fd: Fd, outcome: Code, ghost q: Queue, ghost other: Fd,
                     ghost epermR: nat, ghost epermW: nat)
    requires fd.Valid() && n in fd.pending.nodes && Accounted(fd.View(), epermR, epermW) && Beside(fd, other)
    modifies fd, fd.pending, Before(n)`next, AsSet(n.next)`slot, n.item.queue`interest
    ensures fd.Valid() && Accounted(fd.View(), epermR, epermW)
    ensures CanStop(old(fd.View()), n) && fd.View() == Stop(old(fd.View()), n)
    ensures q.interest == if q == n.item.queue then Answered(old(q.interest), fd.num, fd.Interest(), outcome)
                          else old(q.interest)
    ensures Exact(old(fd.View())) ==>
      Exact(fd.View()) && Informed(old(n.item.queue.interest), n.item.queue.interest, fd.num, fd.entries, outcome)
    ensures other != fd ==> other.Valid() && other.View() == old(other.View())
  {
    ghost var k := fd.EntryOf(n);
    assert fd.pending.LinkedAt(fd.pending.nodes, k) && fd.entries[k].0 == n;
    StopAccounts(fd.View(), n, epermR, epermW);
    var _ := ReqStop(n, outcome, other);
  }

  /** The direct delivery in yo_queue_poll, for a report of `ready` on `fd`: the first request
      the event can serve is stopped, its operation runs (with result `op`), and it is
      handed to the caller without passing the ready list.  Its own queue, which need not be
      the polled one, has its registration updated; any other queue `q` keeps its own, and any
      other descriptor its list and counters. */
  method DeliverDirect(fd: Fd, ready: Mask, outcome: Code, op: Code, ghost members: set<Request>,
                       ghost queues: set<Queue>, ghost q: Queue, ghost other: Fd, ghost epermR: nat, ghost epermW: nat)
    returns (res: Option<(Request, Code)>)
    requires fd.Valid() && Accounted(fd.View(), epermR, epermW) && Beside(fd, other)
    requires forall i :: 0 <= i < |fd.entries| ==>
      fd.pending.nodes[i].item.queue in queues && fd.pending.nodes[i] in members
    modifies fd, fd.pending, members`next, members`slot, queues`interest
    ensures fd.Valid() && Accounted(fd.View(), epermR, epermW)
    ensures match GetReq(old(fd.View()).head, ready)
      case None => res == None && fd.View() == old(fd.View()) && q.interest == old(q.interest)
      case Some(n) =>
        && res == Some((n, op)) && CanStop(old(fd.View()), n) && fd.View() == Stop(old(fd.View()), n)
        && (q.interest == if q == n.item.queue then Answered(old(q.interest), fd.num, fd.Interest(), outcome)
                          else old(q.interest))
        && (Exact(old(fd.View())) ==>
              && Exact(fd.View())
              && Informed(old(n.item.queue.interest), n.item.queue.interest, fd.num, fd.entries, outcome))
    ensures other != fd ==> other.Valid() && other.View() == old(other.View())
  {
    var found := FindReq(fd, ready);
    if found.None? {
      return None;
    }
    var n := found.value;
    NeighboursAreMembers(n, fd.pending);
    assert forall m :: m in fd.pending.nodes ==> m in members && m.item.queue in queues;
    StopPending(n, fd, outcome, q, other, epermR, epermW);
    return Some((n, op));
  }

  /** What the list of `q` gains, newest first, when the first `k` of the requests `ns` are
      cancelled one by one in list order, each onto the queue that owns it. */
  ghost function Gained<R, Q>(ns: seq<R>, owners: seq<Q>, q: Q, k: nat): seq<R>
    requires k <= |ns| == |owners|
  {
    if k == 0 then []
    else
      var before := Gained(ns, owners, q, k - 1);
      if owners[k-1] == q then [ns[k-1]] + before else before
  }

  /** ... whether `q` was among those owners, ... */
  ghost predicate OwnsOne<Q>(owners: seq<Q>, q: Q, k: nat)
    requires k <= |owners|
  {
    k > 0 && (owners[k-1] == q || OwnsOne(owners, q, k - 1))
  }

  /** ... and whether the kernel let it forget the descriptor in one of those turns. */
  ghost predicate Forgets<R, Q>(ns: seq<R>, owners: seq<Q>, outcome: R -> Code, q: Q, k: nat)
    requires k <= |ns| == |owners|
  {
    k > 0 && ((owners[k-1] == q && outcome(ns[k-1]) == OK) || Forgets(ns, owners, outcome, q, k - 1))
  }

  lemma {:induction false} GainedNext<R, Q>(ns: seq<R>, owners: seq<Q>, q: Q, k: nat, before: seq<R>)
    requires k < |ns| == |owners|
    ensures Gained(ns, owners, q, k + 1) + before
         == if owners[k] == q then [ns[k]] + (Gained(ns, owners, q, k) + before) else Gained(ns, owners, q, k) + before
    ensures OwnsOne(owners, q, k + 1) <==> owners[k] == q || OwnsOne(owners, q, k)
  {
  }

  ghost predicate OwnedBy(n: Request, owner: Queue)
    reads n`item
  {
    n.item.Running? && n.item.queue == owner
  }

  /** One turn of the walk: the request leaves for its own queue, which is told to forget the
      descriptor, and every other queue `q` stays as it is. */
  method CloseTurn(n: Request, num: int, outcome: Code, ghost own: Queue, ghost q: Queue)
    requires OwnedBy(n, own) && q.Valid()
    modifies n`item, own`head, own`ready, own`interest, own`pipe
    ensures n.item.Ready? && n.item.queue == own && n.item.code == ECANCELED && n.next == old(n.next)
    ensures q.Valid() && q.ready == (if q == own then [n] + old(q.ready) else old(q.ready))
    ensures q.interest == if q == own then Answered(old(q.interest), num, NOTHING, outcome) else old(q.interest)
    ensures if q == own then q.pipeCap > 0 ==> q.pipe > 0 else q.pipe == old(q.pipe)
  {
    q.OnlyReadyInside(n);
    n.item.queue.SetMask(num, NOTHING, outcome);
    assert q.Valid() by {
      forall i | 0 <= i < |q.ready| ensures q.CellAt(i) {
        assert old(q.CellAt(i));
      }
    }
    label Told:
    ReqEnd(n, ECANCELED);
    if q != own {
      forall i | 0 <= i < |q.ready| ensures q.CellAt(i) {
        assert old@Told(q.CellAt(i));
      }
    }
  }

  /** The requests of a walk: the first `k` have gone to their queues, the rest still run. */
  ghost predicate ItemsAt(s: seq<Request>, owners: seq<Queue>, k: nat)
    requires |s| == |owners|
    reads s`item
  {
    forall j :: 0 <= j < |s| ==>
      if j < k then s[j].item.Ready? && s[j].item.queue == owners[j] && s[j].item.code == ECANCELED
      else OwnedBy(s[j], owners[j])
  }

  /** What `k` turns of a walk have made of a queue that had `ready` and `interest` before. */
  ghost predicate QueueAt(q: Queue, s: seq<Request>, owners: seq<Queue>, outcome: Request -> Code, num: int, k: nat,
                          ready: seq<Request>, interest: map<int, Mask>)
    requires k <= |s| == |owners|
    reads q, q.ready`item
  {
    && q.Valid() && q.ready == Gained(s, owners, q, k) + ready
    && q.interest == (if Forgets(s, owners, outcome, q, k) then interest - {num} else interest)
    && (OwnsOne(owners, q, k) && q.pipeCap > 0 ==> q.pipe > 0)
  }

  method Turn(n: Request, num: int, outcome: Request -> Code, ghost own: Queue, ghost s: seq<Request>,
              ghost owners: seq<Queue>, ghost k: nat, ghost q: Queue, ghost ready: seq<Request>,
              ghost interest: map<int, Mask>)
    requires Distinct(s) && k < |s| == |owners| && s[k] == n && owners[k] == own && ItemsAt(s, owners, k)
    requires QueueAt(q, s, owners, outcome, num, k, ready, interest)
    modifies n`item, own`head, own`ready, own`interest, own`pipe
    ensures n.next == old(n.next) && ItemsAt(s, owners, k + 1)
    ensures QueueAt(q, s, owners, outcome, num, k + 1, ready, interest)
  {
    OthersDiffer(s, k);
    GainedNext(s, owners, q, k, ready);
    assert OwnedBy(n, own);
    CloseTurn(n, num, outcome(n), own, q);
    assert forall j :: k < j < |s| ==> OwnedBy(s[j], owners[j]);
  }

  /** The walk stands at node `i`, the `k`-th. */
  ghost predicate WalkAt(fd: Fd, i: DNode?<ReqData>, s: seq<Request>, owners: seq<Queue>, outcome: Request -> Code,
                         k: nat, q: Queue, ready: seq<Request>, interest: map<int, Mask>)
    reads fd.pending, fd.pending.nodes`next, fd.pending.nodes`slot, s`item, q, q.ready`item
  {
    && fd.pending.Valid() && fd.pending.nodes == s && k <= |s| == |owners|
    && i == (if k < |s| then s[k] else null)
    && ItemsAt(s, owners, k) && QueueAt(q, s, owners, outcome, fd.num, k, ready, interest)
  }

  method Walk(fd: Fd, i: Request, outcome: Request -> Code, ghost own: Queue, ghost s: seq<Request>,
              ghost owners: seq<Queue>, ghost k: nat, ghost q: Queue, ghost ready: seq<Request>,
              ghost interest: map<int, Mask>) returns (next: DNode?<ReqData>)
    requires WalkAt(fd, i, s, owners, outcome, k, q, ready, interest) && k < |s| && owners[k] == own
    modifies i`item, own`head, own`ready, own`interest, own`pipe
    ensures WalkAt(fd, next, s, owners, outcome, k + 1, q, ready, interest)
  {
    assert fd.pending.LinkedAt(s, k);
    Turn(i, fd.num, outcome, own, s, owners, k, q, ready, interest);
    next := i.next;
  }

  /** The loop of yoi_unix_onclose. */
  method CloseAll(fd: Fd, outcome: Request -> Code, ghost owners: seq<Queue>, ghost members: set<Request>,
                  ghost queues: set<Queue>, ghost q: Queue)
    requires fd.pending.Valid() && |owners| == |fd.pending.nodes| && ItemsAt(fd.pending.nodes, owners, 0)
    requires forall o :: o in owners ==> o in queues
    requires forall n :: n in fd.pending.nodes ==> n in members
    requires q.Valid()
    modifies queues, members
    ensures fd.pending.Valid() && ItemsAt(fd.pending.nodes, owners, |owners|)
    ensures QueueAt(q, fd.pending.nodes, owners, outcome, fd.num, |owners|, old(q.ready), old(q.interest))
  {
    var i := fd.pending.head;
    ghost var k: nat, s, ready, interest := 0, fd.pending.nodes, q.ready, q.interest;
    while i != null
      invariant 0 <= k <= |s|
      invariant WalkAt(fd, i, s, owners, outcome, k, q, ready, interest)
      decreases |s| - k
    {
      i := Walk(fd, i, outcome, owners[k], s, owners, k, q, ready, interest);
      k := k + 1;
    }
    assert k == |owners|;
  }

  /** yoi_unix_onclose: the walk terminates although every node joins another list under
      its feet; each pending request is cancelled onto its own queue, in list order, and
      that queue is told to forget the descriptor (`outcome` is the kernel's answer, which
      the code ignores).  The list itself is left as it was, like the code leaves `head`;
      the descriptor is freed next.  The contract speaks of two ghost arguments: whichever
      queue `q` is, this is what the close does to it, and whichever other descriptor
      `other` is, it stays as it was. */
  method OnClose(fd: Fd, outcome: Request -> Code, ghost owners: seq<Queue>, ghost members: set<Request>,
                 ghost queues: set<Queue>, ghost q: Queue, ghost other: Fd)
    requires fd.pending.Valid() && |owners| == |fd.pending.nodes| && ItemsAt(fd.pending.nodes, owners, 0)
    requires forall o :: o in owners ==> o in queues
    requires forall n :: n in fd.pending.nodes <==> n in members
    requires q.Valid() && Beside(fd, other)
    modifies queues, members
    ensures fd.pending.Valid() && ItemsAt(fd.pending.nodes, owners, |owners|)
    ensures QueueAt(q, fd.pending.nodes, owners, outcome, fd.num, |owners|, old(q.ready), old(q.interest))
    ensures other != fd ==> other.Valid() && other.View() == old(other.View())
  {
    if other != fd {
      ListsAreDisjoint(fd.pending, other.pending);
    }
    CloseAll(fd, outcome, owners, members, queues, q);
    if other != fd {
      forall i | 0 <= i < |other.entries| ensures other.EntryAt(i) {
        assert old(other.EntryAt(i));
      }
    }
  }

  /** How many of the first `k` requests are `r` and owned by `q`. */
  ghost function CountOwned<R, Q>(ns: seq<R>, owners: seq<Q>, q: Q, r: R, k: nat): nat
    requires k <= |ns| == |owners|
  {
    if k == 0 then 0
    else (if owners[k-1] == q && ns[k-1] == r then 1 else 0) + CountOwned(ns, owners, q, r, k - 1)
  }

  /** Conservation of a close, for each queue: it gains exactly the requests it owned, each
      as often as it was pending, ... */
  lemma {:induction false} CloseConserves<R, Q>(ns: seq<R>, owners: seq<Q>, q: Q, k: nat, r: R)
    requires k <= |ns| == |owners|
    ensures multiset(Gained(ns, owners, q, k))[r] == CountOwned(ns, owners, q, r, k)
  {
    if k > 0 {
      CloseConserves(ns, owners, q, k - 1, r);
      var gain := Gained(ns, owners, q, k - 1);
      assert multiset([ns[k-1]] + gain) == multiset{ns[k-1]} + multiset(gain);
    }
  }

  /** ... at least one if and only if it owned one, and when every removal succeeds it forgets
      the descriptor exactly then. */
  lemma {:induction false} CloseGains<R, Q>(ns: seq<R>, owners: seq<Q>, outcome: R -> Code, q: Q, k: nat)
    requires k <= |ns| == |owners|
    ensures Gained(ns, owners, q, k) != [] <==> OwnsOne(owners, q, k)
    ensures Forgets(ns, owners, outcome, q, k) ==> OwnsOne(owners, q, k)
    ensures (forall n :: n in ns ==> outcome(n) == OK) ==>
      (Forgets(ns, owners, outcome, q, k) <==> OwnsOne(owners, q, k))
  {
    if k > 0 {
      CloseGains(ns, owners, outcome, q, k - 1);
    }
  }
}
