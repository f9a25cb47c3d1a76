/** The poll(2) backend (src/unix/poll.c): a linked list of registrations, and an array
    rebuilt from it for every wait. */
module PollBackend {
  import opened FdAccounting
  import opened SlotList
  import opened Interest

  // ---- Registrations as a list ----

  datatype Entry = Entry(fd: int, evn: Mask, udata: Pointer)

  ghost predicate OneEach(es: seq<Entry>) {
    forall i, j :: 0 <= i < j < |es| ==> es[i].fd != es[j].fd
  }

  ghost function AsMap(es: seq<Entry>): Registrations
    requires OneEach(es)
  {
    map i | 0 <= i < |es| :: es[i].fd := (es[i].evn, es[i].udata)
  }

  /** The first entry for `fd`, or the length of the list. */
  function IndexOf(es: seq<Entry>, fd: int): (k: nat)
    ensures k <= |es| && (k < |es| ==> es[k].fd == fd) && forall i :: 0 <= i < k ==> es[i].fd != fd
  {
    if es == [] || es[0].fd == fd then 0 else 1 + IndexOf(es[1..], fd)
  }

  lemma IndexOfIs(es: seq<Entry>, fd: int, k: nat)
    requires k <= |es| && (k < |es| ==> es[k].fd == fd) && forall i :: 0 <= i < k ==> es[i].fd != fd
    ensures IndexOf(es, fd) == k
  {
  }

  /** What the list becomes: an entry goes, changes in place, or is added in front. */
  function Updated(es: seq<Entry>, fd: int, mask: Mask, udata: Pointer): seq<Entry> {
    var k := IndexOf(es, fd);
    if mask == NOTHING then
      if k < |es| then es[..k] + es[k+1..] else es
    else if k < |es| then es[k := Entry(fd, mask, udata)]
    else [Entry(fd, mask, udata)] + es
  }

  lemma Lookup(es: seq<Entry>, i: nat)
    requires OneEach(es) && i < |es|
    ensures es[i].fd in AsMap(es) && AsMap(es)[es[i].fd] == (es[i].evn, es[i].udata)
  {
  }

  /** Every entry but that of `fd` is in the new list, and nothing else. */
  lemma UpdatedKeeps(es: seq<Entry>, fd: int, mask: Mask, udata: Pointer)
    ensures var t := Updated(es, fd, mask, udata);
      && (forall e :: e in es && e.fd != fd ==> e in t)
      && (forall e :: e in t && e.fd != fd ==> e in es)
  {
    var k, t := IndexOf(es, fd), Updated(es, fd, mask, udata);
    forall e | e in es && e.fd != fd ensures e in t {
      var i :| 0 <= i < |es| && es[i] == e;
      if mask == NOTHING {
        assert t[if i < k then i else i - 1] == e;
      } else if k == |es| {
        assert t[i + 1] == e;
      } else {
        assert t[i] == e;
      }
    }
  }

  lemma UpdatedOneEach(es: seq<Entry>, fd: int, mask: Mask, udata: Pointer)
    requires OneEach(es)
    ensures var t := Updated(es, fd, mask, udata);
      OneEach(t) && if mask == NOTHING then forall e :: e in t ==> e.fd != fd else Entry(fd, mask, udata) in t
  {
    var k, t := IndexOf(es, fd), Updated(es, fd, mask, udata);
    if mask == NOTHING {
      assert k < |es| ==> forall i :: 0 <= i < |t| ==> t[i] == es[if i < k then i else i + 1];
    } else {
      assert t[if k < |es| then k else 0] == Entry(fd, mask, udata);
    }
  }

  /** The list never holds two entries for one descriptor, and refines the map. */
  lemma UpdatedRefines(es: seq<Entry>, fd: int, mask: Mask, udata: Pointer)
    requires OneEach(es)
    ensures OneEach(Updated(es, fd, mask, udata))
    ensures AsMap(Updated(es, fd, mask, udata)) == Registered(AsMap(es), fd, mask, (mask, udata))
  {
    UpdatedOneEach(es, fd, mask, udata);
    UpdatedKeeps(es, fd, mask, udata);
    SameMap(Updated(es, fd, mask, udata), es, fd, Registered(AsMap(es), fd, mask, (mask, udata)));
  }

  lemma EntryCounts(es: seq<Entry>, e: Entry)
    requires OneEach(es) && e in es
    ensures e.fd in AsMap(es) && AsMap(es)[e.fd] == (e.evn, e.udata)
  {
    var i :| 0 <= i < |es| && es[i] == e;
    Lookup(es, i);
  }

  lemma EntryFor(es: seq<Entry>, f: int) returns (e: Entry)
    requires OneEach(es) && f in AsMap(es)
    ensures e in es && e.fd == f && AsMap(es)[f] == (e.evn, e.udata)
  {
    var i :| 0 <= i < |es| && es[i].fd == f;
    Lookup(es, i);
    e := es[i];
  }

  /** A map is the map of a list if it has the list's entry for `fd` and otherwise those of
      a list that differs only there. */
  lemma SameMap(t: seq<Entry>, es: seq<Entry>, fd: int, m: Registrations)
    requires OneEach(t) && OneEach(es)
    requires forall e: Entry :: e.fd != fd ==> (e in t <==> e in es)
    requires forall f :: f != fd ==> (f in m <==> f in AsMap(es)) && (f in m ==> m[f] == AsMap(es)[f])
    requires if fd in m then Entry(fd, m[fd].0, m[fd].1) in t else forall e :: e in t ==> e.fd != fd
    ensures AsMap(t) == m
  {
    forall f | f in AsMap(t) ensures f in m && m[f] == AsMap(t)[f] {
      var e := EntryFor(t, f);
      if f != fd {
        EntryCounts(es, e);
      } else {
        EntryCounts(t, Entry(fd, m[fd].0, m[fd].1));
      }
    }
    forall f | f in m ensures f in AsMap(t) {
      if f != fd {
        var e := EntryFor(es, f);
        EntryCounts(t, e);
      } else {
        EntryCounts(t, Entry(fd, m[fd].0, m[fd].1));
      }
    }
  }

  function ListAfter(calls: seq<Call>): seq<Entry> {
    if calls == [] then []
    else
      var c := calls[|calls|-1];
      Updated(ListAfter(calls[..|calls|-1]), c.fd, c.mask, c.udata)
  }

  /** ... over every history of calls. */
  lemma {:induction false} HistoryRefines(calls: seq<Call>)
    ensures OneEach(ListAfter(calls)) && AsMap(ListAfter(calls)) == After(calls)
  {
    if calls != [] {
      var c := calls[|calls|-1];
      HistoryRefines(calls[..|calls|-1]);
      UpdatedRefines(ListAfter(calls[..|calls|-1]), c.fd, c.mask, c.udata);
    }
  }

  // ---- The queue ----

  datatype PollData = PollData(entry: Entry, index: nat)

  type PollNode = DNode<PollData>

  /** The first report of anything, or the number of reports. */
  function FirstReady(reports: seq<Report>): (k: nat)
    ensures k <= |reports| && (k < |reports| ==> ReadyOf(reports[k]) != NOTHING)
    ensures forall i :: 0 <= i < k ==> ReadyOf(reports[i]) == NOTHING
  {
    if reports == [] || ReadyOf(reports[0]) != NOTHING then 0 else 1 + FirstReady(reports[1..])
  }

  lemma FirstReadyIs(reports: seq<Report>, k: nat)
    requires k <= |reports| && (k < |reports| ==> ReadyOf(reports[k]) != NOTHING)
    requires forall i :: 0 <= i < k ==> ReadyOf(reports[i]) == NOTHING
    ensures FirstReady(reports) == k
  {
  }

  /** struct pollfd; its event bits are a mask. */
  datatype PollFd = PollFd(fd: int, events: Mask, revents: Report)
  const CLEAR := PollFd(0, NOTHING, Report(false, false, false))

  // ---- The growth of the array ----

  function NextCapacity(c: nat): nat {
    if c == 0 then 16 else 2 * c
  }

  /** An array of capacity `c` has to grow when `n` entries are filled. */
  predicate GrowsAt(c: nat, n: nat)
    decreases n - c
  {
    n == c || (n > c && GrowsAt(NextCapacity(c), n))
  }

  /** `n` entries are filled, from capacity `first` to capacity `c`, and every growth on the way
      succeeded. */
  ghost predicate Grown(first: nat, c: nat, n: nat, grows: nat -> bool) {
    && GrowsAt(first, c)
    && (forall g: nat :: g < n && GrowsAt(first, g) ==> grows(g))
    && (forall g: nat :: n <= g < c ==> !GrowsAt(first, g))
  }

  lemma {:induction false} GrowsBehind(first: nat, c: nat, g: nat)
    requires GrowsAt(first, c) && c < g
    ensures GrowsAt(first, g) <==> GrowsAt(NextCapacity(c), g)
    decreases c - first
  {
    if first < c {
      GrowsBehind(NextCapacity(first), c, g);
    }
  }

  lemma GrownStep(first: nat, c: nat, n: nat, grows: nat -> bool)
    requires Grown(first, c, n, grows) && n <= c && (n == c ==> grows(n))
    ensures Grown(first, if n < c then c else NextCapacity(c), n + 1, grows)
  {
    if n == c {
      GrowsBehind(first, c, NextCapacity(c));
      forall g: nat | n < g < NextCapacity(c) ensures !GrowsAt(first, g) {
        GrowsBehind(first, c, g);
      }
    }
  }

  class PollQueue {
    const list: DList<PollData>
    ghost var entries: seq<Entry>      // the registrations, in list order
    ghost var members: set<PollNode>   // holds every node of the list
    var fds: array<PollFd>
    var cap: nat

    ghost predicate EntryAt(i: nat)
      requires i < |entries| == |list.nodes|
      reads this`entries, this`members, list`nodes, list.nodes`item
    {
      list.nodes[i].item.entry == entries[i] && list.nodes[i] in members
    }

    ghost predicate Valid()
      reads this, list, list.nodes
    {
      && list.Valid() && OneEach(entries) && |entries| == |list.nodes|
      && forall i :: 0 <= i < |entries| ==> EntryAt(i)
    }

    /** yoi_queue_impl_init */
    constructor ()
      ensures Valid() && Roomy() && entries == [] && cap == 0 && members == {} && fresh(list) && fresh(fds)
    {
      list := new DList<PollData>();
      entries, members, cap := [], {}, 0;
      fds := new PollFd[0];
    }

    /** The array has the recorded capacity. */
    predicate Roomy()
      reads this
    {
      fds.Length == cap
    }

    /** The capacity after `n` entries were needed, if it was `c`. */
    static function FirstCapacity(c: nat): nat {
      if c == 0 then 16 else c
    }

    /** Both loops of yoi_pl_impl_setmask: the node of `fd`, or null. */
    method Find(fd: int) returns (res: DNode?<PollData>)
      requires Valid()
      ensures var k := IndexOf(entries, fd); res == if k < |entries| then list.nodes[k] else null
    {
      res := list.head;
      ghost var k := 0;
      while res != null
        invariant 0 <= k <= |entries| && res == (if k < |entries| then list.nodes[k] else null)
        invariant forall i :: 0 <= i < k ==> entries[i].fd != fd
        decreases |entries| - k
      {
        assert list.LinkedAt(list.nodes, k) && EntryAt(k);
        if res.item.entry.fd == fd {
          IndexOfIs(entries, fd, k);
          return;
        }
        res := res.next;
        k := k + 1;
      }
      IndexOfIs(entries, fd, k);
    }

    method Drop(i: PollNode, ghost k: nat)
      requires Valid() && k < |entries| && list.nodes[k] == i
      modifies this`entries, list, members
      ensures Valid() && entries == old(entries)[..k] + old(entries)[k+1..]
    {
      ghost var s, e := list.nodes, entries;
      assert list.LinkedAt(s, k) && EntryAt(k);
      assert k > 0 ==> EntryAt(k - 1);
      assert k + 1 < |s| ==> EntryAt(k + 1);
      Unlink(i, list, list);
      WithoutIndex(s, k);
      entries := e[..k] + e[k+1..];
      forall j | 0 <= j < |entries| ensures EntryAt(j) {
        assert old(EntryAt(if j < k then j else j + 1));
      }
    }

    method Insert(entry: Entry)
      requires Valid() && forall e :: e in entries ==> e.fd != entry.fd
      modifies this`entries, this`members, list, members`slot
      ensures Valid() && entries == [entry] + old(entries) && fresh(members - old(members))
    {
      ghost var e := entries;
      var i := new DNode<PollData>(PollData(entry, 0));
      assert list.nodes != [] ==> EntryAt(0);
      list.Add(i, list);
      entries := [entry] + entries;
      members := members + {i};
      forall j | 0 <= j < |entries| ensures EntryAt(j) {
        assert j > 0 ==> old(EntryAt(j - 1));
      }
    }

    /** yoi_pl_impl_setmask.  `memory` says whether malloc would succeed. */
    method SetMask(udata: Pointer, fd: int, mask: Mask, memory: bool) returns (code: Code)
      requires Valid()
      modifies this`entries, this`members, list, members
      ensures Valid() && fresh(members - old(members))
      ensures code == if mask != NOTHING && IndexOf(old(entries), fd) == |old(entries)| && !memory then ENOMEM else OK
      ensures entries == if code == OK then Updated(old(entries), fd, mask, udata) else old(entries)
    {
      ghost var k, e := IndexOf(entries, fd), entries;
      var i := Find(fd);
      if mask == NOTHING {
        if i != null {
          Drop(i, k);
        }
        return OK;
      }
      if i == null {
        if !memory {
          return ENOMEM;
        }
        Insert(Entry(fd, mask, udata));
        return OK;
      }
      assert EntryAt(k);
      i.item := i.item.(entry := Entry(fd, mask, udata));
      entries := entries[k := Entry(fd, mask, udata)];
      forall j | 0 <= j < |entries| ensures EntryAt(j) {
        assert old(EntryAt(j)) && Differ(list.nodes, j, k);
      }
      assert Valid() by {
        UpdatedOneEach(e, fd, mask, udata);
        assert list.Valid();
      }
      return OK;
    }

    // ---- The array ----

    /** _yoi_poll_addfd.  `grows` says whether realloc would succeed.  The entry it clears is
        the one after the entry it fills; `inside` says whether the array has it, and the
        model leaves out a write that it has not. */
    method AddFd(node: PollNode, pn: nat, grows: bool) returns (ok: bool, n: nat, inside: bool)
      requires Roomy() && pn <= cap
      modifies this`fds, this`cap, fds, node`item
      ensures cap == if pn < old(cap) then old(cap) else if old(cap) == 0 then 16 else 2 * old(cap)
      ensures ok <==> pn < old(cap) || grows
      ensures ok <==> Roomy()
      ensures ok ==> n == pn + 1 <= cap && node.item == old(node.item).(index := pn)
      ensures ok ==> fds[..pn] == old(fds[..pn]) && (fds == old(fds) || fresh(fds))
      ensures ok ==> fds[pn].fd == node.item.entry.fd && fds[pn].events == node.item.entry.evn
      ensures ok ==> (inside <==> n < cap) && (inside ==> fds[n] == CLEAR)
      ensures !ok ==> n == pn && node.item == old(node.item) && fds == old(fds) && fds[..] == old(fds[..])
    {
      n := pn;
      if n >= cap {
        cap := 2 * cap;
        if cap == 0 {
          cap := 16;
        }
        if !grows {
          return false, n, true;
        }
        Reallocate();
      }
      var target := n;
      n := n + 1;
      inside := n < fds.Length;
      if inside {
        fds[n] := CLEAR;
      }
      var events := NOTHING;
      if node.item.entry.evn.readable {
        events := events.(readable := true);
      }
      if node.item.entry.evn.writable {
        events := events.(writable := true);
      }
      fds[target] := fds[target].(fd := node.item.entry.fd, events := events);
      node.item := node.item.(index := target);
      ok := true;
    }

    method Reallocate()
      requires fds.Length <= cap
      modifies this`fds
      ensures Roomy() && fresh(fds) && fds[..old(fds.Length)] == old(fds[..])
    {
      var bigger := new PollFd[cap];
      forall i | 0 <= i < fds.Length {
        bigger[i] := fds[i];
      }
      fds := bigger;
    }

    /** Entry `i` of the array describes node `i` of the list, which knows where it is. */
    ghost predicate SnapAt(i: nat)
      requires i < |entries| == |list.nodes|
      reads this, list`nodes, list.nodes`item, fds
    {
      && list.nodes[i].item.index == i < fds.Length
      && fds[i].fd == entries[i].fd && fds[i].events == entries[i].evn
    }

    /** One turn of the first loop: node `it` is the `pn`-th. */
    method AddNext(it: PollNode, pn: nat, grows: bool) returns (ok: bool, n: nat, inside: bool)
      requires Valid() && Roomy() && pn < |entries| && pn <= cap && list.nodes[pn] == it
      requires forall i :: 0 <= i < pn ==> SnapAt(i)
      modifies this`fds, this`cap, fds, it`item
      ensures Valid() && (ok <==> Roomy()) && (ok <==> pn < old(cap) || grows)
      ensures cap == if pn < old(cap) then old(cap) else if old(cap) == 0 then 16 else 2 * old(cap)
      ensures ok ==> n == pn + 1 <= cap && (inside <==> n < cap)
      ensures ok ==> (forall i :: 0 <= i < n ==> SnapAt(i)) && (fds == old(fds) || fresh(fds))
      ensures !ok ==> n == pn && fds == old(fds)
    {
      ok, n, inside := AddFd(it, pn, grows);
      forall i | 0 <= i < |entries| ensures EntryAt(i) {
        assert old(EntryAt(i)) && Differ(list.nodes, i, pn);
      }
      if ok {
        forall i | 0 <= i < pn ensures SnapAt(i) {
          assert old(SnapAt(i)) && Differ(list.nodes, i, pn);
          assert fds[..pn][i] == old(fds[..pn])[i];
        }
        assert EntryAt(pn) && SnapAt(pn);
      }
    }

    /** The first loop of yoi_pl_impl_poll.  `grows(i)` says whether realloc would succeed
        when `i` entries are filled: the build fails if and only if it would not at one of the
        capacities reached.  It clears only entries the array has if and only if it does not
        fill the first capacity it has. */
    method Build(grows: nat -> bool) returns (ok: bool, n: nat, inside: bool)
      requires Valid() && Roomy()
      modifies this`fds, this`cap, fds, members`item
      ensures Valid() && (ok <==> Roomy())
      ensures ok ==> n == |entries| <= cap && forall i :: 0 <= i < |entries| ==> SnapAt(i)
      ensures ok ==> (inside <==> |entries| < FirstCapacity(old(cap)))
      ensures ok <==> forall g: nat :: g < |entries| && GrowsAt(old(cap), g) ==> grows(g)
      ensures !ok ==> n < |entries| && GrowsAt(old(cap), n) && !grows(n) && (inside <==> n == 0)
      ensures !ok ==> forall g: nat :: g < n && GrowsAt(old(cap), g) ==> grows(g)
      ensures fds == old(fds) || fresh(fds)
    {
      n, inside := 0, true;
      ghost var c := FirstCapacity(cap);
      var it := list.head;
      while it != null
        invariant if n == 0 then inside && cap == old(cap) else (inside <==> n < c) && c <= cap && (n <= c ==> cap == c)
        invariant Valid() && Roomy() && n <= |entries| && n <= cap && Grown(old(cap), cap, n, grows)
        invariant it == if n < |entries| then list.nodes[n] else null
        invariant forall i :: 0 <= i < n ==> SnapAt(i)
        invariant fds == old(fds) || fresh(fds)
        decreases |entries| - n
      {
        assert list.LinkedAt(list.nodes, n) && EntryAt(n);
        var lands;
        if n < cap || grows(n) {
          GrownStep(old(cap), cap, n, grows);
        }
        ok, n, lands := AddNext(it, n, grows(n));
        if !ok {
          return;
        }
        inside := inside && lands;
        it := it.next;
      }
      ok := true;
    }

    /** _yoi_poll_wrapper: the kernel fills in what it has to report, in array order. */
    method Wait(n: nat, reports: seq<Report>)
      requires |reports| == n <= fds.Length
      modifies fds
      ensures forall i :: 0 <= i < n ==> fds[i] == old(fds[i]).(revents := reports[i])
    {
      forall i | 0 <= i < n {
        fds[i] := fds[i].(revents := reports[i]);
      }
    }

    /** The second loop of yoi_pl_impl_poll. */
    method Scan(ghost reports: seq<Report>) returns (code: Code, udata: Pointer, ready: Mask)
      requires Valid() && |reports| == |entries|
      requires forall i :: 0 <= i < |entries| ==> SnapAt(i) && fds[i].revents == reports[i]
      ensures var k := FirstReady(reports);
        if k == |reports| then code == ETIMEOUT
        else code == OK && udata == entries[k].udata && ready == ReadyOf(reports[k])
    {
      udata, ready := 0, NOTHING;
      var it := list.head;
      ghost var k := 0;
      while it != null
        invariant 0 <= k <= |entries| && it == (if k < |entries| then list.nodes[k] else null)
        invariant forall i :: 0 <= i < k ==> ReadyOf(reports[i]) == NOTHING
        decreases |entries| - k
      {
        assert list.LinkedAt(list.nodes, k) && EntryAt(k) && SnapAt(k);
        var revents := fds[it.item.index].revents;
        ready := NOTHING;
        if revents.input || revents.failure {
          ready := ready.(readable := true);
        }
        if revents.output || revents.failure {
          ready := ready.(writable := true);
        }
        if ready != NOTHING {
          FirstReadyIs(reports, k);
          return OK, it.item.entry.udata, ready;
        }
        it := it.next;
        k := k + 1;
      }
      FirstReadyIs(reports, k);
      code := ETIMEOUT;
    }

    /** yoi_pl_impl_poll: the first registration, in list order, that the kernel has something
        to report for, or a timeout exactly when it has nothing to report.  Running out of
        memory is the one other outcome; the array then no longer matches its recorded
        capacity. */
    method Poll(grows: nat -> bool, reports: seq<Report>)
      returns (code: Code, udata: Pointer, ready: Mask, inside: bool)
      requires Valid() && Roomy() && |reports| == |entries|
      modifies this`fds, this`cap, fds, members`item
      ensures Valid() && (code != ENOMEM <==> Roomy())
      ensures code != ENOMEM ==> (inside <==> |entries| < FirstCapacity(old(cap)))
      ensures code == ENOMEM <==> exists g: nat :: g < |entries| && GrowsAt(old(cap), g) && !grows(g)
      ensures code == ENOMEM ==> (inside <==> old(cap) == 0 && !grows(0))
      ensures code != ENOMEM ==>
        var k := FirstReady(reports);
        if k == |reports| then code == ETIMEOUT
        else code == OK && udata == entries[k].udata && ready == ReadyOf(reports[k])
    {
      var ok, n;
      ok, n, inside := Build(grows);
      if !ok {
        assert GrowsAt(old(cap), 0) <==> old(cap) == 0;
        return ENOMEM, 0, NOTHING, inside;
      }
      label Built:
      Wait(n, reports);
      forall i | 0 <= i < |entries| ensures SnapAt(i) && fds[i].revents == reports[i] {
        assert old@Built(SnapAt(i));
      }
      code, udata, ready := Scan(reports);
    }
  }
}
