/** The epoll backend (src/unix/epoll.c). */
module EpollBackend {
  import opened FdAccounting
  import opened Interest

  datatype Errno = NoEntry | Exists | Other(code: Code)

  datatype Op = Add | Mod | Del

  /** The event bits of struct epoll_event.  `always` stands for EPOLLRDHUP, EPOLLERR and
      EPOLLHUP, which the code requests and tests together. */
  datatype Events = Events(input: bool, output: bool, always: bool)

  /** The interest set of one epoll descriptor. */
  class Kernel {
    var interest: map<int, (Events, Pointer)>

    /** epoll_ctl(2): ENOENT and EEXIST say whether `fd` is registered; any other fault is the
        kernel's choice and changes nothing. */
    method Ctl(op: Op, fd: int, events: Events, udata: Pointer, fault: Option<Code>) returns (errno: Option<Errno>)
      modifies this
      ensures errno == (
        if fault.Some? then Some(Other(fault.value))
        else if op == Add && fd in old(interest) then Some(Exists)
        else if op != Add && fd !in old(interest) then Some(NoEntry)
        else None)
      ensures interest == (
        if errno.Some? then old(interest)
        else if op == Del then old(interest) - {fd}
        else old(interest)[fd := (events, udata)])
    {
      if fault.Some? {
        return Some(Other(fault.value));
      }
      if op == Add && fd in interest {
        return Some(Exists);
      }
      if op != Add && fd !in interest {
        return Some(NoEntry);
      }
      interest := if op == Del then interest - {fd} else interest[fd := (events, udata)];
      return None;
    }

    /** The registrations the backend has made: each asks for something, and for failures. */
    ghost predicate Valid()
      reads this
    {
      forall fd :: fd in interest ==>
        interest[fd].0.always && (interest[fd].0.input || interest[fd].0.output)
    }

    ghost function View(): Registrations
      reads this
    {
      map fd | fd in interest :: (Mask(interest[fd].0.input, interest[fd].0.output), interest[fd].1)
    }
  }

  /** yoi_unix_conv_errno of what epoll_ctl left in errno. */
  function Convert(errno: Errno): Code {
    match errno
    case NoEntry => -10
    case Exists => -12
    case Other(code) => code
  }

  /** yoi_pl_impl_setmask: an upsert or a removal, made of MOD, ADD and DEL.  `first` and
      `second` are the kernel's own faults in the two calls it may take. */
  method SetMask(kernel: Kernel, udata: Pointer, fd: int, mask: Mask, first: Option<Code>, second: Option<Code>)
    returns (code: Code)
    requires kernel.Valid() && first != Some(OK) && second != Some(OK)
    modifies kernel
    ensures kernel.Valid()
    ensures kernel.View()
         == if code == OK then Registered(old(kernel.View()), fd, mask, (mask, udata)) else old(kernel.View())
    ensures code == (
      if first.Some? then first.value
      else if mask != NOTHING && fd !in old(kernel.View()) && second.Some? then second.value
      else OK)
  {
    var events := Events(false, false, true);
    if mask.readable {
      events := events.(input := true);
    }
    if mask.writable {
      events := events.(output := true);
    }
    var errno;
    if mask == NOTHING {
      errno := kernel.Ctl(Del, fd, events, udata, first);
      if errno.None? || errno == Some(NoEntry) {
        return OK;
      }
      return Convert(errno.value);
    }
    errno := kernel.Ctl(Mod, fd, events, udata, first);
    if errno == Some(NoEntry) {
      errno := kernel.Ctl(Add, fd, events, udata, second);
    }
    return if errno.None? then OK else Convert(errno.value);
  }

  /** epoll_wait(2) returns only events that were asked for. */
  predicate Returned(events: Events, asked: Events) {
    && (events.input ==> asked.input) && (events.output ==> asked.output) && (events.always ==> asked.always)
  }

  /** What the poll step makes of returned events. */
  function Ready(events: Events): Mask {
    ReadyOf(Report(events.input, events.output, events.always))
  }

  /** The masks the kernel can make the poll step see, for a registration as `SetMask` leaves it,
      are exactly those the engine reckons with. */
  lemma ReturnedIsReportable(kernel: Kernel, fd: int, ready: Mask)
    requires kernel.Valid() && fd in kernel.interest
    ensures ready != NOTHING && (exists e :: Returned(e, kernel.interest[fd].0) && Ready(e) == ready)
      <==> Reportable(kernel.View()[fd].0, ready)
  {
    var asked, mask := kernel.interest[fd].0, kernel.View()[fd].0;
    if Reportable(mask, ready) {
      var e := if Within(ready, mask) then Events(ready.readable, ready.writable, false)
               else Events(false, false, true);
      assert Returned(e, asked) && Ready(e) == ready;
    }
  }

  /** The events epoll_wait returned, as the poll step tests them. */
  method ToMask(events: Events) returns (mask: Mask)
    ensures mask == Ready(events)
  {
    mask := NOTHING;
    if events.always || events.input {
      mask := mask.(readable := true);
    }
    if events.always || events.output {
      mask := mask.(writable := true);
    }
  }
}
