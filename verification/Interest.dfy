/** What a poll backend promises (src/unix/pollish.h:59-66), independently of how it keeps
    its registrations: a finite map from descriptors to the mask and the pointer registered
    with them.  Both backends are proved against this module. */
module Interest {
  import opened FdAccounting

  const ENOMEM: Code := -34

  /** The pointer registered with a descriptor; 0 stands for NULL. */
  type Pointer = int

  type Registrations = map<int, (Mask, Pointer)>

  /** One successful call of yoi_pl_impl_setmask, and what a history of them amounts to. */
  datatype Call = Call(fd: int, mask: Mask, udata: Pointer)

  function After(calls: seq<Call>): Registrations {
    if calls == [] then map[]
    else
      var c := calls[|calls|-1];
      Registered(After(calls[..|calls|-1]), c.fd, c.mask, (c.mask, c.udata))
  }

  /** A descriptor is registered if and only if its last call asked for something, and then
      with what that call said. */
  lemma {:induction false} LastCallDecides(calls: seq<Call>, fd: int, i: nat)
    requires i < |calls| && calls[i].fd == fd && forall j :: i < j < |calls| ==> calls[j].fd != fd
    ensures fd in After(calls) <==> calls[i].mask != NOTHING
    ensures fd in After(calls) ==> After(calls)[fd] == (calls[i].mask, calls[i].udata)
  {
    if i < |calls| - 1 {
      LastCallDecides(calls[..|calls|-1], fd, i);
    }
  }

  /** The conditions a kernel reports for a descriptor: input, output, and what it reports
      unasked. */
  datatype Report = Report(input: bool, output: bool, failure: bool)

  /** A kernel reports only what was asked for, or a failure. */
  predicate Honest(report: Report, asked: Mask) {
    (report.input ==> asked.readable) && (report.output ==> asked.writable)
  }

  /** Errors and hangups are handed to readers and writers alike. */
  function ReadyOf(report: Report): Mask {
    Mask(report.input || report.failure, report.output || report.failure)
  }

  /** An honest report of something is one the engine's poll step may rely on, and every
      such mask has an honest report behind it. */
  lemma HonestIsReportable(asked: Mask, ready: Mask)
    ensures asked != NOTHING && ready != NOTHING && (exists r :: Honest(r, asked) && ReadyOf(r) == ready)
      <==> Reportable(asked, ready)
  {
    if Reportable(asked, ready) {
      var r := if Within(ready, asked) then Report(ready.readable, ready.writable, false)
               else Report(false, false, true);
      assert Honest(r, asked) && ReadyOf(r) == ready;
    }
  }
}
