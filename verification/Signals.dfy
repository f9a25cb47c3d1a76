/** Reference-counted signal handling (src/unix/impl.c:44-47, 243-262, 988-1101): a
    logical signal stands for one or more signals of the system, which are blocked while
    anybody has it switched on. */
module Signals {
  import opened FdAccounting

  /** yo_signo_t */
  type Signal = s: nat | s < SIGNALS
  const SIGNALS := 11
  const SIGINT: Signal := 0
  const SIGQUIT: Signal := 1
  const SIGABRT: Signal := 2
  const SIGTERM: Signal := 3
  const SIGBADMEM: Signal := 4
  const SIGBADOP: Signal := 5
  const SIGBADPIPE: Signal := 6
  const SIGTSIZE: Signal := 7
  const SIGTLOST: Signal := 8
  const SIGUSR1: Signal := 9
  const SIGUSR2: Signal := 10

  /** The system's signals. */
  datatype Os =
    | HUP | INT | QUIT | ILL | ABRT | BUS | FPE | USR1 | SEGV | USR2 | PIPE | TERM | STKFLT | WINCH | SYS
    | Unlisted(number: int)

  /** yoi_unix_conv_signal */
  function Convert(os: Os): Option<Signal> {
    match os
    case HUP => Some(SIGTLOST)
    case INT => Some(SIGINT)
    case QUIT => Some(SIGQUIT)
    case ILL => Some(SIGBADOP)
    case ABRT => Some(SIGABRT)
    case BUS => Some(SIGBADMEM)
    case FPE => Some(SIGBADOP)
    case USR1 => Some(SIGUSR1)
    case SEGV => Some(SIGBADMEM)
    case USR2 => Some(SIGUSR2)
    case PIPE => Some(SIGBADPIPE)
    case TERM => Some(SIGTERM)
    case STKFLT => Some(SIGBADMEM)
    case WINCH => Some(SIGTSIZE)
    case SYS => Some(SIGBADOP)
    case Unlisted(_) => None
  }

  /** The signals the switches of yo_sig_on and yo_sig_off add and remove. */
  function Members(sig: Signal): set<Os> {
    if sig == SIGINT then {INT}
    else if sig == SIGQUIT then {QUIT}
    else if sig == SIGABRT then {ABRT}
    else if sig == SIGTERM then {TERM}
    else if sig == SIGBADMEM then {SEGV, BUS, STKFLT}
    else if sig == SIGBADOP then {ILL, FPE, SYS}
    else if sig == SIGBADPIPE then {PIPE}
    else if sig == SIGTSIZE then {WINCH}
    else if sig == SIGTLOST then {HUP}
    else if sig == SIGUSR1 then {USR1}
    else {USR2}
  }

  /** The two tables are inverse to each other. */
  lemma TablesAgree(os: Os, sig: Signal)
    ensures os in Members(sig) <==> Convert(os) == Some(sig)
  {
  }

  /** The signals inc/yaooi/signo.h says a logical signal stands for. */
  function Documented(sig: Signal): set<Os> {
    [{INT}, {QUIT}, {ABRT}, {TERM}, {SEGV, BUS, STKFLT}, {ILL, SYS}, {PIPE}, {WINCH}, {HUP}, {USR1}, {USR2}][sig]
  }

  /** The code does what the header says, for every signal of the system but one: a
      floating-point error counts as a bad operation. */
  lemma DocumentedIff(os: Os, sig: Signal)
    ensures os in Members(sig) <==> os in Documented(sig) || (os == FPE && sig == SIGBADOP)
  {
  }

  lemma MembersExist(sig: Signal)
    ensures exists os :: os in Members(sig)
  {
    var all := [INT, QUIT, ABRT, TERM, SEGV, ILL, PIPE, WINCH, HUP, USR1, USR2];
    assert all[sig] in Members(sig);
  }

  // ---- One call ----

  /** `recorded` is _core_sig_set, and `kernel` the mask the process really has. */
  datatype SigState = SigState(counts: seq<nat>, recorded: set<Os>, kernel: set<Os>)

  /** yo_sig_on or yo_sig_off, with the result of the mask call it makes, if it makes one. */
  datatype Call = On(sig: Signal, r: int) | Off(sig: Signal, r: int)

  /** Only the first `on` and the last `off` of a signal change the mask. */
  predicate CallsMask(st: SigState, c: Call)
    requires |st.counts| == SIGNALS
  {
    st.counts[c.sig] == if c.On? then 0 else 1
  }

  predicate Refused(st: SigState, c: Call)
    requires |st.counts| == SIGNALS
  {
    CallsMask(st, c) && c.r < 0
  }

  function Wanted(st: SigState, c: Call): set<Os> {
    if c.On? then st.recorded + Members(c.sig) else st.recorded - Members(c.sig)
  }

  function NewCount(n: nat, c: Call): nat {
    if c.On? then n + 1 else if n > 0 then n - 1 else 0
  }

  function Step(st: SigState, c: Call): (r: SigState)
    requires |st.counts| == SIGNALS
    ensures |r.counts| == SIGNALS
  {
    if Refused(st, c) then st
    else
      var counted := st.(counts := st.counts[c.sig := NewCount(st.counts[c.sig], c)]);
      if !CallsMask(st, c) then counted
      else counted.(recorded := Wanted(st, c), kernel := if c.r == 0 then Wanted(st, c) else st.kernel)
  }

  class SignalTable {
    const counts: array<nat>
    var recorded: set<Os>
    var kernel: set<Os>

    predicate Valid()
      reads this
    {
      counts.Length == SIGNALS
    }

    function View(): SigState
      reads this, counts
    {
      SigState(counts[..], recorded, kernel)
    }

    /** _yoi_sig_init; the process starts with whatever mask it inherited. */
    constructor (inherited: set<Os>)
      ensures Valid() && fresh(counts)
      ensures View() == Initial(inherited)
    {
      counts := new nat[SIGNALS](_ => 0);
      recorded, kernel := {}, inherited;
      new;
      assert counts[..] == seq(SIGNALS, _ => 0);
    }

    /** sigprocmask or pthread_sigmask with SIG_SETMASK: `r` is its result, and only 0 means
        that it did anything. */
    method SetKernelMask(r: int)
      modifies this`kernel
      ensures kernel == if r == 0 then recorded else old(kernel)
    {
      if r == 0 {
        kernel := recorded;
      }
    }

    /** yo_sig_on */
    method SigOn(sig: Signal, r: int, errno: Code) returns (code: Code)
      requires Valid() && errno != OK
      modifies this, counts
      ensures Valid() && View() == Step(old(View()), On(sig, r))
      ensures code == if Refused(old(View()), On(sig, r)) then errno else OK
    {
      if counts[sig] == 0 {
        var oldSet := recorded;
        recorded := recorded + Members(sig);
        SetKernelMask(r);
        if r < 0 {
          recorded := oldSet;
          return errno;
        }
      }
      counts[sig] := counts[sig] + 1;
      return OK;
    }

    /** yo_sig_off */
    method SigOff(sig: Signal, r: int, errno: Code) returns (code: Code)
      requires Valid() && errno != OK
      modifies this, counts
      ensures Valid() && View() == Step(old(View()), Off(sig, r))
      ensures code == if Refused(old(View()), Off(sig, r)) then errno else OK
    {
      if counts[sig] == 1 {
        var oldSet := recorded;
        recorded := recorded - Members(sig);
        SetKernelMask(r);
        if r < 0 {
          recorded := oldSet;
          return errno;
        }
      }
      if counts[sig] > 0 {
        counts[sig] := counts[sig] - 1;
      }
      return OK;
    }
  }

  function Initial(inherited: set<Os>): SigState {
    SigState(seq(SIGNALS, _ => 0), {}, inherited)
  }

  // ---- Histories ----

  function Run(st: SigState, calls: seq<Call>): (r: SigState)
    requires |st.counts| == SIGNALS
    ensures |r.counts| == SIGNALS
    decreases |calls|
  {
    if calls == [] then st else Run(Step(st, calls[0]), calls[1..])
  }

  /** The recorded set is the union of the signals that somebody has on. */
  ghost predicate IsUnion(st: SigState)
    requires |st.counts| == SIGNALS
  {
    forall os :: os in st.recorded <==> exists sig: Signal :: st.counts[sig] > 0 && os in Members(sig)
  }

  /** Equivalently, a signal of the system is in the set if and only if it converts to a
      logical signal that is on. */
  ghost predicate IsConverted(st: SigState)
    requires |st.counts| == SIGNALS
  {
    forall os :: os in st.recorded <==> Convert(os).Some? && st.counts[Convert(os).value] > 0
  }

  lemma UnionByConversion(st: SigState)
    requires |st.counts| == SIGNALS
    ensures IsUnion(st) <==> IsConverted(st)
  {
    forall os: Os, sig: Signal ensures os in Members(sig) <==> Convert(os) == Some(sig) {
      TablesAgree(os, sig);
    }
  }

  lemma StepKeepsConversion(st: SigState, c: Call)
    requires |st.counts| == SIGNALS && IsConverted(st)
    ensures IsConverted(Step(st, c))
  {
    var st' := Step(st, c);
    forall os ensures os in st'.recorded <==> Convert(os).Some? && st'.counts[Convert(os).value] > 0 {
      TablesAgree(os, c.sig);
    }
  }

  lemma StepKeepsUnion(st: SigState, c: Call)
    requires |st.counts| == SIGNALS && IsUnion(st)
    ensures IsUnion(Step(st, c))
  {
    UnionByConversion(st);
    StepKeepsConversion(st, c);
    UnionByConversion(Step(st, c));
  }

  /** Over every history of calls, whatever the mask calls return. */
  lemma {:induction false} AlwaysUnion(inherited: set<Os>, calls: seq<Call>)
    ensures IsUnion(Run(Initial(inherited), calls))
  {
    UnionAfter(Initial(inherited), calls);
  }

  lemma {:induction false} UnionAfter(st: SigState, calls: seq<Call>)
    requires |st.counts| == SIGNALS && IsUnion(st)
    ensures IsUnion(Run(st, calls))
    decreases |calls|
  {
    if calls != [] {
      StepKeepsUnion(st, calls[0]);
      UnionAfter(Step(st, calls[0]), calls[1..]);
    }
  }

  // ---- The mask the process really has ----

  /** The mask call of this call fails without being noticed: pthread_sigmask reports failure
      with a positive number, and the code looks for a negative one. */
  predicate FailsSilently(st: SigState, c: Call)
    requires |st.counts| == SIGNALS
  {
    CallsMask(st, c) && c.r > 0
  }

  /** From a state in sync, one call stays in sync exactly when it does not fail like that. */
  lemma InSyncIff(st: SigState, c: Call)
    requires |st.counts| == SIGNALS && IsUnion(st) && st.kernel == st.recorded
    ensures Step(st, c).kernel == Step(st, c).recorded <==> !FailsSilently(st, c)
  {
    MembersExist(c.sig);
    var os :| os in Members(c.sig);
    TablesAgree(os, c.sig);
    UnionByConversion(st);
    assert CallsMask(st, c) ==> (os in Wanted(st, c) <==> os !in st.recorded);
  }

  /** Every mask call of a history either succeeds or fails noticed. */
  ghost predicate NeverSilent(st: SigState, calls: seq<Call>)
    requires |st.counts| == SIGNALS
    decreases |calls|
  {
    calls == [] || (!FailsSilently(st, calls[0]) && NeverSilent(Step(st, calls[0]), calls[1..]))
  }

  /** The mask equals the recorded set after every prefix of a history. */
  ghost predicate AlwaysInSync(st: SigState, calls: seq<Call>)
    requires |st.counts| == SIGNALS
  {
    forall i :: 0 <= i <= |calls| ==> Run(st, calls[..i]).kernel == Run(st, calls[..i]).recorded
  }

  lemma {:induction false} InSyncTail(st: SigState, calls: seq<Call>)
    requires |st.counts| == SIGNALS && calls != []
    ensures AlwaysInSync(st, calls) <==> st.kernel == st.recorded && AlwaysInSync(Step(st, calls[0]), calls[1..])
  {
    var next, rest := Step(st, calls[0]), calls[1..];
    forall i | 0 <= i < |calls| ensures Run(st, calls[..i+1]) == Run(next, rest[..i]) {
      assert calls[..i+1][0] == calls[0] && calls[..i+1][1..] == rest[..i];
    }
    assert calls[..0] == [];
    if AlwaysInSync(st, calls) {
      assert Run(st, calls[..0]) == st;
      forall i | 0 <= i <= |rest| ensures Run(next, rest[..i]).kernel == Run(next, rest[..i]).recorded {
        assert Run(st, calls[..i+1]) == Run(next, rest[..i]);
      }
    }
    if st.kernel == st.recorded && AlwaysInSync(next, rest) {
      forall i | 0 <= i <= |calls| ensures Run(st, calls[..i]).kernel == Run(st, calls[..i]).recorded {
        assert i > 0 ==> Run(st, calls[..i]) == Run(next, rest[..i-1]);
      }
    }
  }

  /** From a state in sync, the process mask is the recorded set after every prefix of a
      history if and only if no mask call in it fails silently. */
  lemma {:induction false} InSyncThroughoutIff(st: SigState, calls: seq<Call>)
    requires |st.counts| == SIGNALS && IsUnion(st) && st.kernel == st.recorded
    ensures AlwaysInSync(st, calls) <==> NeverSilent(st, calls)
    decreases |calls|
  {
    if calls == [] {
      assert calls[..0] == [];
    } else {
      InSyncTail(st, calls);
      InSyncIff(st, calls[0]);
      if FailsSilently(st, calls[0]) {
        assert Run(Step(st, calls[0]), calls[1..][..0]) == Step(st, calls[0]);
      } else {
        StepKeepsUnion(st, calls[0]);
        InSyncThroughoutIff(Step(st, calls[0]), calls[1..]);
      }
    }
  }

  /** What the last mask call that took effect recorded, if there was one. */
  function LastSet(st: SigState, calls: seq<Call>): Option<set<Os>>
    requires |st.counts| == SIGNALS
    decreases |calls|
  {
    if calls == [] then None
    else
      var later := LastSet(Step(st, calls[0]), calls[1..]);
      if later.Some? then later
      else if CallsMask(st, calls[0]) && calls[0].r == 0 then Some(Wanted(st, calls[0]))
      else None
  }

  /** After any history the process mask is what the last effective mask call recorded, or the
      mask there was before, if no call took effect. */
  lemma {:induction false} KernelIsLastSet(st: SigState, calls: seq<Call>)
    requires |st.counts| == SIGNALS
    ensures Run(st, calls).kernel == match LastSet(st, calls) case Some(m) => m case None => st.kernel
    decreases |calls|
  {
    if calls != [] {
      KernelIsLastSet(Step(st, calls[0]), calls[1..]);
    }
  }

  /** Once a mask call took effect, and until one fails silently, the mask is the recorded
      set, whatever was inherited. */
  lemma {:induction false} EffectSyncs(st: SigState, calls: seq<Call>)
    requires |st.counts| == SIGNALS && NeverSilent(st, calls) && LastSet(st, calls).Some?
    ensures Run(st, calls).kernel == Run(st, calls).recorded
    decreases |calls|
  {
    var next, rest := Step(st, calls[0]), calls[1..];
    if LastSet(next, rest).Some? {
      EffectSyncs(next, rest);
    } else {
      StaysInSync(next, rest);
    }
  }

  lemma {:induction false} StaysInSync(st: SigState, calls: seq<Call>)
    requires |st.counts| == SIGNALS && NeverSilent(st, calls) && st.kernel == st.recorded
    ensures Run(st, calls).kernel == Run(st, calls).recorded
    decreases |calls|
  {
    if calls != [] {
      StaysInSync(Step(st, calls[0]), calls[1..]);
    }
  }

  // ---- Balanced use ----

  /** This call raises the counter of `sig`, ... */
  predicate Raises(st: SigState, c: Call, sig: Signal)
    requires |st.counts| == SIGNALS
  {
    c.On? && c.sig == sig && !Refused(st, c)
  }

  /** ... or lowers it: an `off` that finds the counter at zero undoes nothing. */
  predicate Lowers(st: SigState, c: Call, sig: Signal)
    requires |st.counts| == SIGNALS
  {
    c.Off? && c.sig == sig && st.counts[sig] > 0 && !Refused(st, c)
  }

  /** How many calls of a history raise the counter of `sig`, and how many lower it. */
  function Ons(st: SigState, calls: seq<Call>, sig: Signal): nat
    requires |st.counts| == SIGNALS
    decreases |calls|
  {
    if calls == [] then 0
    else (if Raises(st, calls[0], sig) then 1 else 0) + Ons(Step(st, calls[0]), calls[1..], sig)
  }

  function Offs(st: SigState, calls: seq<Call>, sig: Signal): nat
    requires |st.counts| == SIGNALS
    decreases |calls|
  {
    if calls == [] then 0
    else (if Lowers(st, calls[0], sig) then 1 else 0) + Offs(Step(st, calls[0]), calls[1..], sig)
  }

  /** For every signal as many accepted `on` calls as `off` calls that undo one, in any order
      and however the signals interleave. */
  ghost predicate Balanced(st: SigState, calls: seq<Call>)
    requires |st.counts| == SIGNALS
  {
    forall sig: Signal :: Ons(st, calls, sig) == Offs(st, calls, sig)
  }

  lemma {:induction false} CountsTally(st: SigState, calls: seq<Call>, sig: Signal)
    requires |st.counts| == SIGNALS
    ensures Run(st, calls).counts[sig] + Offs(st, calls, sig) == st.counts[sig] + Ons(st, calls, sig)
    decreases |calls|
  {
    if calls != [] {
      CountsTally(Step(st, calls[0]), calls[1..], sig);
    }
  }

  /** A history gives every counter back if and only if it is balanced, and then it gives the
      recorded set back as well. */
  lemma BalancedRestoresIff(st: SigState, calls: seq<Call>)
    requires |st.counts| == SIGNALS && IsUnion(st)
    ensures Run(st, calls).counts == st.counts <==> Balanced(st, calls)
    ensures Balanced(st, calls) ==> Run(st, calls).recorded == st.recorded
  {
    forall sig: Signal
      ensures Run(st, calls).counts[sig] + Offs(st, calls, sig) == st.counts[sig] + Ons(st, calls, sig)
    {
      CountsTally(st, calls, sig);
    }
    UnionAfter(st, calls);
    UnionByConversion(st);
    UnionByConversion(Run(st, calls));
  }

  /** Balanced use from the beginning, with no silent failure: the inherited mask is given
      back if and only if it was empty or no mask call took effect.  Otherwise the process is
      left with nothing blocked. */
  lemma BalancedInheritedIff(inherited: set<Os>, calls: seq<Call>)
    requires Balanced(Initial(inherited), calls) && NeverSilent(Initial(inherited), calls)
    ensures var end := Run(Initial(inherited), calls).kernel;
      && (end == inherited <==> inherited == {} || LastSet(Initial(inherited), calls).None?)
      && (end != inherited ==> end == {})
  {
    var st := Initial(inherited);
    KernelIsLastSet(st, calls);
    if LastSet(st, calls).Some? {
      EffectSyncs(st, calls);
      BalancedRestoresIff(st, calls);
    }
  }
}
