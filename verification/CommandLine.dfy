/** The Windows command line (src/win/impl.c:137-201): one string into which an argument
    vector is packed, and which the new process takes apart again. */
module CommandLine {
  import opened FdAccounting

  /** A UTF-16 code unit (wchar_t on Windows). */
  type Unit = u: int | 0 <= u < 0x1_0000

  type Text = seq<Unit>

  const NUL: Unit := 0
  const TAB: Unit := 9
  const SPACE: Unit := 32
  const QUOTE: Unit := 34
  const BACKSLASH: Unit := 92

  /** One argument: the number of bytes strlen sees, and what the conversion to UTF-16 makes
      of them, if it succeeds. */
  datatype Arg = Arg(bytes: nat, wide: Option<Text>)

  /** A C string converts to NUL-free text with no more units than it has bytes. */
  ghost predicate Proper(a: Arg) {
    a.wide.Some? ==> |a.wide.value| <= a.bytes && NUL !in a.wide.value
  }

  // ---- What is written ----

  function Backslashes(n: nat): (r: Text)
    ensures |r| == n && forall i :: 0 <= i < n ==> r[i] == BACKSLASH
  {
    seq(n, _ => BACKSLASH)
  }

  /** The text for `w` when `k` backslashes before it are still pending, up to the closing
      quote. */
  function Body(w: Text, k: nat): Text {
    if w == [] then Backslashes(2 * k)
    else if w[0] == BACKSLASH then Body(w[1..], k + 1)
    else if w[0] == QUOTE then Backslashes(2 * k) + [BACKSLASH, QUOTE] + Body(w[1..], 0)
    else Backslashes(k) + [w[0]] + Body(w[1..], 0)
  }

  predicate Special(u: Unit) {
    u == BACKSLASH || u == QUOTE
  }

  function Quoted(w: Text): Text {
    [QUOTE] + Body(w, 0) + [QUOTE]
  }

  function Line(ws: seq<Text>): Text {
    if ws == [] then []
    else if |ws| == 1 then Quoted(ws[0])
    else Quoted(ws[0]) + [SPACE] + Line(ws[1..])
  }

  // ---- How it is read ----

  predicate IsSpace(u: Unit) {
    u == SPACE || u == TAB
  }

  /** The rules of "Parsing C command-line arguments" in Microsoft's C runtime documentation,
      applied to every argument: white space separates arguments unless quoted; 2n or 2n + 1
      backslashes before a quote stand for n, and the quote then delimits or is literal;
      other backslashes are literal; a doubled quote inside quotes is literal. */
  function Arguments(s: Text): seq<Text>
    decreases |s|, 1
  {
    if s == [] then [] else if IsSpace(s[0]) then Arguments(s[1..]) else Rest(s, [], false, 0)
  }

  /** ... from inside an argument: `cur` is its text so far, `k` the backslashes pending. */
  function Rest(s: Text, cur: Text, quoted: bool, k: nat): seq<Text>
    decreases |s|, 0
  {
    if s == [] then [cur + Backslashes(k)]
    else if s[0] == BACKSLASH then Rest(s[1..], cur, quoted, k + 1)
    else if s[0] == QUOTE then
      var half := cur + Backslashes(k / 2);
      if k % 2 == 1 then Rest(s[1..], half + [QUOTE], quoted, 0)
      else if quoted && |s| > 1 && s[1] == QUOTE then Rest(s[2..], half + [QUOTE], quoted, 0)
      else Rest(s[1..], half, !quoted, 0)
    else if !quoted && IsSpace(s[0]) then [cur + Backslashes(k)] + Arguments(s[1..])
    else Rest(s[1..], cur + Backslashes(k) + [s[0]], quoted, 0)
  }

  // ---- Round trip ----

  lemma {:induction false} RunIsCounted(m: nat, s: Text, cur: Text, quoted: bool, k: nat)
    ensures Rest(Backslashes(m) + s, cur, quoted, k) == Rest(s, cur, quoted, k + m)
    decreases m
  {
    if m == 0 {
      assert Backslashes(0) + s == s;
    } else {
      assert (Backslashes(m) + s)[1..] == Backslashes(m - 1) + s;
      RunIsCounted(m - 1, s, cur, quoted, k + 1);
    }
  }

  /** What may follow a closing quote without changing its meaning. */
  predicate Closes(rest: Text) {
    rest == [] || rest[0] != QUOTE
  }

  lemma {:induction false} CloseIsRead(k: nat, cur: Text, tail: Text)
    requires tail != [] && tail[0] == QUOTE && Closes(tail[1..])
    ensures Rest(Backslashes(2 * k) + tail, cur, true, 0) == Rest(tail[1..], cur + Backslashes(k), false, 0)
  {
    RunIsCounted(2 * k, tail, cur, true, 0);
  }

  lemma {:induction false} QuoteIsRead(k: nat, cur: Text, after: Text)
    ensures Rest(Backslashes(2 * k) + [BACKSLASH, QUOTE] + after, cur, true, 0)
         == Rest(after, cur + Backslashes(k) + [QUOTE], true, 0)
  {
    RunIsCounted(2 * k + 1, [QUOTE] + after, cur, true, 0);
    assert Backslashes(2 * k) + [BACKSLASH, QUOTE] + after == Backslashes(2 * k + 1) + ([QUOTE] + after);
    assert ([QUOTE] + after)[1..] == after;
  }

  lemma {:induction false} PlainIsRead(k: nat, u: Unit, cur: Text, after: Text)
    requires !Special(u)
    ensures Rest(Backslashes(k) + [u] + after, cur, true, 0) == Rest(after, cur + Backslashes(k) + [u], true, 0)
  {
    RunIsCounted(k, [u] + after, cur, true, 0);
    assert Backslashes(k) + [u] + after == Backslashes(k) + ([u] + after);
    assert ([u] + after)[1..] == after;
  }

  /** The reader, having opened the quotes and read `cur`, reads on to the closing quote at
      the head of `tail`. */
  lemma {:induction false} BodyIsRead(w: Text, k: nat, cur: Text, tail: Text)
    requires tail != [] && tail[0] == QUOTE && Closes(tail[1..])
    ensures Rest(Body(w, k) + tail, cur, true, 0) == Rest(tail[1..], cur + Backslashes(k) + w, false, 0)
    decreases |w|
  {
    if w == [] {
      CloseIsRead(k, cur, tail);
      assert cur + Backslashes(k) + w == cur + Backslashes(k);
    } else if w[0] == BACKSLASH {
      BodyIsRead(w[1..], k + 1, cur, tail);
      assert cur + Backslashes(k + 1) + w[1..] == cur + Backslashes(k) + w;
    } else {
      UnitIsRead(w, k, cur, tail);
      BodyIsRead(w[1..], 0, cur + Backslashes(k) + [w[0]], tail);
      assert cur + Backslashes(k) + [w[0]] + Backslashes(0) + w[1..] == cur + Backslashes(k) + w;
    }
  }

  lemma {:induction false} UnitIsRead(w: Text, k: nat, cur: Text, tail: Text)
    requires w != [] && w[0] != BACKSLASH
    ensures Rest(Body(w, k) + tail, cur, true, 0)
         == Rest(Body(w[1..], 0) + tail, cur + Backslashes(k) + [w[0]], true, 0)
  {
    BodyUnfolds(w, k, tail);
    if w[0] == QUOTE {
      QuoteIsRead(k, cur, Body(w[1..], 0) + tail);
    } else {
      PlainIsRead(k, w[0], cur, Body(w[1..], 0) + tail);
    }
  }

  lemma {:induction false} BodyUnfolds(w: Text, k: nat, tail: Text)
    requires w != [] && w[0] != BACKSLASH
    ensures Body(w, k) + tail
         == (if w[0] == QUOTE then Backslashes(2 * k) + [BACKSLASH, QUOTE] else Backslashes(k) + [w[0]])
            + (Body(w[1..], 0) + tail)
  {
  }

  lemma {:induction false} QuotedIsRead(w: Text, rest: Text)
    requires Closes(rest)
    ensures Arguments(Quoted(w) + rest) == Rest(rest, w, false, 0)
  {
    var inner := Body(w, 0) + ([QUOTE] + rest);
    assert Quoted(w) + rest == [QUOTE] + inner && ([QUOTE] + inner)[1..] == inner;
    assert Rest([QUOTE] + inner, [], false, 0) == Rest(inner, [], true, 0) by {
      assert [] + Backslashes(0) == [];
    }
    BodyIsRead(w, 0, [], [QUOTE] + rest);
    assert ([QUOTE] + rest)[1..] == rest && [] + Backslashes(0) + w == w;
  }

  /** Reading back the command line gives exactly the arguments, whatever they contain:
      nothing, spaces, quotes, runs of backslashes before quotes or at the end. */
  lemma {:induction false} LineRoundTrips(ws: seq<Text>)
    ensures Arguments(Line(ws)) == ws
  {
    if |ws| == 1 {
      QuotedIsRead(ws[0], []);
      assert Quoted(ws[0]) + [] == Line(ws) && ws[0] + Backslashes(0) == ws[0] && [ws[0]] == ws;
    } else if |ws| > 1 {
      var rest := [SPACE] + Line(ws[1..]);
      QuotedIsRead(ws[0], rest);
      assert Line(ws) == Quoted(ws[0]) + rest && rest[1..] == Line(ws[1..]);
      LineRoundTrips(ws[1..]);
      assert ws[0] + Backslashes(0) == ws[0] && [ws[0]] + ws[1..] == ws;
    }
  }

  // ---- Room ----

  /** Two units are reserved for each unit of an argument.  That always suffices, and it is
      exactly used up if and only if the argument is all backslashes and quotes. */
  lemma {:induction false} BodyFits(w: Text, k: nat)
    ensures |Body(w, k)| <= 2 * (|w| + k)
    ensures |Body(w, k)| == 2 * (|w| + k) <==> forall i :: 0 <= i < |w| ==> Special(w[i])
    decreases |w|
  {
    if w != [] {
      var k' := if w[0] == BACKSLASH then k + 1 else 0;
      BodyFits(w[1..], k');
      assert (forall i :: 0 <= i < |w| ==> Special(w[i]))
        <==> Special(w[0]) && forall i :: 0 <= i < |w| - 1 ==> Special(w[1..][i]) by {
        if Special(w[0]) && forall i :: 0 <= i < |w| - 1 ==> Special(w[1..][i]) {
          assert forall i :: 0 < i < |w| ==> w[i] == w[1..][i-1];
        }
      }
    }
  }

  /** What the conversion of an argument yields; a failed one is not written. */
  function TextOf(a: Arg): Text {
    if a.wide.Some? then a.wide.value else []
  }

  function Texts(argv: seq<Arg>): (r: seq<Text>)
    ensures |r| == |argv|
  {
    if argv == [] then [] else [TextOf(argv[0])] + Texts(argv[1..])
  }

  /** Each argument with the unit written after it: a space, or the terminator. */
  function Packed(ws: seq<Text>): Text {
    if ws == [] then [] else Quoted(ws[0]) + [if |ws| == 1 then NUL else SPACE] + Packed(ws[1..])
  }

  lemma {:induction false} PackedIsLine(ws: seq<Text>)
    requires ws != []
    ensures Packed(ws) == Line(ws) + [NUL]
  {
    if |ws| > 1 {
      PackedIsLine(ws[1..]);
    }
  }

  /** buff_n: two quotes, one separator or terminator, and twice the bytes, per argument. */
  function Room(argv: seq<Arg>): nat {
    if argv == [] then 0 else 3 + 2 * argv[0].bytes + Room(argv[1..])
  }

  ghost predicate FillsItsRoom(a: Arg) {
    |TextOf(a)| == a.bytes && forall i :: 0 <= i < a.bytes ==> Special(TextOf(a)[i])
  }

  /** The whole line always fits, and fills the buffer exactly when every argument is all
      ASCII backslashes and quotes. */
  lemma {:induction false} PackedFits(argv: seq<Arg>)
    requires forall a :: a in argv ==> Proper(a)
    ensures |Packed(Texts(argv))| <= Room(argv)
    ensures |Packed(Texts(argv))| == Room(argv) <==> forall i :: 0 <= i < |argv| ==> FillsItsRoom(argv[i])
  {
    if argv != [] {
      assert argv[0] in argv && Texts(argv)[1..] == Texts(argv[1..]);
      BodyFits(TextOf(argv[0]), 0);
      PackedFits(argv[1..]);
      assert forall i :: 0 < i < |argv| ==> argv[i] == argv[1..][i-1];
    }
  }

  lemma {:induction false} BodyHasNoNul(w: Text, k: nat)
    requires NUL !in w
    ensures NUL !in Body(w, k)
    decreases |w|
  {
    if w != [] {
      BodyHasNoNul(w[1..], if w[0] == BACKSLASH then k + 1 else 0);
    }
  }

  lemma {:induction false} LineHasNoNul(ws: seq<Text>)
    requires forall w :: w in ws ==> NUL !in w
    ensures NUL !in Line(ws)
  {
    if ws != [] {
      assert ws[0] in ws;
      BodyHasNoNul(ws[0], 0);
      LineHasNoNul(ws[1..]);
    }
  }

  /** The text a C string stands for. */
  function UpToNul(s: Text): Text {
    if s == [] || s[0] == NUL then [] else [s[0]] + UpToNul(s[1..])
  }

  lemma {:induction false} EndsAtNul(t: Text, rest: Text)
    requires NUL !in t
    ensures UpToNul(t + [NUL] + rest) == t
  {
    var s := t + [NUL] + rest;
    if t != [] {
      assert s[1..] == t[1..] + [NUL] + rest && s[0] == t[0] && t[0] in t;
      EndsAtNul(t[1..], rest);
    }
  }

  /** A process started with the packed line finds exactly the arguments. */
  lemma PackedRoundTrips(ws: seq<Text>)
    requires ws != [] && forall w :: w in ws ==> NUL !in w
    ensures Arguments(UpToNul(Packed(ws))) == ws
    ensures forall i :: 0 <= i < |Packed(ws)| ==> (Packed(ws)[i] == NUL <==> i == |Packed(ws)| - 1)
  {
    PackedIsLine(ws);
    LineHasNoNul(ws);
    EndsAtNul(Line(ws), []);
    assert Line(ws) + [NUL] + [] == Packed(ws);
    LineRoundTrips(ws);
  }

  // ---- The encoder ----

  /** The loops that write a pending run. */
  method PutBackslashes(buff: array<Unit>, curr: nat, n: nat) returns (next: nat)
    requires curr + n <= buff.Length
    modifies buff
    ensures next == curr + n && buff[..next] == old(buff[..curr]) + Backslashes(n)
  {
    next := curr;
    for i := 0 to n
      invariant next == curr + i && buff[..next] == old(buff[..curr]) + Backslashes(i)
    {
      buff[next] := BACKSLASH;
      next := next + 1;
    }
  }

  method Put(buff: array<Unit>, curr: nat, u: Unit) returns (next: nat)
    requires curr < buff.Length
    modifies buff
    ensures next == curr + 1 && buff[..next] == old(buff[..curr]) + [u]
  {
    buff[curr] := u;
    next := curr + 1;
  }

  /** What the loop writes for the unit `u`, and the backslashes then pending. */
  function Emitted(u: Unit, k: nat): Text {
    if u == BACKSLASH then []
    else if u == QUOTE then Backslashes(2 * k) + [BACKSLASH] + [QUOTE]
    else Backslashes(k) + [u]
  }

  lemma {:induction false} NextUnit(w: Text, i: nat, k: nat, front: Text)
    requires i < |w|
    ensures front + Body(w[i..], k)
         == front + Emitted(w[i], k) + Body(w[i+1..], if w[i] == BACKSLASH then k + 1 else 0)
    ensures |front| + |Emitted(w[i], k)| <= |front + Body(w[i..], k)|
  {
    assert w[i..][0] == w[i] && w[i..][1..] == w[i+1..];
  }

  /** One turn of the loop over an argument. */
  method PutUnit(buff: array<Unit>, start: nat, u: Unit, pending: nat) returns (curr: nat, backN: nat)
    requires start + |Emitted(u, pending)| <= buff.Length
    modifies buff
    ensures curr == start + |Emitted(u, pending)| && buff[..curr] == old(buff[..start]) + Emitted(u, pending)
    ensures backN == if u == BACKSLASH then pending + 1 else 0
  {
    curr, backN := start, pending;
    if u == BACKSLASH {
      backN := backN + 1;
    } else if u == QUOTE {
      curr := PutBackslashes(buff, curr, 2 * backN);
      curr := Put(buff, curr, BACKSLASH);
      curr := Put(buff, curr, QUOTE);
      backN := 0;
    } else {
      curr := PutBackslashes(buff, curr, backN);
      backN := 0;
      curr := Put(buff, curr, u);
    }
  }

  /** One argument, with its quotes. */
  method PutArgument(buff: array<Unit>, start: nat, w: Text) returns (curr: nat)
    requires start + |Quoted(w)| <= buff.Length
    modifies buff
    ensures curr == start + |Quoted(w)| && buff[..curr] == old(buff[..start]) + Quoted(w)
  {
    ghost var line := buff[..start] + [QUOTE] + Body(w, 0);
    curr := Put(buff, start, QUOTE);
    var backN := 0;
    assert w[0..] == w;
    for i := 0 to |w|
      invariant start < curr <= buff.Length
      invariant buff[..curr] + Body(w[i..], backN) == line
    {
      NextUnit(w, i, backN, buff[..curr]);
      curr, backN := PutUnit(buff, curr, w[i], backN);
    }
    assert |buff[..curr] + Body([], backN)| == |line|;
    curr := PutBackslashes(buff, curr, 2 * backN);
    curr := Put(buff, curr, QUOTE);
  }

  /** The first loop: how much to allocate. */
  method Measure(argv: seq<Arg>) returns (n: nat)
    ensures n == Room(argv)
  {
    n := 0;
    for i := 0 to |argv|
      invariant n + Room(argv[i..]) == Room(argv)
    {
      assert argv[i..][0] == argv[i] && argv[i..][1..] == argv[i+1..];
      n := n + 1 + argv[i].bytes * 2 + 1 + 1;
    }
  }

  /** realloc to the written length; `shrinks` says whether it succeeds. */
  method Shrink(buff: array<Unit>, n: nat, shrinks: bool) returns (res: array?<Unit>)
    requires n <= buff.Length
    ensures res != null <==> shrinks
    ensures res != null ==> fresh(res) && res[..] == buff[..n]
  {
    if !shrinks {
      return null;
    }
    res := new Unit[n];
    forall i | 0 <= i < n {
      res[i] := buff[i];
    }
  }

  /** With `front` written, argument `i` comes next, then its separator, then the rest. */
  lemma {:induction false} NextPacked(argv: seq<Arg>, i: nat, front: Text)
    requires i < |argv|
    ensures var w := TextOf(argv[i]);
      front + Packed(Texts(argv[i..]))
        == front + Quoted(w) + [if i == |argv| - 1 then NUL else SPACE] + Packed(Texts(argv[i+1..]))
    ensures |front + Packed(Texts(argv[i..]))| > |front| + |Quoted(TextOf(argv[i]))|
  {
  }

  /** _yoi_win_argv_to_cmdline, for a call that wants escaping.  `memory` says whether malloc
      succeeds. */
  method Encode(argv: seq<Arg>, memory: bool, shrinks: bool) returns (res: array?<Unit>)
    requires forall a :: a in argv ==> Proper(a)
    ensures res != null <==> memory && shrinks && forall i :: 0 <= i < |argv| ==> argv[i].wide.Some?
    ensures res != null ==> fresh(res) && res[..] == Packed(Texts(argv))
  {
    var buffN := Measure(argv);
    if !memory {
      return null;
    }
    var buff := new Unit[buffN];
    var curr: nat := 0;
    PackedFits(argv);
    assert argv[0..] == argv;
    for i := 0 to |argv|
      invariant curr <= buff.Length
      invariant buff[..curr] + Packed(Texts(argv[i..])) == Packed(Texts(argv))
      invariant forall j :: 0 <= j < i ==> argv[j].wide.Some?
    {
      var warg := argv[i].wide;
      if warg.None? {
        return null;
      }
      NextPacked(argv, i, buff[..curr]);
      curr := PutArgument(buff, curr, warg.value);
      if i == |argv| - 1 {
        curr := Put(buff, curr, NUL);
      } else {
        curr := Put(buff, curr, SPACE);
      }
    }
    assert Packed(Texts(argv[|argv|..])) == [];
    res := Shrink(buff, curr, shrinks);
  }
}
