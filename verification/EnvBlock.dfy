/** The Windows environment block (src/win/impl.c:202-228) and the iterator that walks one
    (src/win/impl.c:1276-1291). */
module EnvBlock {
  import opened FdAccounting
  import opened CommandLine

  /** Every entry with its terminator, and one more terminator. */
  function Block(ws: seq<Text>): Text {
    if ws == [] then [NUL] else ws[0] + [NUL] + Block(ws[1..])
  }

  /** buff_n: the bytes of every entry and its terminator. */
  function BlockRoom(envp: seq<Arg>): nat {
    if envp == [] then 0 else envp[0].bytes + 1 + BlockRoom(envp[1..])
  }

  lemma {:induction false} BlockFits(envp: seq<Arg>)
    requires forall a :: a in envp ==> Proper(a)
    ensures |envp| < |Block(Texts(envp))| <= BlockRoom(envp) + 1
  {
    if envp != [] {
      assert envp[0] in envp && Texts(envp)[1..] == Texts(envp[1..]);
      BlockFits(envp[1..]);
    }
  }

  // ---- The encoder ----

  /** MultiByteToWideChar into `room` units at `curr`: 0 says that the text is malformed or
      does not fit; with no room at all it only says how much would be needed. */
  method ConvertInto(buff: array<Unit>, curr: nat, room: nat, a: Arg) returns (n: nat)
    requires curr + room <= buff.Length
    modifies buff
    ensures a.wide.Some? && |a.wide.value| < room ==>
      n == |a.wide.value| + 1 && buff[..curr + n] == old(buff[..curr]) + a.wide.value + [NUL]
    ensures a.wide.None? || 0 < room <= |a.wide.value| ==> n == 0 && buff[..] == old(buff[..])
    ensures a.wide.Some? && room == 0 ==> n == |a.wide.value| + 1 && buff[..] == old(buff[..])
    ensures buff[..curr] == old(buff[..curr])
  {
    if a.wide.None? {
      return 0;
    }
    var w := a.wide.value;
    if room == 0 {
      return |w| + 1;
    }
    if |w| >= room {
      return 0;
    }
    for i := 0 to |w|
      invariant buff[..curr + i] == old(buff[..curr]) + w[..i]
    {
      buff[curr + i] := w[i];
    }
    buff[curr + |w|] := NUL;
    return |w| + 1;
  }

  /** The first `i` entries are written, and the others fit in what is left. */
  ghost predicate Written(es: seq<Arg>, i: nat, front: Text, left: int) {
    i <= |es| && front + Block(Texts(es[i..])) == Block(Texts(es)) && BlockRoom(es[i..]) <= left
  }

  lemma {:induction false} NextEntry(es: seq<Arg>, i: nat, front: Text, left: int)
    requires Written(es, i, front, left) && i < |es| && Proper(es[i])
    ensures |TextOf(es[i])| < left
    ensures Written(es, i + 1, front + TextOf(es[i]) + [NUL], left - |TextOf(es[i])| - 1)
  {
    assert es[i..][0] == es[i] && es[i..][1..] == es[i+1..];
    assert Texts(es[i..])[1..] == Texts(es[i+1..]);
  }

  lemma AllWritten(es: seq<Arg>, front: Text, left: int)
    requires Written(es, |es|, front, left)
    ensures front + [NUL] == Block(Texts(es)) && left >= 0
  {
  }

  /** The first loop: how much to allocate. */
  method MeasureBlock(envp: seq<Arg>) returns (n: nat)
    ensures n == BlockRoom(envp)
  {
    n := 0;
    for i := 0 to |envp|
      invariant n + BlockRoom(envp[i..]) == BlockRoom(envp)
    {
      assert envp[i..][0] == envp[i] && envp[i..][1..] == envp[i+1..];
      n := n + envp[i].bytes + 1;
    }
  }

  /** The second loop: every entry fits in what is left of the computed size. */
  method WriteEntries(buff: array<Unit>, es: seq<Arg>) returns (curr: nat, converts: bool)
    requires buff.Length == BlockRoom(es) + 1 && forall a :: a in es ==> Proper(a)
    modifies buff
    ensures converts <==> forall i :: 0 <= i < |es| ==> es[i].wide.Some?
    ensures converts ==> curr < buff.Length && buff[..curr] + [NUL] == Block(Texts(es))
  {
    curr := 0;
    assert es[0..] == es;
    for i := 0 to |es|
      invariant curr < buff.Length && Written(es, i, buff[..curr], buff.Length - 1 - curr)
      invariant forall j :: 0 <= j < i ==> es[j].wide.Some?
    {
      assert es[i] in es;
      NextEntry(es, i, buff[..curr], buff.Length - 1 - curr);
      var n := ConvertInto(buff, curr, buff.Length - 1 - curr, es[i]);
      if n == 0 {
        return curr, false;
      }
      curr := curr + n;
    }
    AllWritten(es, buff[..curr], buff.Length - 1 - curr);
    return curr, true;
  }

  /** _yoi_win_envp_to_envblock */
  method EncodeBlock(envp: Option<seq<Arg>>, shrinks: bool) returns (res: array?<Unit>)
    requires envp.Some? ==> forall a :: a in envp.value ==> Proper(a)
    ensures res != null <==> envp.Some? && shrinks && forall i :: 0 <= i < |envp.value| ==> envp.value[i].wide.Some?
    ensures res != null ==> fresh(res) && res[..] == Block(Texts(envp.value))
  {
    if envp.None? {
      return null;
    }
    var buffN := MeasureBlock(envp.value);
    var buff := new Unit[buffN + 1];
    var curr, converts := WriteEntries(buff, envp.value);
    if !converts {
      return null;
    }
    buff[curr] := NUL;
    assert buff[..curr + 1] == buff[..curr] + [NUL];
    res := Shrink(buff, curr + 1, shrinks);
  }

  // ---- The iterator ----

  /** A cursor from which a terminator can be found. */
  predicate Terminated(block: Text, curr: nat) {
    curr < |block| && block[|block|-1] == NUL
  }

  class EnvIter {
    const data: Text
    var curr: nat

    constructor (data: Text)
      ensures this.data == data && curr == 0
    {
      this.data, curr := data, 0;
    }

    /** wcslen at the cursor stays inside the block. */
    method Length() returns (n: nat)
      requires Terminated(data, curr)
      ensures curr + n < |data| && data[curr..curr + n] == UpToNul(data[curr..])
    {
      n := 0;
      while data[curr + n] != NUL
        invariant curr + n < |data|
        invariant NUL !in data[curr..curr + n]
        decreases |data| - n
      {
        n := n + 1;
      }
      EndsAtNul(data[curr..curr + n], data[curr + n + 1..]);
      assert data[curr..] == data[curr..curr + n] + [NUL] + data[curr + n + 1..];
    }

    /** yo_enviter_next: the entry at the cursor, or the end, where the cursor stays.
        `converts` says whether the entry can be turned into UTF-8. */
    method Next(converts: bool, failure: Code) returns (code: Code, pair: Option<Text>)
      requires Terminated(data, curr) && failure != OK
      modifies this`curr
      ensures var w := UpToNul(data[old(curr)..]);
        && code == (if w == [] || converts then OK else failure)
        && pair == (if w == [] || !converts then None else Some(w))
        && curr == (if code == OK then Advanced(data, old(curr)) else old(curr))
    {
      var n := Length();
      if n == 0 {
        return OK, None;
      }
      if !converts {
        return failure, None;
      }
      pair := Some(data[curr..curr + n]);
      curr := curr + (n + 1);
      return OK, pair;
    }
  }

  /** The cursor after a successful call. */
  function Advanced(block: Text, curr: nat): nat
    requires curr <= |block|
  {
    var w := UpToNul(block[curr..]);
    if w == [] then curr else curr + |w| + 1
  }

  /** The first empty entry, or the number of entries. */
  function FirstEmpty(ws: seq<Text>): (k: nat)
    ensures k <= |ws| && (k < |ws| ==> ws[k] == []) && forall i :: 0 <= i < k ==> ws[i] != []
  {
    if ws == [] || ws[0] == [] then 0 else 1 + FirstEmpty(ws[1..])
  }

  /** Where entry `k` begins. */
  function Offset(ws: seq<Text>, k: nat): nat
    requires k <= |ws|
  {
    if k == 0 then 0 else |ws[0]| + 1 + Offset(ws[1..], k - 1)
  }

  lemma {:induction false} BlockEnds(ws: seq<Text>)
    ensures Block(ws) != [] && Block(ws)[|Block(ws)|-1] == NUL
  {
    if ws != [] {
      BlockEnds(ws[1..]);
    }
  }

  lemma {:induction false} OffsetNext(ws: seq<Text>, k: nat)
    requires k < |ws|
    ensures Offset(ws, k + 1) == Offset(ws, k) + |ws[k]| + 1
    decreases k
  {
    if k > 0 {
      OffsetNext(ws[1..], k - 1);
    }
  }

  lemma {:induction false} BlockDrops(ws: seq<Text>, k: nat)
    requires k <= |ws|
    ensures Offset(ws, k) < |Block(ws)| && Block(ws)[Offset(ws, k)..] == Block(ws[k..])
    decreases k
  {
    if k == 0 {
      BlockEnds(ws);
      assert ws[0..] == ws && Block(ws)[0..] == Block(ws);
    } else {
      BlockDrops(ws[1..], k - 1);
      assert ws[1..][k-1..] == ws[k..];
      DropFirst(ws[0] + [NUL], Block(ws[1..]), Offset(ws[1..], k - 1));
    }
  }

  lemma DropFirst(head: Text, rest: Text, m: nat)
    requires m <= |rest|
    ensures (head + rest)[|head| + m..] == rest[m..]
  {
  }

  lemma {:induction false} BlockFrom(ws: seq<Text>, k: nat)
    requires k <= |ws|
    ensures Offset(ws, k) < |Block(ws)| && Block(ws)[Offset(ws, k)..] == Block(ws[k..])
    ensures Terminated(Block(ws), Offset(ws, k))
    ensures k < |ws| ==> Offset(ws, k + 1) == Offset(ws, k) + |ws[k]| + 1
  {
    BlockDrops(ws, k);
    BlockEnds(ws);
    if k < |ws| {
      OffsetNext(ws, k);
    }
  }

  lemma {:induction false} ReadAt(ws: seq<Text>, k: nat)
    requires k <= |ws| && forall w :: w in ws ==> NUL !in w
    ensures Offset(ws, k) <= |Block(ws)|
    ensures UpToNul(Block(ws)[Offset(ws, k)..]) == if k < |ws| then ws[k] else []
  {
    BlockFrom(ws, k);
    if k < |ws| {
      assert ws[k] in ws && ws[k..][1..] == ws[k+1..];
      EndsAtNul(ws[k], Block(ws[k+1..]));
    }
  }

  lemma {:induction false} EntryFound(ws: seq<Text>, k: nat)
    requires k <= FirstEmpty(ws) && forall w :: w in ws ==> NUL !in w
    ensures Terminated(Block(ws), Offset(ws, k))
    ensures UpToNul(Block(ws)[Offset(ws, k)..]) == if k < FirstEmpty(ws) then ws[k] else []
    ensures k < FirstEmpty(ws) ==> Offset(ws, k + 1) == Offset(ws, k) + |ws[k]| + 1
  {
    ReadAt(ws, k);
    BlockFrom(ws, k);
  }

  /** The entries `es` are found at the cursors `at`, one after the other, and then the end. */
  ghost predicate Found(block: Text, es: seq<Text>, at: seq<nat>) {
    && |at| == |es| + 1
    && (forall k :: 0 <= k <= |es| ==> Terminated(block, at[k]))
    && (forall k :: 0 <= k < |es| ==>
          es[k] != [] && UpToNul(block[at[k]..]) == es[k] && at[k+1] == at[k] + |es[k]| + 1)
    && UpToNul(block[at[|es|]..]) == []
  }

  function Offsets(ws: seq<Text>, e: nat): (at: seq<nat>)
    requires e <= |ws|
    ensures |at| == e + 1 && at[0] == 0 && forall k :: 0 <= k <= e ==> at[k] == Offset(ws, k)
    decreases e
  {
    if e == 0 then [0] else Offsets(ws, e - 1) + [Offset(ws, e)]
  }

  lemma {:induction false} AllFound(ws: seq<Text>, at: seq<nat>)
    requires forall w :: w in ws ==> NUL !in w
    requires |at| == FirstEmpty(ws) + 1 && forall k :: 0 <= k < |at| ==> at[k] == Offset(ws, k)
    ensures Found(Block(ws), ws[..FirstEmpty(ws)], at)
  {
    forall k | 0 <= k < |at|
      ensures Terminated(Block(ws), at[k])
      ensures UpToNul(Block(ws)[at[k]..]) == (if k < FirstEmpty(ws) then ws[k] else [])
      ensures k < FirstEmpty(ws) ==> at[k+1] == at[k] + |ws[k]| + 1
    {
      EntryFound(ws, k);
    }
  }

  /** The cursor after `n` successful calls on a block. */
  function CursorAfter(block: Text, n: nat): nat {
    if n == 0 then 0
    else
      var c := CursorAfter(block, n - 1);
      if Terminated(block, c) then Advanced(block, c) else c
  }

  lemma {:induction false} CursorAt(block: Text, es: seq<Text>, at: seq<nat>, n: nat)
    requires Found(block, es, at) && at[0] == 0
    ensures CursorAfter(block, n) == at[if n < |es| then n else |es|]
  {
    if n > 0 {
      CursorAt(block, es, at, n - 1);
      CursorStep(block, n, at[if n - 1 < |es| then n - 1 else |es|]);
    }
  }

  lemma CursorStep(block: Text, n: nat, c: nat)
    requires n > 0 && CursorAfter(block, n - 1) == c && Terminated(block, c)
    ensures CursorAfter(block, n) == var w := UpToNul(block[c..]); if w == [] then c else c + |w| + 1
  {
  }

  /** Walking a block built from NUL-free entries: call `n` returns entry `n` until the first
      empty entry or the end, and every later call reports the end. */
  lemma WalkRoundTrips(ws: seq<Text>, n: nat)
    requires forall w :: w in ws ==> NUL !in w
    ensures var c := CursorAfter(Block(ws), n);
      Terminated(Block(ws), c) && UpToNul(Block(ws)[c..]) == if n < FirstEmpty(ws) then ws[n] else []
  {
    var at := Offsets(ws, FirstEmpty(ws));
    AllFound(ws, at);
    CursorAt(Block(ws), ws[..FirstEmpty(ws)], at, n);
  }

  /** A walk from the cursor to the end it reports. */
  function Walked(block: Text, curr: nat): seq<Text>
    decreases |block| - curr
  {
    if !Terminated(block, curr) || UpToNul(block[curr..]) == [] then []
    else [UpToNul(block[curr..])] + Walked(block, curr + |UpToNul(block[curr..])| + 1)
  }

  lemma {:induction false} WalkedNext(block: Text, c: nat, w: Text, rest: seq<Text>)
    requires Terminated(block, c) && UpToNul(block[c..]) == w && w != []
    requires Walked(block, c + |w| + 1) == rest
    ensures Walked(block, c) == [w] + rest
  {
  }

  lemma {:induction false} WalkedEnd(block: Text, c: nat)
    requires Terminated(block, c) && UpToNul(block[c..]) == []
    ensures Walked(block, c) == []
  {
  }

  lemma {:induction false} WalkedFrom(block: Text, es: seq<Text>, at: seq<nat>, k: nat)
    requires Found(block, es, at) && k <= |es|
    ensures Walked(block, at[k]) == es[k..]
    decreases |es| - k
  {
    if k < |es| {
      WalkedFrom(block, es, at, k + 1);
      WalkedNext(block, at[k], es[k], es[k+1..]);
      assert [es[k]] + es[k+1..] == es[k..];
    } else {
      WalkedEnd(block, at[k]);
    }
  }

  lemma {:induction false} WalkedPrefix(ws: seq<Text>)
    requires forall w :: w in ws ==> NUL !in w
    ensures Walked(Block(ws), 0) == ws[..FirstEmpty(ws)]
  {
    var at := Offsets(ws, FirstEmpty(ws));
    AllFound(ws, at);
    WalkedFrom(Block(ws), ws[..FirstEmpty(ws)], at, 0);
  }

  /** The whole list comes back if and only if no entry is empty. */
  lemma WalkIsWholeIff(ws: seq<Text>)
    requires forall w :: w in ws ==> NUL !in w
    ensures Walked(Block(ws), 0) == ws[..FirstEmpty(ws)]
    ensures Walked(Block(ws), 0) == ws <==> forall i :: 0 <= i < |ws| ==> ws[i] != []
  {
    WalkedPrefix(ws);
    assert FirstEmpty(ws) == |ws| ==> ws[..FirstEmpty(ws)] == ws;
  }

  /** A caller that asks `n` times for the next entry of a block built from `ws`, all
      conversions succeeding: it gets the entries up to the first empty one, and then the
      end, as often as it asks. */
  method Entries(ws: seq<Text>, n: nat) returns (pairs: seq<Option<Text>>)
    requires forall w :: w in ws ==> NUL !in w
    ensures |pairs| == n
    ensures forall k :: 0 <= k < n ==> pairs[k] == if k < FirstEmpty(ws) then Some(ws[k]) else None
  {
    var iter := new EnvIter(Block(ws));
    pairs := [];
    for k := 0 to n
      invariant |pairs| == k && iter.data == Block(ws) && fresh(iter)
      invariant iter.curr == CursorAfter(Block(ws), k)
      invariant forall j :: 0 <= j < k ==> pairs[j] == if j < FirstEmpty(ws) then Some(ws[j]) else None
    {
      WalkRoundTrips(ws, k);
      var _, pair := iter.Next(true, -1);
      pairs := pairs + [pair];
    }
  }
}
