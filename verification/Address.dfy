/** Address parsing (src/addr.c).  A string here is what a C string holds: it has no NUL, and
    reading at its end yields one. */
module Address {
  import opened FdAccounting

  datatype Addr = V4(octets: seq<nat>) | V6(groups: seq<nat>)

  function At(s: string, i: nat): char {
    if i < |s| then s[i] else '\0'
  }

  ghost predicate CString(s: string) {
    '\0' !in s
  }

  function Prepend(v: nat, r: Option<seq<nat>>): Option<seq<nat>> {
    if r.Some? then Some([v] + r.value) else None
  }

  // ---- Digits ----

  predicate IsDigit(c: char) {
    '0' <= c <= '9'
  }

  predicate IsXDigit(c: char) {
    IsDigit(c) || 'a' <= c <= 'f' || 'A' <= c <= 'F'
  }

  /** The value of a digit; what is not a digit counts nothing. */
  function DigitValue(c: char): (v: nat)
    ensures v < 16 && (IsDigit(c) ==> v < 10)
  {
    if IsDigit(c) then c as int - '0' as int
    else if 'a' <= c <= 'f' then c as int - 'a' as int + 10
    else if 'A' <= c <= 'F' then c as int - 'A' as int + 10
    else 0
  }

  /** The value of the digits from `i` up to `j`. */
  function Decimal(s: string, i: nat, j: nat): nat
    requires i <= j <= |s|
  {
    if i == j then 0 else 10 * Decimal(s, i, j - 1) + DigitValue(s[j-1])
  }

  function Hex(s: string, i: nat, j: nat): nat
    requires i <= j <= |s|
  {
    if i == j then 0 else 16 * Hex(s, i, j - 1) + DigitValue(s[j-1])
  }

  lemma {:induction false} SameDigits(s: string, i: nat, t: string, k: nat)
    requires k <= |t| && i + |t| <= |s| && s[i..i+|t|] == t
    ensures Decimal(s, i, i + k) == Decimal(t, 0, k) && Hex(s, i, i + k) == Hex(t, 0, k)
    decreases k
  {
    if k > 0 {
      SameDigits(s, i, t, k - 1);
      assert s[i+k-1] == t[k-1];
    }
  }

  /** The length of the run of digits at `it`. */
  function RunAt(s: string, it: nat): (d: nat)
    requires it <= |s|
    ensures it + d <= |s|
    decreases |s| - it
  {
    if it == |s| || !IsDigit(s[it]) then 0 else 1 + RunAt(s, it + 1)
  }

  lemma {:induction false} RunAtIs(s: string, it: nat, d: nat)
    requires it + d <= |s| && (forall i :: it <= i < it + d ==> IsDigit(s[i]))
    requires it + d < |s| ==> !IsDigit(s[it+d])
    ensures RunAt(s, it) == d
    decreases d
  {
    if d > 0 {
      RunAtIs(s, it + 1, d - 1);
    }
  }

  lemma {:induction false} RunIsDigits(s: string, it: nat)
    requires it <= |s|
    ensures forall i :: it <= i < it + RunAt(s, it) ==> IsDigit(s[i])
    decreases |s| - it
  {
    if it < |s| && IsDigit(s[it]) {
      RunIsDigits(s, it + 1);
    }
  }

  function ValueAt(s: string, it: nat): nat
    requires it <= |s|
  {
    Decimal(s, it, it + RunAt(s, it))
  }

  // ---- IPv4 ----

  /** `n` decimal groups of at most 255, separated by dots, and nothing else, from `it` on. */
  function Dotted(s: string, it: nat, n: nat): Option<seq<nat>>
    requires it <= |s| && n > 0
    decreases |s| - it
  {
    var d, v := RunAt(s, it), ValueAt(s, it);
    if d == 0 || v > 255 then None
    else if n == 1 then if it + d == |s| then Some([v]) else None
    else if it + d < |s| && s[it+d] == '.' then Prepend(v, Dotted(s, it + d + 1, n - 1))
    else None
  }

  /** One group of the text: a non-empty decimal numeral, leading zeros allowed. */
  predicate Octet(g: string) {
    g != [] && (forall c :: c in g ==> IsDigit(c)) && Decimal(g, 0, |g|) <= 255
  }

  function Joined(gs: seq<string>, sep: char): string {
    if gs == [] then [] else if |gs| == 1 then gs[0] else gs[0] + [sep] + Joined(gs[1..], sep)
  }

  function PrependAll(vs: seq<nat>, r: Option<seq<nat>>): Option<seq<nat>> {
    if r.Some? then Some(vs + r.value) else None
  }

  lemma PrependNothing(r: Option<seq<nat>>)
    ensures PrependAll([], r) == r
  {
    assert r.Some? ==> [] + r.value == r.value;
  }

  lemma PrependNext(vs: seq<nat>, v: nat, r: Option<seq<nat>>)
    ensures PrependAll(vs, Prepend(v, r)) == PrependAll(vs + [v], r)
  {
    assert r.Some? ==> vs + ([v] + r.value) == vs + [v] + r.value;
  }

  lemma {:induction false} LongerIsLarger(s: string, i: nat, j: nat, k: nat)
    requires i <= j < k <= |s|
    ensures Decimal(s, i, k) >= 10 * Decimal(s, i, j)
    decreases k
  {
    if j < k - 1 {
      LongerIsLarger(s, i, j, k - 1);
    }
  }

  /** The inner loop.  A numeral that passes 100 with a digit to come is too large, so `part`
      never exceeds 1009. */
  method ParseGroup(s: string, start: nat) returns (part: Option<nat>, it: nat)
    requires CString(s) && start <= |s|
    ensures part == if RunAt(s, start) == 0 || ValueAt(s, start) > 255 then None else Some(ValueAt(s, start))
    ensures part.Some? ==> it == start + RunAt(s, start)
  {
    it := start;
    if !IsDigit(At(s, it)) {
      return None, it;
    }
    ghost var d := RunAt(s, start);
    var v: nat := 0;
    while IsDigit(At(s, it))
      invariant start <= it <= |s| && d == it - start + RunAt(s, it)
      invariant v == Decimal(s, start, it) <= 1009
      decreases |s| - it
    {
      if v > 100 {
        LongerIsLarger(s, start, it, start + d);
        return None, it;
      }
      v := v * 10 + DigitValue(s[it]);
      it := it + 1;
    }
    part := if v > 255 then None else Some(v);
  }

  /** One turn of the outer loop: a group, and the dot that must follow all but the last.
      Without the dot, the next turn finds no digit. */
  method ParseOctet(s: string, start: nat, i: nat) returns (part: Option<nat>, it: nat, ghost dotted: bool)
    requires CString(s) && start <= |s| && i < 4
    ensures it <= |s|
    ensures part.None? ==> Dotted(s, start, 4 - i) == None
    ensures part.Some? && i == 3 ==> Dotted(s, start, 1) == if it == |s| then Some([part.value]) else None
    ensures part.Some? && i < 3 && dotted ==> Dotted(s, start, 4 - i) == Prepend(part.value, Dotted(s, it, 3 - i))
    ensures part.Some? && i < 3 && !dotted ==> Dotted(s, start, 4 - i) == None == Dotted(s, it, 3 - i)
  {
    part, it := ParseGroup(s, start);
    dotted := false;
    if part.None? {
      return None, start, false;
    }
    if At(s, it) == '.' {
      if i == 3 {
        return None, it, false;
      }
      it := it + 1;
      dotted := true;
    }
    if At(s, it) == '\0' && i != 3 {
      return None, it, dotted;
    }
    RunEnds(s, start);
  }

  lemma {:induction false} RunEnds(s: string, it: nat)
    requires it <= |s|
    ensures RunAt(s, it + RunAt(s, it)) == 0
    decreases |s| - it
  {
    if it < |s| && IsDigit(s[it]) {
      RunEnds(s, it + 1);
    }
  }

  /** yo_parse_ipv4 */
  method ParseIpv4(s: string) returns (r: Option<seq<nat>>)
    requires CString(s)
    ensures r == Dotted(s, 0, 4)
  {
    var res: seq<nat> := [];
    var it: nat := 0;
    PrependNothing(Dotted(s, 0, 4));
    for i := 0 to 4
      invariant it <= |s|
      invariant i < 4 ==> Dotted(s, 0, 4) == PrependAll(res, Dotted(s, it, 4 - i))
      invariant i == 4 ==> Dotted(s, 0, 4) == if it == |s| then Some(res) else None
    {
      var part;
      ghost var dotted;
      part, it, dotted := ParseOctet(s, it, i);
      if part.None? {
        return None;
      }
      if i < 3 {
        PrependNext(res, part.value, Dotted(s, it, 3 - i));
      }
      res := res + [part.value];
    }
    if At(s, it) != '\0' {
      return None;
    }
    return Some(res);
  }

  ghost predicate Octets(gs: seq<string>) {
    forall i :: 0 <= i < |gs| ==> Octet(gs[i])
  }

  function Numerals(gs: seq<string>): seq<nat>
    requires Octets(gs)
  {
    if gs == [] then [] else [Decimal(gs[0], 0, |gs[0]|)] + Numerals(gs[1..])
  }

  lemma {:induction false} GroupAt(s: string, it: nat, g: string)
    requires it + |g| <= |s| && s[it..it+|g|] == g && Octet(g) && (it + |g| < |s| ==> s[it+|g|] == '.')
    ensures RunAt(s, it) == |g| && ValueAt(s, it) == Decimal(g, 0, |g|)
  {
    assert forall i :: it <= i < it + |g| ==> s[i] == g[i-it];
    RunAtIs(s, it, |g|);
    SameDigits(s, it, g, |g|);
  }

  lemma {:induction false} DottedNext(s: string, it: nat, n: nat, g: string)
    requires it + |g| <= |s| && n > 0 && s[it..it+|g|] == g && Octet(g)
    ensures n == 1 && it + |g| == |s| ==> Dotted(s, it, n) == Some([Decimal(g, 0, |g|)])
    ensures n > 1 && it + |g| < |s| && s[it+|g|] == '.' ==>
      Dotted(s, it, n) == Prepend(Decimal(g, 0, |g|), Dotted(s, it + |g| + 1, n - 1))
  {
    if it + |g| == |s| || s[it+|g|] == '.' {
      GroupAt(s, it, g);
    }
  }

  /** From `it` up to `end`, `s` consists of the groups with separators between them. */
  predicate Laid(s: string, it: nat, gs: seq<string>, sep: char, end: nat)
    requires gs != []
    decreases |gs|
  {
    var j := it + |gs[0]|;
    && j <= |s| && s[it..j] == gs[0]
    && if |gs| == 1 then j == end else j < |s| && s[j] == sep && Laid(s, j + 1, gs[1..], sep, end)
  }

  lemma {:induction false} Cut(s: string, it: nat, end: nat, head: string, rest: string)
    requires it <= end <= |s| && s[it..end] == head + rest
    ensures var j := it + |head|; j <= end && s[it..j] == head && s[j..end] == rest
  {
    assert s[it..it+|head|] == s[it..end][..|head|];
    assert s[it+|head|..end] == s[it..end][|head|..];
  }

  lemma {:induction false} PieceIsLaid(s: string, it: nat, end: nat, gs: seq<string>, sep: char)
    requires gs != [] && it <= end <= |s| && s[it..end] == Joined(gs, sep)
    ensures Laid(s, it, gs, sep, end)
    decreases |gs|
  {
    if |gs| > 1 {
      var j, rest := it + |gs[0]|, Joined(gs[1..], sep);
      assert Joined(gs, sep) == gs[0] + ([sep] + rest);
      Cut(s, it, end, gs[0], [sep] + rest);
      Cut(s, j, end, [sep], rest);
      assert s[j] == s[j..j+1][0];
      PieceIsLaid(s, j + 1, end, gs[1..], sep);
    }
  }

  lemma {:induction false} JoinedIsLaid(front: string, gs: seq<string>, sep: char, tail: string)
    requires gs != []
    ensures Laid(front + Joined(gs, sep) + tail, |front|, gs, sep, |front| + |Joined(gs, sep)|)
  {
    var text := Joined(gs, sep);
    assert (front + text + tail)[|front|..|front| + |text|] == text;
    PieceIsLaid(front + text + tail, |front|, |front| + |text|, gs, sep);
  }

  lemma {:induction false} DottedComplete(s: string, it: nat, gs: seq<string>)
    requires it <= |s| && gs != [] && Octets(gs) && Laid(s, it, gs, '.', |s|)
    ensures Dotted(s, it, |gs|) == Some(Numerals(gs))
    decreases |gs|
  {
    DottedNext(s, it, |gs|, gs[0]);
    if |gs| > 1 {
      DottedComplete(s, it + |gs[0]| + 1, gs[1..]);
    }
    NumeralsNext(gs);
  }

  lemma {:induction false} NumeralsNext(gs: seq<string>)
    requires gs != [] && Octets(gs)
    ensures Some(Numerals(gs)) == if |gs| == 1 then Some([Decimal(gs[0], 0, |gs[0]|)])
                                  else Prepend(Decimal(gs[0], 0, |gs[0]|), Some(Numerals(gs[1..])))
  {
    assert Numerals(gs) == [Decimal(gs[0], 0, |gs[0]|)] + Numerals(gs[1..]);
    if |gs| == 1 {
      assert gs[1..] == [] && [Decimal(gs[0], 0, |gs[0]|)] + [] == [Decimal(gs[0], 0, |gs[0]|)];
    }
  }

  lemma {:induction false} RunIsOctet(s: string, it: nat)
    requires it <= |s| && RunAt(s, it) > 0 && ValueAt(s, it) <= 255
    ensures Octet(s[it..it+RunAt(s, it)])
  {
    RunIsDigits(s, it);
    SameDigits(s, it, s[it..it+RunAt(s, it)], RunAt(s, it));
  }

  lemma DottedStep(s: string, it: nat, n: nat)
    requires it <= |s| && n > 0 && Dotted(s, it, n).Some?
    ensures var d := RunAt(s, it);
      && d > 0 && ValueAt(s, it) <= 255 && it + d <= |s|
      && (if n == 1 then it + d == |s|
          else it + d < |s| && s[it+d] == '.' && Dotted(s, it + d + 1, n - 1).Some?)
  {
  }

  lemma JoinedNext(g: string, gs: seq<string>, sep: char)
    requires gs != []
    ensures Joined([g] + gs, sep) == g + [sep] + Joined(gs, sep)
  {
    assert ([g] + gs)[1..] == gs;
  }

  lemma OctetsNext(g: string, gs: seq<string>)
    requires Octet(g) && Octets(gs)
    ensures Octets([g] + gs)
  {
    assert ([g] + gs)[1..] == gs;
  }

  /** A group and the text behind its dot. */
  lemma JoinedBehind(s: string, it: nat, j: nat, gs: seq<string>, sep: char)
    requires it <= j < |s| && s[j] == sep && gs != [] && s[j+1..] == Joined(gs, sep)
    ensures s[it..] == Joined([s[it..j]] + gs, sep)
  {
    JoinedNext(s[it..j], gs, sep);
    CutAt(s, it, j);
  }

  lemma LastGroup(s: string, it: nat)
    requires it <= |s| && Octet(s[it..])
    ensures Octets([s[it..]]) && s[it..] == Joined([s[it..]], '.')
  {
  }

  lemma {:induction false} DottedSound(s: string, it: nat, n: nat) returns (gs: seq<string>)
    requires it <= |s| && n > 0 && Dotted(s, it, n).Some?
    ensures |gs| == n && Octets(gs) && s[it..] == Joined(gs, '.')
    decreases n
  {
    var j := it + RunAt(s, it);
    DottedStep(s, it, n);
    RunIsOctet(s, it);
    if n == 1 {
      assert s[it..j] == s[it..];
      LastGroup(s, it);
      gs := [s[it..]];
    } else {
      var rest := DottedSound(s, j + 1, n - 1);
      OctetsNext(s[it..j], rest);
      JoinedBehind(s, it, j, rest, '.');
      gs := [s[it..j]] + rest;
    }
  }

  lemma CutAt(s: string, it: nat, j: nat)
    requires it <= j < |s|
    ensures s[it..] == s[it..j] + [s[j]] + s[j+1..]
  {
  }

  lemma {:induction false} GroupsAreRead(gs: seq<string>)
    requires gs != [] && Octets(gs)
    ensures Dotted(Joined(gs, '.'), 0, |gs|) == Some(Numerals(gs))
  {
    var s := Joined(gs, '.');
    JoinedIsLaid([], gs, '.', []);
    assert [] + s + [] == s;
    DottedComplete(s, 0, gs);
  }

  /** The IPv4 parser accepts exactly four dotted groups of at most 255, whatever else the
      string may look like, and returns their values. */
  lemma {:induction false} Ipv4Accepts(s: string)
    ensures Dotted(s, 0, 4).Some? <==> exists gs :: |gs| == 4 && Octets(gs) && s == Joined(gs, '.')
    ensures forall gs :: |gs| == 4 && Octets(gs) && s == Joined(gs, '.') ==> Dotted(s, 0, 4) == Some(Numerals(gs))
  {
    if Dotted(s, 0, 4).Some? {
      var gs := DottedSound(s, 0, 4);
      assert s[0..] == s;
    }
    forall gs | |gs| == 4 && Octets(gs) && s == Joined(gs, '.') ensures Dotted(s, 0, 4) == Some(Numerals(gs)) {
      GroupsAreRead(gs);
    }
  }

  // ---- IPv6 ----

  /** How many of the next `max` characters are hexadecimal digits, from the first on. */
  function HexRun(s: string, it: nat, max: nat): (d: nat)
    requires it <= |s|
    ensures d <= max && it + d <= |s|
    decreases |s| - it
  {
    if max == 0 || it == |s| || !IsXDigit(s[it]) then 0 else 1 + HexRun(s, it + 1, max - 1)
  }

  /** At most `n` groups of up to four digits.  A colon may follow each, even the last. */
  function Hextets(s: string, it: nat, n: nat): Option<seq<nat>>
    requires it <= |s|
    decreases |s| - it
  {
    var d := HexRun(s, it, 4);
    if n == 0 then if it == |s| then Some([]) else None
    else if d == 0 then None
    else
      var v := Hex(s, it, it + d);
      if it + d == |s| then Some([v])
      else Prepend(v, Hextets(s, if s[it+d] == ':' then it + d + 1 else it + d, n - 1))
  }

  function Zeros(n: nat): seq<nat> {
    seq(n, _ => 0)
  }

  function Padded(r: Option<seq<nat>>): Option<seq<nat>> {
    if r.Some? && |r.value| <= 8 then Some(r.value + Zeros(8 - |r.value|)) else None
  }

  function Ipv6(s: string): Option<seq<nat>> {
    if At(s, 0) == ':' && At(s, 1) == ':' then
      if |s| == 2 then Some(Zeros(8)) else Padded(Hextets(s, 2, 8))
    else Padded(Hextets(s, 0, 8))
  }

  lemma FourDigits(s: string, i: nat, j: nat)
    requires i <= j <= |s| && j <= i + 4
    ensures Hex(s, i, j) < 0x1_0000
  {
    if i < j { assert Hex(s, i, j) == 16 * Hex(s, i, j - 1) + DigitValue(s[j-1]); }
    if i + 1 < j { assert Hex(s, i, j - 1) == 16 * Hex(s, i, j - 2) + DigitValue(s[j-2]); }
    if i + 2 < j { assert Hex(s, i, j - 2) == 16 * Hex(s, i, j - 3) + DigitValue(s[j-3]); }
  }

  /** The inner loop: up to four digits, shifted into a 16-bit group. */
  method ParseHextet(s: string, start: nat) returns (v: nat, it: nat)
    requires CString(s) && start <= |s|
    ensures var d := HexRun(s, start, 4); it == start + d && v == Hex(s, start, it) < 0x1_0000
  {
    v, it := 0, start;
    for j := 0 to 4
      invariant it == start + j <= |s| && v == Hex(s, start, it)
      invariant HexRun(s, start, 4) == j + HexRun(s, it, 4 - j)
    {
      if !IsXDigit(At(s, it)) {
        break;
      }
      v := v * 16 + DigitValue(s[it]);
      it := it + 1;
    }
    FourDigits(s, start, it);
  }

  /** One turn of the outer loop.  The test for a second colon comes after the one that
      consumed the first, and so never succeeds. */
  method ParseTurn(s: string, start: nat, n: nat) returns (v: Option<nat>, it: nat, ended: bool)
    requires CString(s) && start <= |s| && n > 0
    ensures it <= |s|
    ensures v.None? ==> Hextets(s, start, n) == None
    ensures v.Some? && ended ==> it == |s| && Hextets(s, start, n) == Some([v.value])
    ensures v.Some? && !ended ==> Hextets(s, start, n) == Prepend(v.value, Hextets(s, it, n - 1))
  {
    if !IsXDigit(At(s, start)) {
      return None, start, false;
    }
    var group;
    group, it := ParseHextet(s, start);
    if At(s, it) == ':' {
      return Some(group), it + 1, false;
    }
    if At(s, it) == ':' {
      assert false;
    }
    return Some(group), it, At(s, it) == '\0';
  }

  /** yo_parse_ipv6.  `zeroesI` is only ever 0 or -1, so nothing is moved in the end. */
  method ParseIpv6(s: string) returns (r: Option<seq<nat>>)
    requires CString(s)
    ensures r == Ipv6(s)
  {
    var it: nat := 0;
    var zeroesI := -1;
    if At(s, 0) == ':' && At(s, 1) == ':' {
      it := 2;
      zeroesI := 0;
      if At(s, it) == '\0' {
        return Some(Zeros(8));
      }
    }
    r := ParseGroups(s, it);
    if zeroesI > 0 {
      assert false;
    }
  }

  lemma {:induction false} PaddedEnds(vs: seq<nat>, v: nat)
    requires |vs| < 8
    ensures Padded(PrependAll(vs, Some([v]))) == Some((vs + Zeros(8 - |vs|))[|vs| := v])
    ensures (vs + Zeros(8 - |vs|))[|vs| := v] == vs + [v] + Zeros(7 - |vs|)
  {
    assert (vs + Zeros(8 - |vs|))[|vs| := v] == vs + [v] + Zeros(7 - |vs|);
  }

  method ParseGroups(s: string, start: nat) returns (r: Option<seq<nat>>)
    requires CString(s) && start <= |s|
    ensures r == Padded(Hextets(s, start, 8))
  {
    var res: seq<nat> := Zeros(8);
    var it: nat := start;
    ghost var done: seq<nat>, goal, rest := [], Hextets(s, start, 8), Hextets(s, start, 8);
    PrependNothing(goal);
    for i := 0 to 8
      invariant it <= |s| && |done| == i && res == done + Zeros(8 - i)
      invariant rest == Hextets(s, it, 8 - i) && goal == PrependAll(done, rest)
    {
      var v, ended;
      v, it, ended := ParseTurn(s, it, 8 - i);
      if v.None? {
        assert goal.None?;
        return None;
      }
      PaddedEnds(done, v.value);
      res := res[i := v.value];
      if ended {
        assert rest == Some([v.value]);
        return Some(res);
      }
      rest := Hextets(s, it, 7 - i);
      PrependNext(done, v.value, rest);
      done := done + [v.value];
    }
    assert done + Zeros(0) == done;
    r := Finish(s, it, res, goal);
  }

  /** The last test: nothing may follow the eighth group. */
  method Finish(s: string, it: nat, res: seq<nat>, ghost goal: Option<seq<nat>>) returns (r: Option<seq<nat>>)
    requires CString(s) && it <= |s| && |res| == 8 && goal == PrependAll(res, Hextets(s, it, 0))
    ensures r == Padded(goal)
  {
    if At(s, it) != '\0' {
      return None;
    }
    assert res + [] == res && res + Zeros(0) == res;
    return Some(res);
  }

  // ---- Printing ----

  function DigitChar(v: nat): (c: char)
    requires v < 16
    ensures IsXDigit(c) && DigitValue(c) == v && (v < 10 ==> IsDigit(c))
  {
    if v < 10 then '0' + v as char else 'a' + (v - 10) as char
  }

  /** `%d` */
  function DecimalText(n: nat): (t: string)
    ensures t != []
  {
    if n < 10 then [DigitChar(n)] else DecimalText(n / 10) + [DigitChar(n % 10)]
  }

  /** `%x` */
  function HexText(n: nat): (t: string)
    ensures t != []
  {
    if n < 16 then [DigitChar(n)] else HexText(n / 16) + [DigitChar(n % 16)]
  }

  lemma {:induction false} DecimalReads(n: nat)
    ensures var t := DecimalText(n);
      Decimal(t, 0, |t|) == n && forall c :: c in t ==> IsDigit(c)
  {
    if n >= 10 {
      var u := DecimalText(n / 10);
      DecimalReads(n / 10);
      SameDigits(DecimalText(n), 0, u, |u|);
    }
  }

  lemma {:induction false} HexReads(n: nat)
    ensures var t := HexText(n);
      && Hex(t, 0, |t|) == n && (forall c :: c in t ==> IsXDigit(c))
      && (n < 0x10 ==> |t| <= 1) && (n < 0x100 ==> |t| <= 2) && (n < 0x1000 ==> |t| <= 3) && (n < 0x1_0000 ==> |t| <= 4)
  {
    if n >= 16 {
      var u := HexText(n / 16);
      HexReads(n / 16);
      SameDigits(HexText(n), 0, u, |u|);
    }
  }

  predicate AllBelow(vs: seq<nat>, bound: nat) {
    forall i :: 0 <= i < |vs| ==> vs[i] < bound
  }

  function DecimalTexts(vs: seq<nat>): seq<string> {
    if vs == [] then [] else [DecimalText(vs[0])] + DecimalTexts(vs[1..])
  }

  function HexTexts(vs: seq<nat>): seq<string> {
    if vs == [] then [] else [HexText(vs[0])] + HexTexts(vs[1..])
  }

  /** The two formats of the address printer. */
  function Print4(vs: seq<nat>): string {
    Joined(DecimalTexts(vs), '.')
  }

  function Print6(vs: seq<nat>): string {
    Joined(HexTexts(vs), ':')
  }

  lemma {:induction false} DecimalTextsRead(vs: seq<nat>)
    requires AllBelow(vs, 256)
    ensures var gs := DecimalTexts(vs); |gs| == |vs| && Octets(gs) && Numerals(gs) == vs
  {
    if vs != [] {
      assert vs[0] < 256 && AllBelow(vs[1..], 256) by {
        assert forall i :: 0 <= i < |vs| - 1 ==> vs[1..][i] == vs[i+1];
      }
      DecimalReads(vs[0]);
      DecimalTextsRead(vs[1..]);
      var rest := DecimalTexts(vs[1..]);
      assert DecimalTexts(vs) == [DecimalText(vs[0])] + rest;
      assert forall i :: 0 < i <= |rest| ==> DecimalTexts(vs)[i] == rest[i-1];
      assert DecimalTexts(vs)[1..] == rest && vs == [vs[0]] + vs[1..];
    }
  }

  /** Parsing undoes printing, for every IPv4 address. */
  lemma {:induction false} Ipv4RoundTrips(vs: seq<nat>)
    requires |vs| == 4 && AllBelow(vs, 256)
    ensures Dotted(Print4(vs), 0, 4) == Some(vs)
  {
    DecimalTextsRead(vs);
    GroupsAreRead(DecimalTexts(vs));
  }

  lemma {:induction false} HexRunIs(s: string, it: nat, d: nat, max: nat)
    requires it + d <= |s| && d <= max && forall i :: it <= i < it + d ==> IsXDigit(s[i])
    requires d < max && it + d < |s| ==> !IsXDigit(s[it+d])
    ensures HexRun(s, it, max) == d
    decreases d
  {
    if d > 0 {
      HexRunIs(s, it + 1, d - 1, max - 1);
    }
  }

  /** A text of one to four hexadecimal digits with the value `v`. */
  predicate Hextet(g: string, v: nat) {
    1 <= |g| <= 4 && (forall c :: c in g ==> IsXDigit(c)) && Hex(g, 0, |g|) == v
  }

  predicate AreHextets(gs: seq<string>, vs: seq<nat>) {
    |gs| == |vs| && (gs == [] || (Hextet(gs[0], vs[0]) && AreHextets(gs[1..], vs[1..])))
  }

  lemma {:induction false} HextetAt(s: string, it: nat, g: string, v: nat)
    requires Hextet(g, v) && it + |g| <= |s| && s[it..it+|g|] == g && (it + |g| < |s| ==> s[it+|g|] == ':')
    ensures HexRun(s, it, 4) == |g| && Hex(s, it, it + |g|) == v
  {
    assert forall i :: it <= i < it + |g| ==> s[i] == g[i-it] && g[i-it] in g;
    HexRunIs(s, it, |g|, 4);
    SameDigits(s, it, g, |g|);
  }

  lemma {:induction false} HextetsNext(s: string, it: nat, g: string, v: nat, n: nat)
    requires Hextet(g, v) && it + |g| <= |s| && s[it..it+|g|] == g && n > 0
    ensures it + |g| == |s| ==> Hextets(s, it, n) == Some([v])
    ensures it + |g| < |s| && s[it+|g|] == ':' ==> Hextets(s, it, n) == Prepend(v, Hextets(s, it + |g| + 1, n - 1))
  {
    if it + |g| == |s| || s[it+|g|] == ':' {
      HextetAt(s, it, g, v);
    }
  }

  lemma ColonIsNoHextet(s: string, it: nat, n: nat)
    requires it < |s| && s[it] == ':'
    ensures Hextets(s, it, n) == None
  {
  }

  lemma NoneLeft(s: string, it: nat)
    requires it < |s|
    ensures Hextets(s, it, 0) == None
  {
  }

  /** A group with another one behind it. */
  lemma FirstHextet(s: string, it: nat, gs: seq<string>, vs: seq<nat>, end: nat, n: nat)
    requires |gs| > 1 && AreHextets(gs, vs) && Laid(s, it, gs, ':', end) && n > 0
    ensures var next := it + |gs[0]| + 1;
      && next <= |s| && AreHextets(gs[1..], vs[1..]) && Laid(s, next, gs[1..], ':', end)
      && Hextets(s, it, n) == Prepend(vs[0], Hextets(s, next, n - 1))
  {
    HextetsNext(s, it, gs[0], vs[0], n);
  }

  /** Groups up to the end of the text are all read ... */
  lemma {:induction false} HextetsComplete(s: string, it: nat, gs: seq<string>, vs: seq<nat>, n: nat)
    requires it <= |s| && gs != [] && AreHextets(gs, vs) && Laid(s, it, gs, ':', |s|) && |gs| <= n
    ensures Hextets(s, it, n) == Some(vs)
    decreases |gs|
  {
    if |gs| > 1 {
      var next := it + |gs[0]| + 1;
      FirstHextet(s, it, gs, vs, |s|, n);
      HextetsComplete(s, next, gs[1..], vs[1..], n - 1);
      FirstOfRest(vs, 0, Hextets(s, it, n), Hextets(s, next, n - 1));
      assert vs[0..] == vs;
    } else {
      HextetsNext(s, it, gs[0], vs[0], n);
      assert vs == [vs[0]];
    }
  }

  lemma ColonsBehind(s: string, it: nat, gs: seq<string>, vs: seq<nat>, n: nat)
    requires |gs| == 1 && AreHextets(gs, vs) && Laid(s, it, gs, ':', it + |gs[0]|) && n > 0
    requires it + |gs[0]| + 1 < |s| && s[it+|gs[0]|] == ':' == s[it+|gs[0]|+1]
    ensures Hextets(s, it, n) == None
  {
    HextetsNext(s, it, gs[0], vs[0], n);
    ColonIsNoHextet(s, it + |gs[0]| + 1, n - 1);
  }

  /** ... and groups before a double colon are read in vain. */
  lemma {:induction false} DoubleColonFails(s: string, it: nat, gs: seq<string>, vs: seq<nat>, end: nat, n: nat)
    requires it <= |s| && gs != [] && AreHextets(gs, vs) && Laid(s, it, gs, ':', end)
    requires end + 1 < |s| && s[end] == ':' == s[end+1]
    ensures Hextets(s, it, n) == None
    decreases |gs|
  {
    if n == 0 {
      NoneLeft(s, it);
    } else if |gs| == 1 {
      ColonsBehind(s, it, gs, vs, n);
    } else {
      FirstHextet(s, it, gs, vs, end, n);
      DoubleColonFails(s, it + |gs[0]| + 1, gs[1..], vs[1..], end, n - 1);
    }
  }

  lemma {:induction false} HexTextsRead(vs: seq<nat>)
    requires AllBelow(vs, 0x1_0000)
    ensures AreHextets(HexTexts(vs), vs)
  {
    if vs != [] {
      assert AllBelow(vs[1..], 0x1_0000) by {
        assert forall i :: 0 <= i < |vs| - 1 ==> vs[1..][i] == vs[i+1];
      }
      HexTextsRead(vs[1..]);
      HexReads(vs[0]);
      assert HexTexts(vs)[0] == HexText(vs[0]) && HexTexts(vs)[1..] == HexTexts(vs[1..]);
    }
  }

  /** Groups in their place. */
  lemma {:induction false} GroupsLie(front: string, gs: seq<string>, vs: seq<nat>, tail: string)
    requires gs != [] && AreHextets(gs, vs)
    ensures var s := front + Joined(gs, ':') + tail;
      Laid(s, |front|, gs, ':', |front| + |Joined(gs, ':')|) && |front| < |s| && IsXDigit(s[|front|])
  {
    var s := front + Joined(gs, ':') + tail;
    JoinedIsLaid(front, gs, ':', tail);
    assert Hextet(gs[0], vs[0]) && gs[0][0] in gs[0];
    assert s[|front|] == s[|front|..|front|+|gs[0]|][0];
  }

  /** The printed groups in their place. */
  lemma {:induction false} PrintIsLaid(front: string, vs: seq<nat>, tail: string)
    requires vs != [] && AllBelow(vs, 0x1_0000)
    ensures var gs, s := HexTexts(vs), front + Print6(vs) + tail;
      && gs != [] && AreHextets(gs, vs) && Laid(s, |front|, gs, ':', |front| + |Print6(vs)|)
      && IsXDigit(s[|front|])
      && (|vs| > 1 ==> ':' in s)
  {
    HexTextsRead(vs);
    GroupsLie(front, HexTexts(vs), vs, tail);
  }

  /** Parsing undoes printing, for every IPv6 address. */
  lemma {:induction false} Ipv6RoundTrips(vs: seq<nat>)
    requires |vs| == 8 && AllBelow(vs, 0x1_0000)
    ensures Ipv6(Print6(vs)) == Some(vs)
  {
    var s := Print6(vs);
    PrintIsLaid([], vs, []);
    assert [] + s + [] == s;
    HextetsComplete(s, 0, HexTexts(vs), vs, 8);
    assert vs + Zeros(0) == vs;
  }

  // ---- Everything the IPv6 parser accepts ----

  /** A group as the parser meets it, and whether a colon follows. */
  datatype Piece = Piece(text: string, colon: bool) {
    function Text(): string {
      if colon then text + [':'] else text
    }
  }

  function Rendered(ps: seq<Piece>): string {
    if ps == [] then [] else ps[0].Text() + Rendered(ps[1..])
  }

  predicate HexGroup(g: string) {
    1 <= |g| <= 4 && forall i :: 0 <= i < |g| ==> IsXDigit(g[i])
  }

  /** At most `n` groups.  A colon may be missing after four digits, and may follow the last
      group only if it is the n-th. */
  predicate Readable(ps: seq<Piece>, n: nat) {
    && 1 <= |ps| <= n
    && (forall k :: 0 <= k < |ps| ==> HexGroup(ps[k].text))
    && (forall k :: 0 <= k < |ps| - 1 ==> ps[k].colon || |ps[k].text| == 4)
    && (ps[|ps|-1].colon ==> |ps| == n)
  }

  function Values(ps: seq<Piece>): seq<nat> {
    seq(|ps|, k requires 0 <= k < |ps| => Hex(ps[k].text, 0, |ps[k].text|))
  }

  /** In `s`, piece `p` lies between `it` and `next`. */
  predicate LiesAt(s: string, p: Piece, it: nat, next: nat) {
    var j := it + |p.text|;
    && next == (if p.colon then j + 1 else j) <= |s|
    && s[it..j] == p.text && (p.colon ==> s[j] == ':')
  }

  /** In `s`, the pieces lie one after the other, up to the end. */
  ghost predicate LieAt(s: string, ps: seq<Piece>, at: seq<nat>) {
    && |at| == |ps| + 1 && at[|ps|] == |s|
    && forall k :: 0 <= k < |ps| ==> LiesAt(s, ps[k], at[k], at[k+1])
  }

  lemma FirstLies(s: string, front: string, p: Piece, rest: string)
    requires s == front + (p.Text() + rest)
    ensures LiesAt(s, p, |front|, |front + p.Text()|) && s == (front + p.Text()) + rest
  {
  }

  lemma {:induction false} RenderedLies(s: string, front: string, ps: seq<Piece>) returns (at: seq<nat>)
    requires s == front + Rendered(ps)
    ensures LieAt(s, ps, at) && at[0] == |front|
    decreases |ps|
  {
    if ps == [] {
      at := [|front|];
    } else {
      FirstLies(s, front, ps[0], Rendered(ps[1..]));
      var rest := RenderedLies(s, front + ps[0].Text(), ps[1..]);
      at := [|front|] + rest;
      forall k | 0 <= k < |ps| ensures LiesAt(s, ps[k], at[k], at[k+1]) {
        assert k > 0 ==> LiesAt(s, ps[1..][k-1], rest[k-1], rest[k]);
      }
    }
  }

  /** One group as the parser reads it. */
  lemma {:induction false} PieceAt(s: string, it: nat, g: string, n: nat)
    requires HexGroup(g) && it + |g| <= |s| && s[it..it+|g|] == g && n > 0
    requires it + |g| < |s| ==> s[it+|g|] == ':' || |g| == 4
    ensures var v, j := Hex(g, 0, |g|), it + |g|;
      Hextets(s, it, n) == if j == |s| then Some([v])
                           else Prepend(v, Hextets(s, if s[j] == ':' then j + 1 else j, n - 1))
  {
    assert forall i :: it <= i < it + |g| ==> s[i] == g[i-it];
    HexRunIs(s, it, |g|, 4);
    SameDigits(s, it, g, |g|);
  }

  lemma PieceStarts(s: string, it: nat, p: Piece, next: nat)
    requires LiesAt(s, p, it, next) && HexGroup(p.text)
    ensures it < |s| && s[it] != ':'
  {
    assert s[it..it+|p.text|][0] == p.text[0];
  }

  /** A piece with something behind it, and the last piece. */
  lemma PieceIsRead(s: string, it: nat, p: Piece, next: nat, n: nat)
    requires LiesAt(s, p, it, next) && HexGroup(p.text) && n > 0
    requires p.colon || next == |s| || (|p.text| == 4 && s[next] != ':')
    ensures Hextets(s, it, n) == if !p.colon && next == |s| then Some([Hex(p.text, 0, |p.text|)])
                                 else Prepend(Hex(p.text, 0, |p.text|), Hextets(s, next, n - 1))
  {
    PieceAt(s, it, p.text, n);
  }

  /** The groups from the k-th on are read from where the k-th lies. */
  ghost predicate ReadFrom(s: string, vs: seq<nat>, it: nat, k: nat, n: nat)
    requires k <= |vs| && k <= n
  {
    it <= |s| && Hextets(s, it, n - k) == Some(vs[k..])
  }

  lemma FirstOfRest(vs: seq<nat>, k: nat, r: Option<seq<nat>>, rest: Option<seq<nat>>)
    requires k < |vs| && r == Prepend(vs[k], rest) && rest == Some(vs[k+1..])
    ensures r == Some(vs[k..])
  {
    assert vs[k..] == [vs[k]] + vs[k+1..];
  }

  lemma LastPieceIsRead(s: string, it: nat, p: Piece, vs: seq<nat>, k: nat, n: nat)
    requires LiesAt(s, p, it, |s|) && HexGroup(p.text) && k < n && (p.colon ==> n == k + 1)
    requires k + 1 == |vs| && vs[k] == Hex(p.text, 0, |p.text|)
    ensures ReadFrom(s, vs, it, k, n)
  {
    PieceIsRead(s, it, p, |s|, n - k);
    assert vs[k..] == [vs[k]] && [vs[k]] + [] == [vs[k]];
  }

  lemma NextPieceIsRead(s: string, it: nat, p: Piece, next: nat, vs: seq<nat>, k: nat, n: nat)
    requires LiesAt(s, p, it, next) && HexGroup(p.text) && k + 1 < |vs| && k < n
    requires next < |s| && (p.colon || (|p.text| == 4 && s[next] != ':'))
    requires vs[k] == Hex(p.text, 0, |p.text|) && ReadFrom(s, vs, next, k + 1, n)
    ensures ReadFrom(s, vs, it, k, n)
  {
    PieceIsRead(s, it, p, next, n - k);
    FirstOfRest(vs, k, Hextets(s, it, n - k), Hextets(s, next, n - k - 1));
  }

  lemma {:induction false} PiecesAreRead(s: string, ps: seq<Piece>, at: seq<nat>, k: nat, n: nat)
    requires LieAt(s, ps, at) && Readable(ps, n) && k < |ps|
    ensures ReadFrom(s, Values(ps), at[k], k, n)
    decreases |ps| - k
  {
    assert LiesAt(s, ps[k], at[k], at[k+1]);
    if k + 1 < |ps| {
      PieceStarts(s, at[k+1], ps[k+1], at[k+2]);
      PiecesAreRead(s, ps, at, k + 1, n);
      NextPieceIsRead(s, at[k], ps[k], at[k+1], Values(ps), k, n);
    } else {
      LastPieceIsRead(s, at[k], ps[k], Values(ps), k, n);
    }
  }

  lemma RenderedStarts(ps: seq<Piece>, n: nat)
    requires Readable(ps, n)
    ensures Rendered(ps) != [] && IsXDigit(Rendered(ps)[0])
  {
    assert Rendered(ps)[0] == ps[0].text[0];
  }

  /** The piece the parser reads at `it`. */
  function ReadPiece(s: string, it: nat): Piece
    requires it <= |s|
  {
    var j := it + HexRun(s, it, 4);
    Piece(s[it..j], j < |s| && s[j] == ':')
  }

  lemma {:induction false} ReadPieceIs(s: string, it: nat)
    requires it <= |s| && HexRun(s, it, 4) > 0
    ensures var p, next := ReadPiece(s, it), NextPiece(s, it);
      && HexGroup(p.text) && LiesAt(s, p, it, next)
      && (p.colon || |p.text| == 4 || next == |s| || HexRun(s, next, 4) == 0)
  {
    var d, p := HexRun(s, it, 4), ReadPiece(s, it);
    HexRunIsDigits(s, it, 4);
    assert forall i :: 0 <= i < d ==> p.text[i] == s[it+i];
  }

  function NextPiece(s: string, it: nat): nat
    requires it <= |s|
  {
    var j := it + HexRun(s, it, 4);
    if j < |s| && s[j] == ':' then j + 1 else j
  }

  lemma HextetsStep(s: string, it: nat, n: nat)
    requires it <= |s| && n > 0 && Hextets(s, it, n).Some?
    ensures HexRun(s, it, 4) > 0
    ensures var next := NextPiece(s, it);
      (next == |s| && !ReadPiece(s, it).colon) || Hextets(s, next, n - 1).Some?
  {
  }

  lemma HextetsEnd(s: string, it: nat, n: nat)
    requires it <= |s| && Hextets(s, it, n).Some?
    ensures n == 0 ==> it == |s|
    ensures n > 0 ==> it < |s| && HexRun(s, it, 4) > 0
  {
  }

  lemma {:induction false} ReadIsPieces(s: string, it: nat, n: nat) returns (ps: seq<Piece>, at: seq<nat>)
    requires it <= |s| && n > 0 && Hextets(s, it, n).Some?
    ensures Readable(ps, n) && LieAt(s, ps, at) && at[0] == it
    decreases n
  {
    var p, next := ReadPiece(s, it), NextPiece(s, it);
    HextetsStep(s, it, n);
    ReadPieceIs(s, it);
    if next == |s| && (n == 1 || !p.colon) {
      ps, at := [p], [it, next];
    } else {
      HextetsEnd(s, next, n - 1);
      var rest, ends := ReadIsPieces(s, next, n - 1);
      PieceBefore(s, p, it, rest, ends, n);
      ps, at := [p] + rest, [it] + ends;
    }
  }

  lemma PieceBefore(s: string, p: Piece, it: nat, ps: seq<Piece>, at: seq<nat>, n: nat)
    requires n > 0 && Readable(ps, n - 1) && LieAt(s, ps, at) && LiesAt(s, p, it, at[0])
    requires HexGroup(p.text) && (p.colon || |p.text| == 4)
    ensures Readable([p] + ps, n) && LieAt(s, [p] + ps, [it] + at)
  {
    forall k | 0 <= k < |ps| + 1 ensures LiesAt(s, ([p] + ps)[k], ([it] + at)[k], ([it] + at)[k+1]) {
      assert k > 0 ==> LiesAt(s, ps[k-1], at[k-1], at[k]);
    }
  }

  lemma PieceIsText(s: string, p: Piece, it: nat, next: nat)
    requires LiesAt(s, p, it, next)
    ensures s[it..] == p.Text() + s[next..]
  {
  }

  lemma {:induction false} LieIsRendered(s: string, ps: seq<Piece>, at: seq<nat>, k: nat)
    requires LieAt(s, ps, at) && k <= |ps|
    ensures at[k] <= |s| && s[at[k]..] == Rendered(ps[k..])
    decreases |ps| - k
  {
    if k < |ps| {
      LieIsRendered(s, ps, at, k + 1);
      PieceIsText(s, ps[k], at[k], at[k+1]);
      assert ps[k..][0] == ps[k] && ps[k..][1..] == ps[k+1..];
    }
  }

  lemma {:induction false} HexRunIsDigits(s: string, it: nat, max: nat)
    requires it <= |s|
    ensures var d := HexRun(s, it, max);
      && (forall i :: it <= i < it + d ==> IsXDigit(s[i]))
      && (d < max && it + d < |s| ==> !IsXDigit(s[it+d]))
    decreases max
  {
    if max > 0 && it < |s| && IsXDigit(s[it]) {
      HexRunIsDigits(s, it + 1, max - 1);
    }
  }

  /** The IPv6 parser accepts the double colon alone, and otherwise exactly the readable groups
      with or without a double colon before them; either way the groups fill the address
      from the left and zeros fill the rest. */
  lemma {:induction false} Ipv6Accepts(s: string)
    ensures Ipv6(s).Some? <==>
            s == "::" || exists ps :: Readable(ps, 8) && (s == Rendered(ps) || s == "::" + Rendered(ps))
  {
    if Ipv6(s).Some? && s != "::" {
      var it := if At(s, 0) == ':' && At(s, 1) == ':' then 2 else 0;
      var ps, at := ReadIsPieces(s, it, 8);
      LieIsRendered(s, ps, at, 0);
      assert ps[0..] == ps;
      assert s == if it == 2 then "::" + Rendered(ps) else Rendered(ps);
    }
    forall ps | Readable(ps, 8) && (s == Rendered(ps) || s == "::" + Rendered(ps)) ensures Ipv6(s).Some? {
      ReadableGroups(s, ps);
    }
  }

  lemma {:induction false} ReadableGroups(s: string, ps: seq<Piece>)
    requires Readable(ps, 8) && (s == Rendered(ps) || s == "::" + Rendered(ps))
    ensures |ps| <= 8 && Ipv6(s) == Some(Values(ps) + Zeros(8 - |ps|))
  {
    RenderedStarts(ps, 8);
    if s == Rendered(ps) {
      assert s[0..] == s;
      GroupsFrom(s, 0, ps);
    } else {
      assert s[2..] == Rendered(ps);
      GroupsFrom(s, 2, ps);
    }
  }

  lemma AllRead(s: string, it: nat, vs: seq<nat>)
    requires |vs| <= 8 && ReadFrom(s, vs, it, 0, 8)
    ensures Padded(Hextets(s, it, 8)) == Some(vs + Zeros(8 - |vs|))
  {
    assert vs[0..] == vs;
  }

  lemma {:induction false} GroupsFrom(s: string, it: nat, ps: seq<Piece>)
    requires it <= |s| && Readable(ps, 8) && s[it..] == Rendered(ps)
    ensures |ps| <= 8 && Padded(Hextets(s, it, 8)) == Some(Values(ps) + Zeros(8 - |ps|))
  {
    assert s == s[..it] + s[it..];
    var at := RenderedLies(s, s[..it], ps);
    PiecesAreRead(s, ps, at, 0, 8);
    AllRead(s, it, Values(ps));
  }

  // ---- Both parsers together ----

  function Parse(s: string): Option<Addr> {
    match Dotted(s, 0, 4)
    case Some(vs) => Some(V4(vs))
    case None => match Ipv6(s)
      case Some(vs) => Some(V6(vs))
      case None => None
  }

  /** yo_addrparse */
  method AddrParse(s: string) returns (r: Option<Addr>)
    requires CString(s)
    ensures r == Parse(s)
  {
    var v4 := ParseIpv4(s);
    if v4.Some? {
      return Some(V4(v4.value));
    }
    var v6 := ParseIpv6(s);
    if v6.Some? {
      return Some(V6(v6.value));
    }
    return None;
  }

  predicate WellFormed(a: Addr) {
    match a
    case V4(vs) => |vs| == 4 && AllBelow(vs, 256)
    case V6(vs) => |vs| == 8 && AllBelow(vs, 0x1_0000)
  }

  function Print(a: Addr): string {
    match a
    case V4(vs) => Print4(vs)
    case V6(vs) => Print6(vs)
  }

  lemma {:induction false} DottedHasNoColon(s: string, it: nat, n: nat)
    requires it <= |s| && n > 0 && Dotted(s, it, n).Some?
    ensures ':' !in s[it..]
    decreases n
  {
    var d := RunAt(s, it);
    RunIsDigits(s, it);
    if n > 1 {
      DottedHasNoColon(s, it + d + 1, n - 1);
      assert s[it..] == s[it..it+d] + ['.'] + s[it+d+1..];
    }
  }

  /** The IPv4 attempt comes first, and never takes a printed IPv6 address. */
  lemma Ipv4RejectsPrinted6(vs: seq<nat>)
    requires |vs| > 1 && AllBelow(vs, 0x1_0000)
    ensures Dotted(Print6(vs), 0, 4) == None
  {
    var s := Print6(vs);
    PrintIsLaid([], vs, []);
    assert [] + s + [] == s == s[0..];
    if Dotted(s, 0, 4).Some? {
      DottedHasNoColon(s, 0, 4);
    }
  }

  /** yo_addrparse inverts the printer on every address, and so tells any two apart. */
  lemma ParseUndoesPrint(a: Addr)
    requires WellFormed(a)
    ensures Parse(Print(a)) == Some(a)
  {
    match a
    case V4(vs) => Ipv4RoundTrips(vs);
    case V6(vs) =>
      Ipv4RejectsPrinted6(vs);
      Ipv6RoundTrips(vs);
  }

  lemma PrintIsInjective(a: Addr, b: Addr)
    requires WellFormed(a) && WellFormed(b) && Print(a) == Print(b)
    ensures a == b
  {
    ParseUndoesPrint(a);
    ParseUndoesPrint(b);
  }

  /** yo_addrcmp: memcmp over the octets or the groups. */
  method AddrCmp(a: Addr, b: Addr) returns (same: bool)
    requires WellFormed(a) && WellFormed(b)
    ensures same <==> Print(a) == Print(b)
  {
    if Print(a) == Print(b) {
      PrintIsInjective(a, b);
    }
    if a.V4? != b.V4? {
      return false;
    }
    return if a.V4? then a.octets == b.octets else a.groups == b.groups;
  }

  // ---- Upper and lower case ----

  /** The digits in their order, in either case. */
  lemma DigitsInOrder(v: nat)
    requires v < 16
    ensures DigitValue("0123456789abcdef"[v]) == v && DigitValue("0123456789ABCDEF"[v]) == v
  {
  }

  function Lower(c: char): char {
    if 'A' <= c <= 'Z' then c - 'A' + 'a' else c
  }

  /** The two texts differ at most in the case of letters. */
  ghost predicate SameButCase(s: string, t: string) {
    |s| == |t| && forall i :: 0 <= i < |s| ==> Lower(s[i]) == Lower(t[i])
  }

  lemma CaseIsIgnored(c: char, d: char)
    requires Lower(c) == Lower(d)
    ensures IsXDigit(c) == IsXDigit(d) && DigitValue(c) == DigitValue(d)
    ensures c == d || (!IsDigit(c) && !IsDigit(d) && c != '.' && d != '.' && c != ':' && d != ':')
  {
  }

  lemma {:induction false} SameHex(s: string, t: string, i: nat, j: nat)
    requires SameButCase(s, t) && i <= j <= |s|
    ensures Hex(s, i, j) == Hex(t, i, j) && Decimal(s, i, j) == Decimal(t, i, j)
    decreases j
  {
    if i < j {
      SameHex(s, t, i, j - 1);
      CaseIsIgnored(s[j-1], t[j-1]);
    }
  }

  lemma {:induction false} SameHexRun(s: string, t: string, it: nat, max: nat)
    requires SameButCase(s, t) && it <= |s|
    ensures HexRun(s, it, max) == HexRun(t, it, max)
    decreases max
  {
    if max > 0 && it < |s| {
      CaseIsIgnored(s[it], t[it]);
      SameHexRun(s, t, it + 1, max - 1);
    }
  }

  lemma {:induction false} SameRun(s: string, t: string, it: nat)
    requires SameButCase(s, t) && it <= |s|
    ensures RunAt(s, it) == RunAt(t, it)
    decreases |s| - it
  {
    if it < |s| {
      CaseIsIgnored(s[it], t[it]);
      SameRun(s, t, it + 1);
    }
  }

  lemma HextetsAlike(s: string, t: string, it: nat, n: nat)
    requires it <= |s| == |t| && HexRun(s, it, 4) == HexRun(t, it, 4)
    requires Hex(s, it, it + HexRun(s, it, 4)) == Hex(t, it, it + HexRun(s, it, 4))
    requires var j := it + HexRun(s, it, 4);
      j < |s| && j > it && n > 0 ==>
        (s[j] == ':' <==> t[j] == ':')
        && var next := if s[j] == ':' then j + 1 else j; Hextets(s, next, n - 1) == Hextets(t, next, n - 1)
    ensures Hextets(s, it, n) == Hextets(t, it, n)
  {
  }

  lemma {:induction false} SameHextets(s: string, t: string, it: nat, n: nat)
    requires SameButCase(s, t) && it <= |s|
    ensures Hextets(s, it, n) == Hextets(t, it, n)
    decreases n
  {
    var j := it + HexRun(s, it, 4);
    SameHexRun(s, t, it, 4);
    SameHex(s, t, it, j);
    if n > 0 && j > it && j < |s| {
      CaseIsIgnored(s[j], t[j]);
      SameHextets(s, t, if s[j] == ':' then j + 1 else j, n - 1);
    }
    HextetsAlike(s, t, it, n);
  }

  lemma DottedAlike(s: string, t: string, it: nat, n: nat)
    requires it <= |s| == |t| && n > 0 && RunAt(s, it) == RunAt(t, it) && ValueAt(s, it) == ValueAt(t, it)
    requires var j := it + RunAt(s, it);
      j < |s| ==>
        (s[j] == '.' <==> t[j] == '.') && (n > 1 ==> Dotted(s, j + 1, n - 1) == Dotted(t, j + 1, n - 1))
    ensures Dotted(s, it, n) == Dotted(t, it, n)
  {
  }

  lemma {:induction false} SameDotted(s: string, t: string, it: nat, n: nat)
    requires SameButCase(s, t) && it <= |s| && n > 0
    ensures Dotted(s, it, n) == Dotted(t, it, n)
    decreases n
  {
    var j := it + RunAt(s, it);
    SameRun(s, t, it);
    SameHex(s, t, it, j);
    if j < |s| {
      CaseIsIgnored(s[j], t[j]);
      if n > 1 {
        SameDotted(s, t, j + 1, n - 1);
      }
    }
    DottedAlike(s, t, it, n);
  }

  /** The parser does not distinguish upper and lower case. */
  lemma ParseIgnoresCase(s: string, t: string)
    requires SameButCase(s, t)
    ensures Parse(s) == Parse(t)
  {
    SameDotted(s, t, 0, 4);
    SameHextets(s, t, 0, 8);
    if |s| >= 1 {
      CaseIsIgnored(s[0], t[0]);
    }
    if |s| >= 2 {
      CaseIsIgnored(s[1], t[1]);
      SameHextets(s, t, 2, 8);
    }
  }

  // ---- Compressed forms ----

  /** The compressed text form of section 2.2 of RFC 4291, with groups before the double colon
      and after it, in any way of writing them, and the address it stands for. */
  function Compressed(fronts: seq<string>, backs: seq<string>): string {
    Joined(fronts, ':') + "::" + Joined(backs, ':')
  }

  function Meaning(front: seq<nat>, back: seq<nat>): seq<nat>
    requires |front| + |back| < 8
  {
    front + Zeros(8 - |front| - |back|) + back
  }

  lemma {:induction false} ShiftedZeros(vs: seq<nat>, m: nat, i: nat)
    requires m > 0 && vs + Zeros(m) == Zeros(m) + vs && i < |vs|
    ensures vs[i] == 0
    decreases i
  {
    assert vs[i] == (vs + Zeros(m))[i] == (Zeros(m) + vs)[i];
    if i >= m {
      ShiftedZeros(vs, m, i - m);
    }
  }

  lemma {:induction false} ShiftedZerosIff(vs: seq<nat>, m: nat)
    requires m > 0
    ensures vs + Zeros(m) == Zeros(m) + vs <==> forall i :: 0 <= i < |vs| ==> vs[i] == 0
  {
    if vs + Zeros(m) == Zeros(m) + vs {
      forall i | 0 <= i < |vs| ensures vs[i] == 0 {
        ShiftedZeros(vs, m, i);
      }
    }
  }

  lemma {:induction false} FrontFails(gs: seq<string>, vs: seq<nat>, tail: string)
    requires gs != [] && AreHextets(gs, vs) && |tail| > 1 && tail[0] == ':' == tail[1]
    ensures Ipv6(Joined(gs, ':') + tail) == None
  {
    var text := Joined(gs, ':');
    GroupsLie([], gs, vs, tail);
    assert [] + text + tail == text + tail;
    DoubleColonFails(text + tail, 0, gs, vs, |text|, 8);
  }

  lemma {:induction false} BackIsRead(gs: seq<string>, vs: seq<nat>, s: string)
    requires gs != [] && |gs| < 8 && AreHextets(gs, vs) && s == "::" + Joined(gs, ':')
    ensures Ipv6(s) == Some(vs + Zeros(8 - |vs|))
  {
    GroupsLie("::", gs, vs, []);
    assert "::" + Joined(gs, ':') + [] == s;
    HextetsComplete(s, 2, gs, vs, 8);
  }

  lemma UnspecifiedIsRead(s: string)
    requires s == "::"
    ensures Ipv6(s) == Some(Zeros(8))
  {
  }

  /** What the parser makes of a compressed form, however its groups are written: nothing, if
      groups precede the double colon; otherwise the groups after it, moved to the front. */
  lemma {:induction false} CompressedIsRead(fronts: seq<string>, front: seq<nat>, backs: seq<string>, back: seq<nat>)
    requires AreHextets(fronts, front) && AreHextets(backs, back) && |front| + |back| < 8
    ensures Ipv6(Compressed(fronts, backs)) == if front == [] then Some(back + Zeros(8 - |back|)) else None
  {
    var s := Compressed(fronts, backs);
    if front != [] {
      assert s == Joined(fronts, ':') + ("::" + Joined(backs, ':'));
      FrontFails(fronts, front, "::" + Joined(backs, ':'));
    } else if back == [] {
      assert s == "::" && back + Zeros(8) == Zeros(8);
      UnspecifiedIsRead(s);
    } else {
      assert s == "::" + Joined(backs, ':');
      BackIsRead(backs, back, s);
    }
  }

  lemma {:induction false} MovedIff(back: seq<nat>)
    requires |back| < 8
    ensures back + Zeros(8 - |back|) == Meaning([], back) <==> forall i :: 0 <= i < |back| ==> back[i] == 0
  {
    ShiftedZerosIff(back, 8 - |back|);
    assert Meaning([], back) == Zeros(8 - |back|) + back;
  }

  /** So a compressed form is read as the RFC means it if and only if nothing precedes the
      double colon and everything after it is zero. */
  lemma {:induction false} CompressedIff(fronts: seq<string>, front: seq<nat>, backs: seq<string>, back: seq<nat>)
    requires AreHextets(fronts, front) && AreHextets(backs, back) && |front| + |back| < 8
    ensures Ipv6(Compressed(fronts, backs)) == Some(Meaning(front, back))
      <==> front == [] && forall i :: 0 <= i < |back| ==> back[i] == 0
  {
    CompressedIsRead(fronts, front, backs, back);
    if front == [] {
      MovedIff(back);
    }
  }
}
