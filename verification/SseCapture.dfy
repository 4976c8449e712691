/**
 * Usage recovered from a capped capture: the head and the sliding tail that
 * internal/proxy keeps of a stream, and ExtractUsageWithTail over them.
 */
module SseCapture {
  import opened Options
  import opened Sse
  import C = SseChunking

  // ------------------------------------------------------- the bounded buffer

  function Min(a: int, b: int): int { if a < b then a else b }

  /** How many of n bytes the head keeps; a non-positive capacity keeps none. */
  function HeadLen(capacity: int, n: nat): nat { if capacity <= 0 then 0 else Min(capacity, n) }

  function HeadOf(s: Bytes, capacity: int): Bytes { s[..HeadLen(capacity, |s|)] }

  function Last(s: Bytes, n: nat): Bytes { s[|s| - Min(n, |s|)..] }

  /** The last min(limit, overflow) bytes of those that did not fit the head. */
  function TailOf(s: Bytes, capacity: int, limit: nat): Bytes { Last(s[HeadLen(capacity, |s|)..], limit) }

  class BoundedBuffer {
    const capacity: int
    const tailCap: nat
    var buf: Bytes
    var tail: Bytes
    ghost var written: Bytes

    /** The buffer is a function of the bytes written so far, however they were split. */
    ghost predicate Valid()
      reads this
    {
      buf == HeadOf(written, capacity) && tail == TailOf(written, capacity, tailCap)
    }

    constructor (capacity: int, tailCap: nat)
      ensures Valid() && written == [] && this.capacity == capacity && this.tailCap == tailCap
    {
      this.capacity, this.tailCap := capacity, tailCap;
      buf, tail, written := [], [], [];
    }

    method Write(p: Bytes) returns (n: nat)
      requires Valid()
      modifies this
      ensures Valid() && written == old(written) + p && n == |p|
    {
      n := |p|;
      var q := p;
      ghost var head, was := buf, tail;
      var room := capacity - |buf|;
      if room > 0 {
        if room > |q| {
          room := |q|;
        }
        buf := buf + q[..room];
        q := q[room..];
      }
      Keep(q);
      Written(written, p, capacity, tailCap, head, was, buf, q, tail);
      written := written + p;
    }

    /** What the head had no room for goes to the tail, which is cut down to its limit. */
    method Keep(q: Bytes)
      modifies this`tail
      ensures tail == Kept(old(tail), q, tailCap)
    {
      if |q| > 0 && tailCap > 0 {
        tail := tail + q;
        var extra := |tail| - tailCap;
        if extra > 0 {
          tail := tail[extra..];
        }
      }
    }
  }

  function Kept(was: Bytes, q: Bytes, n: nat): Bytes {
    if q == [] || n == 0 then was else if |was + q| > n then (was + q)[|was + q| - n..] else was + q
  }

  /** How many of n more bytes the head takes with this much room. */
  function Taken(room: int, n: nat): nat { if room <= 0 then 0 else Min(room, n) }

  lemma TakenIs(capacity: int, m: nat, n: nat)
    ensures HeadLen(capacity, m) + Taken(capacity - HeadLen(capacity, m), n) == HeadLen(capacity, m + n)
  {
  }

  /** One write, from the values before to those after. */
  lemma Written(w: Bytes, p: Bytes, capacity: int, limit: nat, head: Bytes, was: Bytes, buf: Bytes, q: Bytes,
                tail: Bytes)
    requires head == HeadOf(w, capacity) && was == TailOf(w, capacity, limit)
    requires var k := Taken(capacity - |head|, |p|);
             (if k == 0 then buf == head && q == p else buf == head + p[..k] && q == p[k..])
    requires tail == Kept(was, q, limit)
    ensures buf == HeadOf(w + p, capacity) && tail == TailOf(w + p, capacity, limit)
  {
    var k := Taken(capacity - |head|, |p|);
    TakenIs(capacity, |w|, |p|);
    NoneTaken(head, p, k);
    var v, over := w + p, w[HeadLen(capacity, |w|)..];
    var rest := v[HeadLen(capacity, |v|)..];
    HeadWritten(w, p, v, capacity, k, over, head, buf, q, rest);
    TailWritten(over, q, rest, limit, was, tail);
  }

  lemma NoneTaken(head: Bytes, p: Bytes, k: nat)
    requires k <= |p|
    ensures k == 0 ==> head + p[..k] == head && p[k..] == p
  {
  }

  lemma HeadWritten(w: Bytes, p: Bytes, v: Bytes, capacity: int, k: nat, over: Bytes, head: Bytes, buf: Bytes,
                    q: Bytes, rest: Bytes)
    requires v == w + p && k <= |p| && HeadLen(capacity, |w|) + k == HeadLen(capacity, |v|)
    requires over == w[HeadLen(capacity, |w|)..] && rest == v[HeadLen(capacity, |v|)..]
    requires head == HeadOf(w, capacity) && buf == head + p[..k] && q == p[k..]
    ensures buf == HeadOf(v, capacity) && rest == over + q
  {
    Overflow(w, p, capacity);
  }

  lemma TailWritten(over: Bytes, q: Bytes, rest: Bytes, limit: nat, was: Bytes, tail: Bytes)
    requires rest == over + q && was == Last(over, limit) && tail == Kept(was, q, limit)
    ensures tail == Last(rest, limit)
  {
    LastOfLast(over, q, limit);
    KeptIsLast(was, q, limit);
  }

  /** A tail within its limit, with more written to it and cut down again. */
  lemma KeptIsLast(was: Bytes, q: Bytes, n: nat)
    requires |was| <= n
    ensures Kept(was, q, n) == Last(was + q, n)
  {
    if q == [] {
      assert was + q == was;
    }
  }

  /** The last bytes of more are the last bytes of the last bytes and what came. */
  lemma LastOfLast(s: Bytes, q: Bytes, n: nat)
    ensures Last(s + q, n) == Last(Last(s, n) + q, n)
  {
  }

  /** What does not fit the head, before and after one more write. */
  lemma Overflow(w: Bytes, p: Bytes, capacity: int)
    ensures var a, b := HeadLen(capacity, |w|), HeadLen(capacity, |w + p|);
            && 0 <= b - a <= |p|
            && (w + p)[..b] == w[..a] + p[..b - a]
            && (w + p)[b..] == w[a..] + p[b - a..]
  {
    var a, b := HeadLen(capacity, |w|), HeadLen(capacity, |w + p|);
    if a == |w| {
      CutBehind(w, p, b);
    } else {
      CutBefore(w, p, b);
    }
  }

  lemma CutBehind(w: Bytes, p: Bytes, b: nat)
    requires |w| <= b <= |w| + |p|
    ensures (w + p)[..b] == w[..|w|] + p[..b - |w|] && (w + p)[b..] == w[|w|..] + p[b - |w|..]
  {
  }

  lemma CutBefore(w: Bytes, p: Bytes, b: nat)
    requires b <= |w|
    ensures (w + p)[..b] == w[..b] + p[..0] && (w + p)[b..] == w[b..] + p[0..]
  {
  }

  // ------------------------------------------------------------------ extents

  /** What is read off one block: its data, at most one entry. */
  type Reading = Bytes -> seq<Bytes>

  /** Line endings at either end of a block do not change what is read. */
  ghost predicate EolBlind(read: Reading) {
    && read([]) == []
    && (forall b: Bytes, c: byte {:trigger read([c] + b)} :: IsEol(c) ==> read([c] + b) == read(b))
    && (forall b: Bytes, c: byte {:trigger read(b + [c])} :: IsEol(c) ==> read(b + [c]) == read(b))
  }

  /** Where the blocks of a stream lie, in order, and what is read off each. */
  datatype Layout = End | Piece(start: nat, stop: nat, data: seq<Bytes>, rest: Layout)

  /** The blocks of s, the unterminated remainder included (Finish processes it), placed from base on. */
  function LayoutOf(read: Reading, s: Bytes, base: nat): Layout
    decreases |s|
  {
    if s == [] then End
    else if !Complete(s) then Piece(base, base + |s|, read(s), End)
    else Piece(base, base + First(s, 0), read(Block(s)), LayoutOf(read, Rest(s), base + Used(s)))
  }

  function Data(l: Layout): seq<Bytes> {
    match l
    case End => []
    case Piece(_, _, data, rest) => data + Data(rest)
  }

  /** What is read off all of s: its complete blocks, then the remainder that Finish flushes. */
  function Events(read: Reading, s: Bytes): seq<Bytes>
    decreases |s|
  {
    if Complete(s) then read(Block(s)) + Events(read, Rest(s)) else read(s)
  }

  lemma {:induction false} EventsAre(s: Bytes)
    ensures Events(Payload, s) == Payloads(s) + Payload(Carry(s))
    decreases |s|
  {
    if Complete(s) {
      EventsAre(Rest(s));
      Assoc(Payload(Block(s)), Payloads(Rest(s)), Payload(Carry(s)));
    }
  }

  lemma EventsStep(read: Reading, s: Bytes)
    requires Complete(s)
    ensures Events(read, s) == read(Block(s)) + Events(read, Rest(s))
  {
  }

  lemma {:induction false} EventsAreData(read: Reading, s: Bytes, base: nat)
    requires read([]) == []
    ensures Data(LayoutOf(read, s, base)) == Events(read, s)
    decreases |s|
  {
    if Complete(s) {
      EventsAreData(read, Rest(s), base + Used(s));
    } else if s != [] {
      var l := Piece(base, base + |s|, read(s), End);
      assert Data(l) == l.data + Data(End);
    }
  }

  // --------------------------------------- line endings at a block's two ends

  lemma BlankLineNoData(lines: seq<Bytes>)
    ensures DataValues([[]] + lines) == DataValues(lines)
  {
    assert ([[]] + lines)[1..] == lines;
  }

  lemma ValuesCons(line: Bytes, lines: seq<Bytes>)
    ensures DataValues([line] + lines) == DataValues([line]) + DataValues(lines)
  {
    assert ([line] + lines)[1..] == lines && [line][1..] == [];
  }

  /** A line-ending byte in front of a block changes none of its data. */
  lemma LeadingEol(c: byte, b: Bytes)
    requires IsEol(c)
    ensures Payload([c] + b) == Payload(b)
  {
    var s := [c] + b;
    LinesCons(s, 0);
    assert s[..0] == [];
    if EolLen(s, 0) == 2 {
      LinesCons(b, 0);
      assert s[2..] == b[1..] && b[..0] == [];
      BlankLineNoData(Lines(b[1..]));
    } else {
      assert s[1..] == b;
      BlankLineNoData(Lines(b));
    }
  }

  lemma {:induction false} TrailingValues(b: Bytes, c: byte)
    requires IsEol(c)
    ensures Values(b + [c]) == Values(b)
    decreases |b|
  {
    var e := Eol(b);
    NoEolBefore(b);
    if e == |b| {
      TrailingOnLastLine(b, c);
    } else {
      var s, x := b + [c], b[..e];
      if EolLen(s, e) != EolLen(b, e) {
        CrLfCompleted(b, c, e);
      } else {
        FirstLineKept(b, c, e);
        var u := b[e + EolLen(b, e)..];
        TrailingValues(u, c);
        ValuesCons(x, Lines(u));
        ValuesCons(x, Lines(u + [c]));
      }
    }
  }

  /** A byte behind a block leaves its first line, and comes behind the rest. */
  lemma FirstLineKept(b: Bytes, c: byte, e: nat)
    requires e < |b| && IsEol(b[e]) && forall j :: 0 <= j < e ==> !IsEol(b[j])
    requires EolLen(b + [c], e) == EolLen(b, e)
    ensures Lines(b) == [b[..e]] + Lines(b[e + EolLen(b, e)..])
    ensures Lines(b + [c]) == [b[..e]] + Lines(b[e + EolLen(b, e)..] + [c])
  {
    var k := e + EolLen(b, e);
    var line, rest := b[..e], b[k..];
    LineOff(b, e, k, line, rest);
    OneBehind(b, c, e);
    OneBehind(b, c, k);
    LineOff(b + [c], e, k, line, rest + [c]);
  }

  lemma OneBehind(b: Bytes, c: byte, k: nat)
    requires k <= |b|
    ensures (b + [c])[..k] == b[..k] && (b + [c])[k..] == b[k..] + [c]
    ensures forall j :: 0 <= j < k ==> (b + [c])[j] == b[j]
  {
  }

  /** Unless it completes the CRLF that the block ends with. */
  lemma CrLfCompleted(b: Bytes, c: byte, e: nat)
    requires e < |b| && IsEol(b[e]) && forall j :: 0 <= j < e ==> !IsEol(b[j])
    requires EolLen(b + [c], e) != EolLen(b, e)
    ensures Lines(b + [c]) == Lines(b)
  {
    var s := b + [c];
    assert e + 1 == |b|;
    OneBehind(b, c, e);
    LineOff(b, e, e + 1, b[..e], []);
    LineOff(s, e, e + 2, b[..e], []);
  }

  lemma TrailingOnLastLine(b: Bytes, c: byte)
    requires IsEol(c) && forall j :: 0 <= j < |b| ==> !IsEol(b[j])
    ensures Values(b + [c]) == Values(b)
  {
    var s := b + [c];
    LinesLast([]);
    LinesLast(b);
    LinesCons(s, |b|);
    assert s[..|b|] == b && s[|b| + 1..] == [];
    BlankLineNoData([]);
    assert [b] + [] == [b];
  }

  lemma EmptyPayload()
    ensures Payload([]) == []
  {
    LinesLast([]);
  }

  lemma PayloadIsEolBlind()
    ensures EolBlind(Payload)
  {
    EmptyPayload();
    forall b: Bytes, c: byte | IsEol(c)
      ensures Payload([c] + b) == Payload(b)
    {
      LeadingEol(c, b);
    }
    forall b: Bytes, c: byte | IsEol(c)
      ensures Payload(b + [c]) == Payload(b)
    {
      TrailingEol(b, c);
    }
  }

  /** So does one behind it. */
  lemma TrailingEol(b: Bytes, c: byte)
    requires IsEol(c)
    ensures Payload(b + [c]) == Payload(b)
  {
    TrailingValues(b, c);
  }

  // ----------------------------------------------------------------- the seam

  lemma LastBytes(c: Bytes)
    requires !Complete(c)
    ensures forall j :: 0 <= j < |c| ==> TermLen(c, j) == 0
  {
    NoneBefore(c, 0);
  }

  /**
   * The inserted blank line closes the head's unfinished block as it stands and
   * leaves nothing, or one line feed.
   */
  lemma SeamCloses(c: Bytes)
    requires !Complete(c)
    ensures Complete(c + [LF, LF])
    ensures Payload(Block(c + [LF, LF])) == Payload(c)
    ensures Rest(c + [LF, LF]) == [] || Rest(c + [LF, LF]) == [LF]
  {
    var w := c + [LF, LF];
    var p := SeamAt(c);
    assert Block(w) == c[..p];
    if p == |c| - 1 {
      TrailingEol(c[..p], LF);
      assert c[..p] + [LF] == c;
    } else if p == |c| - 3 {
      TrailingEol(c[..p], CR);
      TrailingEol(c[..p] + [CR], LF);
      TrailingEol(c[..p] + [CR] + [LF], CR);
      assert c[..p] + [CR] + [LF] + [CR] == c;
    } else {
      assert c[..p] == c;
    }
  }

  /** Where the inserted blank line makes a terminator begin: at the carry's own trailing line ending, if it has one. */
  lemma SeamAt(c: Bytes) returns (p: nat)
    requires !Complete(c)
    ensures Complete(c + [LF, LF]) && First(c + [LF, LF], 0) == p <= |c|
    ensures p + TermLen(c + [LF, LF], p) == |c| + if p == |c| then 2 else 1
    ensures p == |c| || (p == |c| - 1 && c[p] == LF) || (p == |c| - 3 && c[p] == CR && c[p + 1] == LF && c[p + 2] == CR)
  {
    var w, n := c + [LF, LF], |c|;
    LastBytes(c);
    assert forall j :: 0 <= j < n ==> w[j] == c[j];
    p := if n >= 1 && c[n - 1] == LF then n - 1
         else if n >= 3 && c[n - 1] == CR && c[n - 2] == LF && c[n - 3] == CR then n - 3
         else n;
    forall j | 0 <= j < p
      ensures TermLen(w, j) == 0
    {
      assert TermLen(c, j) == 0;
    }
    FirstIs(w, 0, p);
  }

  /** Block, terminator and rest of [c] + s when no terminator begins at c. */
  lemma LeadShift(c: byte, s: Bytes)
    requires TermLen([c] + s, 0) == 0
    ensures Complete([c] + s) == Complete(s)
    ensures Complete(s) ==> Block([c] + s) == [c] + Block(s) && Rest([c] + s) == Rest(s)
  {
    FirstShifts(c, s);
    var w, i := [c] + s, First(s, 0);
    if i < |s| {
      var n := TermLen(s, i);
      TermShifts(c, s, i);
      assert w[..i + 1] == [c] + s[..i] && w[i + 1 + n..] == s[i + n..];
    }
  }

  lemma FirstShifts(c: byte, s: Bytes)
    requires TermLen([c] + s, 0) == 0
    ensures First([c] + s, 0) == First(s, 0) + 1
  {
    var w, i := [c] + s, First(s, 0);
    NoneBefore(s, 0);
    forall j | 0 <= j < i + 1
      ensures TermLen(w, j) == 0
    {
      if j > 0 {
        TermShifts(c, s, j - 1);
      }
    }
    if i < |s| {
      TermShifts(c, s, i);
      FirstIs(w, 0, i + 1);
    } else {
      FirstNone(w, 0);
    }
  }

  lemma TermShifts(c: byte, s: Bytes, i: nat)
    requires i < |s|
    ensures TermLen([c] + s, i + 1) == TermLen(s, i)
  {
    var w := [c] + s;
    assert w[i + 1] == s[i];
    assert i + 1 < |s| ==> w[i + 2] == s[i + 1];
    assert i + 2 < |s| ==> w[i + 3] == s[i + 2];
    assert i + 3 < |s| ==> w[i + 4] == s[i + 3];
  }

  lemma LeadingEolInBlock(read: Reading, c: byte, s: Bytes)
    requires EolBlind(read) && IsEol(c) && TermLen([c] + s, 0) == 0
    ensures Events(read, [c] + s) == Events(read, s)
  {
    LeadShift(c, s);
    if Complete(s) {
      assert read([c] + Block(s)) == read(Block(s));
    }
  }

  /** A terminator at the very front closes an empty block. */
  lemma TerminatorFirst(read: Reading, w: Bytes)
    requires read([]) == [] && w != [] && TermLen(w, 0) > 0
    ensures Complete(w) && Rest(w) == w[TermLen(w, 0)..] && Events(read, w) == Events(read, Rest(w))
  {
    FirstIs(w, 0, 0);
    assert Block(w) == [];
    assert [] + Events(read, Rest(w)) == Events(read, Rest(w));
  }

  lemma ThreeOff(s: Bytes, t: Bytes, one: Bytes, two: Bytes)
    requires |s| >= 3 && s[0] == LF && s[1] == CR && s[2] == LF && t == s[3..] && one == [LF] + t && two == [CR] + one
    ensures s == [LF] + two
  {
    assert one == s[2..] && two == s[1..];
  }

  lemma TerminatorOff(read: Reading, w: Bytes, t: Bytes)
    requires EolBlind(read) && 0 < |w| && 0 < TermLen(w, 0) && t == w[TermLen(w, 0)..]
    ensures Events(read, w) == Events(read, t)
  {
    TerminatorFirst(read, w);
    assert Rest(w) == t;
  }

  /** What a line-ending byte in front of s does: nothing, or it closes an empty block and leaves a shorter stream. */
  datatype Front = Within | Pair(c: byte, t: Bytes) | Four(t: Bytes, one: Bytes, two: Bytes)

  lemma FrontOf(read: Reading, c: byte, s: Bytes, w: Bytes) returns (f: Front)
    requires EolBlind(read) && IsEol(c) && w == [c] + s
    ensures f.Within? ==> Events(read, w) == Events(read, s)
    ensures f.Pair? ==> Events(read, w) == Events(read, f.t) && s == [f.c] + f.t && IsEol(f.c)
    ensures f.Four? ==> Events(read, w) == Events(read, f.t)
                        && s == [LF] + f.two && f.two == [CR] + f.one && f.one == [LF] + f.t
  {
    if TermLen(w, 0) == 0 {
      LeadingEolInBlock(read, c, s);
      return Within;
    }
    var t := w[TermLen(w, 0)..];
    TerminatorOff(read, w, t);
    if TermLen(w, 0) == 2 {
      assert s == [s[0]] + t;
      return Pair(s[0], t);
    }
    var one := [LF] + t;
    var two := [CR] + one;
    ThreeOff(s, t, one, two);
    f := Four(t, one, two);
  }

  /** A line-ending byte in front of a stream changes none of its events. */
  lemma {:induction false} LeadingEolEvents(read: Reading, c: byte, s: Bytes, w: Bytes)
    requires EolBlind(read) && IsEol(c) && w == [c] + s
    ensures Events(read, w) == Events(read, s)
    decreases |s|
  {
    var f := FrontOf(read, c, s, w);
    match f
    case Within =>
    case Pair(d, t) => LeadingEolEvents(read, d, t, s);
    case Four(t, one, two) =>
      LeadingEolEvents(read, LF, t, one);
      LeadingEolEvents(read, CR, one, two);
      LeadingEolEvents(read, LF, two, s);
  }

  lemma {:induction false} LeadingEolsEvents(read: Reading, eols: Bytes, s: Bytes)
    requires EolBlind(read) && forall c :: c in eols ==> IsEol(c)
    ensures Events(read, eols + s) == Events(read, s)
    decreases |eols|
  {
    if eols == [] {
      assert eols + s == s;
    } else {
      assert eols + s == [eols[0]] + (eols[1..] + s);
      LeadingEolEvents(read, eols[0], eols[1..] + s, eols + s);
      LeadingEolsEvents(read, eols[1..], s);
    }
  }

  // ------------------------------------------------------------- the operation

  /** ExtractUsageWithTail for an event stream: head, a blank line, tail; a plain parse when there is no tail. */
  function ExtractCapped(decode: Decoder, head: Bytes, tail: Bytes): (Totals, bool) {
    var a := FeedBuffer(decode, NO_TOTALS, head);
    if a.err then (a.totals, true)
    else if tail == [] then ApplyAll(decode, a.totals, Payload(a.buf))
    else
      var b := FeedBuffer(decode, a.totals, a.buf + [LF, LF]);
      if b.err then (b.totals, true)
      else
        var c := FeedBuffer(decode, b.totals, b.buf + tail);
        if c.err then (c.totals, true) else ApplyAll(decode, c.totals, Payload(c.buf))
  }

  method ExtractUsageWithTail(decode: Decoder, head: Bytes, tail: Bytes) returns (u: Usage, total: nat, err: bool)
    ensures (Totals(u, total), err) == ExtractCapped(decode, head, tail)
  {
    var p := new Parser(decode);
    assert [] + head == head;
    err := p.Feed(head);
    if err {
      return p.usage, p.events, true;
    }
    if |tail| > 0 {
      err := p.Feed([LF, LF]);
      if err {
        return p.usage, p.events, true;
      }
      err := p.Feed(tail);
      if err {
        return p.usage, p.events, true;
      }
    }
    u, total, err := p.Finish();
  }

  /** Feeding all of s and then finishing is the fold of its events. */
  lemma FeedAndFinish(decode: Decoder, t: Totals, s: Bytes)
    ensures var r := FeedBuffer(decode, t, s);
            ApplyAll(decode, t, Events(Payload, s)) ==
              if r.err then (r.totals, true) else ApplyAll(decode, r.totals, Payload(r.buf))
  {
    EventsAre(s);
    C.NoErrorDrains(decode, t, s);
    C.ApplyAllConcat(decode, t, Payloads(s), Payload(Carry(s)));
  }

  /** Closing an unfinished block with a blank line processes what Finish would, and leaves nothing or one line feed. */
  lemma FeedSeam(decode: Decoder, t: Totals, c: Bytes)
    requires !Complete(c)
    ensures var r := FeedBuffer(decode, t, c + [LF, LF]);
            && (r.totals, r.err) == ApplyAll(decode, t, Payload(c))
            && (r.buf == [] || r.buf == [LF])
  {
    SeamCloses(c);
    var w := c + [LF, LF];
    assert !Complete(Rest(w));
  }

  /**
   * The inserted blank line separates head from tail: the result is the fold of
   * the head's events, its torn last block closed as it stands, and then the
   * events of the tail parsed on its own.
   */
  lemma SeamSeparates(decode: Decoder, head: Bytes, tail: Bytes)
    ensures ExtractCapped(decode, head, tail)
            == ApplyAll(decode, NO_TOTALS, Events(Payload, head) + Events(Payload, tail))
  {
    FeedAndFinish(decode, NO_TOTALS, head);
    C.ApplyAllConcat(decode, NO_TOTALS, Events(Payload, head), Events(Payload, tail));
    C.NoErrorDrains(decode, NO_TOTALS, head);
    PayloadIsEolBlind();
    var a := FeedBuffer(decode, NO_TOTALS, head);
    if !a.err && tail != [] {
      FeedSeam(decode, a.totals, a.buf);
      var b := FeedBuffer(decode, a.totals, a.buf + [LF, LF]);
      if !b.err {
        LeadingEolsEvents(Payload, b.buf, tail);
        FeedAndFinish(decode, b.totals, b.buf + tail);
      }
    }
  }

  // ------------------------------------------------- the capture, by position

  /** The cut goes through the content of a block. */
  predicate Cuts(l: Layout, cut: nat) {
    l.Piece? && (l.start < cut < l.stop || Cuts(l.rest, cut))
  }

  /** Events of the blocks that begin before the cut and whose content ends no later. */
  function HeadData(l: Layout, cut: nat): seq<Bytes> {
    if l.Piece? && l.start < cut && l.stop <= cut then l.data + HeadData(l.rest, cut) else []
  }

  /** Events of the blocks that begin at or after the cut. */
  function TailData(l: Layout, cut: nat): seq<Bytes> {
    if l.End? then [] else if l.start >= cut then Data(l) else TailData(l.rest, cut)
  }

  /** Events of the blocks between: begun before the tail's cut, and not whole before the head's. */
  function LostData(l: Layout, head: nat, tail: nat): seq<Bytes> {
    if l.End? || l.start >= tail then []
    else if l.start < head && l.stop <= head then LostData(l.rest, head, tail)
    else l.data + LostData(l.rest, head, tail)
  }

  function FirstPiece(t: Bytes): Bytes { if Complete(t) then Block(t) else t }

  /** A torn piece counts only when the cut goes through a block's content. */
  function Torn(l: Layout, cut: nat, piece: seq<Bytes>): seq<Bytes> {
    if Cuts(l, cut) then piece else []
  }

  /** Nothing of a stream placed at or after the cut lies before it. */
  lemma {:induction false} NothingBefore(read: Reading, s: Bytes, base: nat, cut: nat)
    requires cut <= base
    ensures var l := LayoutOf(read, s, base);
            !Cuts(l, cut) && HeadData(l, cut) == [] && TailData(l, cut) == Data(l)
    decreases |s|
  {
    if Complete(s) {
      NothingBefore(read, Rest(s), base + Used(s), cut);
    }
  }

  // Prefixes and suffixes of a stream.

  lemma {:induction false} TrailingEols(read: Reading, b: Bytes, eols: Bytes)
    requires EolBlind(read) && forall c :: c in eols ==> IsEol(c)
    ensures read(b + eols) == read(b)
    decreases |eols|
  {
    if eols == [] {
      assert b + eols == b;
    } else {
      assert b + eols == (b + [eols[0]]) + eols[1..];
      TrailingEols(read, b + [eols[0]], eols[1..]);
    }
  }

  lemma TerminatorBytes(s: Bytes, from: nat, to: nat)
    requires Complete(s) && First(s, 0) <= from <= to <= Used(s)
    ensures forall c :: c in s[from..to] ==> IsEol(c)
  {
  }

  /** A prefix that reaches past the first terminator has the same first block. */
  lemma PrefixComplete(s: Bytes, k: nat)
    requires Complete(s) && Used(s) <= k <= |s|
    ensures Complete(s[..k]) && Block(s[..k]) == Block(s) && Rest(s[..k]) == Rest(s)[..k - Used(s)]
  {
    var i, u := First(s, 0), s[..k];
    NoneBefore(s, 0);
    forall j | 0 <= j < i
      ensures TermLen(u, j) == 0
    {
      assert TermLen(s, j) == 0;
    }
    assert TermLen(u, i) == TermLen(s, i);
    FirstIs(u, 0, i);
  }

  /** A shorter one is not complete. */
  lemma PrefixOpen(s: Bytes, k: nat)
    requires k <= |s|
    requires Complete(s) ==> k < Used(s)
    ensures !Complete(s[..k])
  {
    var u := s[..k];
    NoneBefore(s, 0);
    forall j | 0 <= j < k
      ensures TermLen(u, j) == 0
    {
      var a, b := TermLen(u, j), TermLen(s, j);
      assert a != 0 ==> a == b;
    }
    FirstNone(u, 0);
  }

  lemma EndsInTerminator(read: Reading, s: Bytes, k: nat)
    requires EolBlind(read) && Complete(s) && First(s, 0) <= k <= Used(s)
    ensures read(s[..k]) == read(Block(s))
  {
    var eols := s[First(s, 0)..k];
    TerminatorBytes(s, First(s, 0), k);
    TrailingEols(read, Block(s), eols);
    assert Block(s) + eols == s[..k];
  }

  lemma StartsInTerminator(read: Reading, s: Bytes, k: nat)
    requires EolBlind(read) && Complete(s) && First(s, 0) <= k <= Used(s)
    ensures Events(read, s[k..]) == Events(read, Rest(s))
  {
    var eols := s[k..Used(s)];
    TerminatorBytes(s, k, Used(s));
    LeadingEolsEvents(read, eols, Rest(s));
    CutTwice(s, k, Used(s));
  }

  lemma CutTwice(s: Bytes, k: nat, n: nat)
    requires k <= n <= |s|
    ensures s[k..n] + s[n..] == s[k..]
  {
  }

  lemma LayoutStep(read: Reading, s: Bytes, base: nat) returns (rest: Layout)
    requires Complete(s)
    ensures rest == LayoutOf(read, Rest(s), base + Used(s))
    ensures LayoutOf(read, s, base) == Piece(base, base + First(s, 0), read(Block(s)), rest)
  {
    rest := LayoutOf(read, Rest(s), base + Used(s));
  }

  lemma LonePiece(start: nat, stop: nat, data: seq<Bytes>, cut: nat)
    requires start < cut <= stop
    ensures var l := Piece(start, stop, data, End);
            && HeadData(l, cut) == (if stop <= cut then data else [])
            && (Cuts(l, cut) <==> cut < stop)
            && TailData(l, cut) == []
  {
    assert data + HeadData(End, cut) == data;
    assert !Cuts(End, cut);
  }

  /** A first piece that begins before the cut, when nothing after it does. */
  lemma LastPiece(l: Layout, cut: nat)
    requires l.Piece? && l.start < cut
    requires !Cuts(l.rest, cut) && HeadData(l.rest, cut) == [] && TailData(l.rest, cut) == Data(l.rest)
    ensures HeadData(l, cut) == (if l.stop <= cut then l.data else [])
    ensures Cuts(l, cut) <==> cut < l.stop
    ensures TailData(l, cut) == Data(l.rest)
  {
  }

  /** What is read off a prefix, given the layout it is cut from. */
  ghost predicate HeadHolds(read: Reading, h: Bytes, l: Layout, cut: nat) {
    Events(read, h) == HeadData(l, cut) + Torn(l, cut, read(Carry(h)))
  }

  /** The events of a prefix: those of the blocks that lie whole in it, and the torn one. */
  lemma {:induction false} HeadEvents(read: Reading, s: Bytes, base: nat, k: nat, cut: nat, h: Bytes, l: Layout)
    requires EolBlind(read) && k <= |s| && cut == base + k && h == s[..k] && l == LayoutOf(read, s, base)
    ensures HeadHolds(read, h, l, cut)
    decreases |s|, 1
  {
    if k == 0 {
      HeadOfNothing(read, s, base, h, l);
    } else if Complete(s) && Used(s) <= k {
      HeadStep(read, s, base, k, cut, h, l);
    } else if Complete(s) {
      HeadTorn(read, s, base, k, cut, h, l);
    } else {
      HeadOpen(read, s, base, k, cut, h, l);
    }
  }

  lemma HeadOfNothing(read: Reading, s: Bytes, base: nat, h: Bytes, l: Layout)
    requires read([]) == [] && h == [] && l == LayoutOf(read, s, base)
    ensures HeadHolds(read, h, l, base)
  {
    NothingBefore(read, s, base, base);
  }

  lemma {:induction false} HeadStep(read: Reading, s: Bytes, base: nat, k: nat, cut: nat, h: Bytes, l: Layout)
    requires EolBlind(read) && Complete(s) && Used(s) <= k <= |s| && cut == base + k
    requires h == s[..k] && l == LayoutOf(read, s, base)
    ensures HeadHolds(read, h, l, cut)
    decreases |s|, 0
  {
    var r, m, n := Rest(s), base + Used(s), k - Used(s);
    var hr, data := r[..n], read(Block(s));
    var rest := LayoutStep(read, s, base);
    HeadEvents(read, r, m, n, cut, hr, rest);
    PrefixStep(read, s, k, h, hr, data);
    HeadCons(read, h, hr, l, base, base + First(s, 0), data, rest, cut);
  }

  lemma PrefixStep(read: Reading, s: Bytes, k: nat, h: Bytes, hr: Bytes, data: seq<Bytes>)
    requires Complete(s) && Used(s) <= k <= |s| && h == s[..k] && hr == Rest(s)[..k - Used(s)] && data == read(Block(s))
    ensures Prefixed(read, h, hr, data)
  {
    PrefixComplete(s, k);
    EventsStep(read, h);
  }

  /** The prefix is that of the rest with one more block in front. */
  ghost predicate Prefixed(read: Reading, h: Bytes, hr: Bytes, data: seq<Bytes>) {
    Events(read, h) == data + Events(read, hr) && Carry(h) == Carry(hr)
  }

  /** A block whole in the prefix, in front of what holds for the rest. */
  lemma HeadCons(read: Reading, h: Bytes, hr: Bytes, l: Layout, start: nat, stop: nat, data: seq<Bytes>, rest: Layout,
                 cut: nat)
    requires l == Piece(start, stop, data, rest) && start < cut && stop <= cut
    requires Prefixed(read, h, hr, data) && HeadHolds(read, hr, rest, cut)
    ensures HeadHolds(read, h, l, cut)
  {
    Assoc(data, HeadData(rest, cut), Torn(rest, cut, read(Carry(hr))));
  }

  lemma HeadTorn(read: Reading, s: Bytes, base: nat, k: nat, cut: nat, h: Bytes, l: Layout)
    requires EolBlind(read) && Complete(s) && 0 < k < Used(s) && cut == base + k
    requires h == s[..k] && l == LayoutOf(read, s, base)
    ensures HeadHolds(read, h, l, cut)
  {
    PrefixOpen(s, k);
    CutPiece(read, s, base, cut, l);
    if First(s, 0) <= k {
      EndsInTerminator(read, s, k);
    }
    TornHolds(read, h, l, cut, First(s, 0) <= k);
  }

  /** A cut before the end of the first block's terminator has at most that block before it. */
  lemma CutPiece(read: Reading, s: Bytes, base: nat, cut: nat, l: Layout)
    requires Complete(s) && base < cut < base + Used(s) && l == LayoutOf(read, s, base)
    ensures l.Piece? && l.data == read(Block(s))
    ensures HeadData(l, cut) == (if base + First(s, 0) <= cut then l.data else [])
    ensures Cuts(l, cut) <==> cut < base + First(s, 0)
  {
    var rest := LayoutStep(read, s, base);
    NothingBefore(read, Rest(s), base + Used(s), cut);
    LastPiece(l, cut);
  }

  /** An unfinished prefix whose one piece ends before the cut or is cut. */
  lemma TornHolds(read: Reading, h: Bytes, l: Layout, cut: nat, whole: bool)
    requires !Complete(h) && l.Piece?
    requires HeadData(l, cut) == (if whole then l.data else []) && (Cuts(l, cut) <==> !whole)
    requires whole ==> read(h) == l.data
    ensures HeadHolds(read, h, l, cut)
  {
  }

  lemma HeadOpen(read: Reading, s: Bytes, base: nat, k: nat, cut: nat, h: Bytes, l: Layout)
    requires !Complete(s) && 0 < k <= |s| && cut == base + k
    requires h == s[..k] && l == LayoutOf(read, s, base)
    ensures HeadHolds(read, h, l, cut)
  {
    PrefixOpen(s, k);
    LonePiece(base, base + |s|, read(s), cut);
    assert k == |s| ==> h == s;
  }

  /** What a suffix reads, against the layout it is cut from. */
  predicate Splits(events: seq<Bytes>, l: Layout, cut: nat, piece: seq<Bytes>) {
    events == Torn(l, cut, piece) + TailData(l, cut)
  }

  /** A suffix's events and the torn piece they may begin with. */
  function Suffix(read: Reading, t: Bytes): (seq<Bytes>, seq<Bytes>) { (Events(read, t), read(FirstPiece(t))) }

  ghost predicate TailHolds(read: Reading, s: Bytes, l: Layout, k: nat, cut: nat)
    requires k <= |s|
  {
    var (events, piece) := Suffix(read, s[k..]);
    Splits(events, l, cut, piece)
  }

  /** The events of a suffix: the torn block's remainder, then those of the blocks that begin in it. */
  lemma {:induction false} TailEvents(read: Reading, s: Bytes, base: nat, k: nat, cut: nat)
    requires EolBlind(read) && k <= |s| && cut == base + k
    ensures TailHolds(read, s, LayoutOf(read, s, base), k, cut)
    decreases |s|, 1
  {
    if k == 0 {
      TailWhole(read, s, base);
    } else if Complete(s) && Used(s) <= k {
      TailStep(read, s, base, k, cut);
    } else {
      TailLast(read, s, base, k, cut);
    }
  }

  lemma TailWhole(read: Reading, s: Bytes, base: nat)
    requires EolBlind(read)
    ensures TailHolds(read, s, LayoutOf(read, s, base), 0, base)
  {
    NothingBefore(read, s, base, base);
    EventsAreData(read, s, base);
    assert s[0..] == s;
  }

  lemma {:induction false} TailStep(read: Reading, s: Bytes, base: nat, k: nat, cut: nat)
    requires EolBlind(read) && Complete(s) && Used(s) <= k <= |s| && cut == base + k
    ensures TailHolds(read, s, LayoutOf(read, s, base), k, cut)
    decreases |s|, 0
  {
    var r, n := Rest(s), k - Used(s);
    TailEvents(read, r, base + Used(s), n, cut);
    var rest := LayoutStep(read, s, base);
    var l := LayoutOf(read, s, base);
    PieceBefore(l, cut);
    assert r[n..] == s[k..];
    SameTail(read, r[n..], s[k..], rest, l, cut);
  }

  lemma SameTail(read: Reading, t: Bytes, u: Bytes, rest: Layout, l: Layout, cut: nat)
    requires t == u && Splits(Suffix(read, t).0, rest, cut, Suffix(read, t).1)
    requires (Cuts(l, cut) <==> Cuts(rest, cut)) && TailData(l, cut) == TailData(rest, cut)
    ensures Splits(Suffix(read, u).0, l, cut, Suffix(read, u).1)
  {
  }

  /** A block that ends before the cut adds nothing behind it. */
  lemma PieceBefore(l: Layout, cut: nat)
    requires l.Piece? && l.start < cut && l.stop <= cut
    ensures (Cuts(l, cut) <==> Cuts(l.rest, cut)) && TailData(l, cut) == TailData(l.rest, cut)
  {
  }

  lemma TailLast(read: Reading, s: Bytes, base: nat, k: nat, cut: nat)
    requires EolBlind(read) && 0 < k <= |s| && cut == base + k
    requires Complete(s) ==> k < Used(s)
    ensures TailHolds(read, s, LayoutOf(read, s, base), k, cut)
  {
    if Complete(s) {
      TailInFirst(read, s, base, k, cut);
    } else {
      LonePiece(base, base + |s|, read(s), cut);
      StillIncomplete(s, k);
    }
  }

  lemma TailInFirst(read: Reading, s: Bytes, base: nat, k: nat, cut: nat)
    requires EolBlind(read) && Complete(s) && 0 < k < Used(s) && cut == base + k
    ensures TailHolds(read, s, LayoutOf(read, s, base), k, cut)
  {
    CutInFirst(read, s, base, cut);
    SuffixInFirst(read, s, k);
  }

  /** A cut before the end of the first block's terminator tears that block or none, and leaves the rest behind it. */
  lemma CutInFirst(read: Reading, s: Bytes, base: nat, cut: nat)
    requires EolBlind(read) && Complete(s) && base < cut < base + Used(s)
    ensures var l := LayoutOf(read, s, base);
            (Cuts(l, cut) <==> cut < base + First(s, 0)) && TailData(l, cut) == Events(read, Rest(s))
  {
    var l, r := LayoutOf(read, s, base), Rest(s);
    var rest := LayoutStep(read, s, base);
    NothingBefore(read, r, base + Used(s), cut);
    LastPiece(l, cut);
    EventsAreData(read, r, base + Used(s));
  }

  lemma SuffixInFirst(read: Reading, s: Bytes, k: nat)
    requires EolBlind(read) && Complete(s) && k < Used(s)
    ensures Events(read, s[k..]) == (if k < First(s, 0) then read(FirstPiece(s[k..])) else []) + Events(read, Rest(s))
  {
    if k < First(s, 0) {
      Shift(s, k);
      EventsStep(read, s[k..]);
    } else {
      StartsInTerminator(read, s, k);
    }
  }

  // ------------------------------------------------------------ what survives

  predicate Applies(decode: Decoder, p: Bytes) { p != DONE && decode(p).Some? }

  predicate SetsStart(decode: Decoder, p: Bytes) {
    Applies(decode, p) && decode(p).value.kind == MessageStart && decode(p).value.message.Some?
  }

  predicate SetsOutput(decode: Decoder, p: Bytes) {
    Applies(decode, p) && decode(p).value.kind == MessageDelta && decode(p).value.usage.Some?
  }

  predicate SetsStop(decode: Decoder, p: Bytes) {
    && Applies(decode, p) && decode(p).value.kind == MessageDelta
    && decode(p).value.delta.Some? && decode(p).value.delta.value != []
  }

  /** A payload that carries no usage event and no error. */
  predicate Silent(decode: Decoder, p: Bytes) {
    !SetsStart(decode, p) && !SetsOutput(decode, p) && !SetsStop(decode, p) && !Fails(decode, p)
  }

  predicate AnyStart(decode: Decoder, ps: seq<Bytes>) { exists p :: p in ps && SetsStart(decode, p) }
  predicate AnyOutput(decode: Decoder, ps: seq<Bytes>) { exists p :: p in ps && SetsOutput(decode, p) }
  predicate AnyStop(decode: Decoder, ps: seq<Bytes>) { exists p :: p in ps && SetsStop(decode, p) }
  predicate AllSilent(decode: Decoder, ps: seq<Bytes>) { forall p :: p in ps ==> Silent(decode, p) }

  lemma AnyOf(decode: Decoder, ps: seq<Bytes>)
    requires ps != []
    ensures AnyStart(decode, ps) <==> SetsStart(decode, ps[0]) || AnyStart(decode, ps[1..])
    ensures AnyOutput(decode, ps) <==> SetsOutput(decode, ps[0]) || AnyOutput(decode, ps[1..])
    ensures AnyStop(decode, ps) <==> SetsStop(decode, ps[0]) || AnyStop(decode, ps[1..])
  {
    assert forall q :: q in ps <==> q == ps[0] || q in ps[1..];
    assert forall q :: q in ps[1..] ==> q in ps;
  }

  /** Two usages agree on what each kind of event sets, unless such an event is still to come. */
  predicate AgreeBut(decode: Decoder, u: Usage, v: Usage, ps: seq<Bytes>) {
    && (AnyStart(decode, ps) || (u.model == v.model && u.input == v.input))
    && (AnyStart(decode, ps) || (u.cacheCreation == v.cacheCreation && u.cacheRead == v.cacheRead))
    && (AnyOutput(decode, ps) || u.output == v.output)
    && (AnyStop(decode, ps) || u.stop == v.stop)
  }

  /** The last event of each kind decides. */
  lemma {:induction false} LastDecides(decode: Decoder, t: Totals, w: Totals, ps: seq<Bytes>)
    requires NoError(decode, ps) && AgreeBut(decode, t.usage, w.usage, ps)
    ensures ApplyAll(decode, t, ps).0.usage == ApplyAll(decode, w, ps).0.usage
    decreases |ps|
  {
    if ps != [] {
      var p, rest := ps[0], ps[1..];
      assert forall q :: q in ps <==> q == p || q in rest;
      AnyOf(decode, ps);
      LastDecides(decode, ApplyData(decode, t, p), ApplyData(decode, w, p), rest);
    }
  }

  /** Events that set nothing of a kind leave it. */
  lemma {:induction false} KeepsWhatIsNotSet(decode: Decoder, t: Totals, ps: seq<Bytes>)
    requires NoError(decode, ps)
    ensures var u, v := t.usage, ApplyAll(decode, t, ps).0.usage;
            && !ApplyAll(decode, t, ps).1
            && (AnyStart(decode, ps) || (u.model == v.model && u.input == v.input))
            && (AnyStart(decode, ps) || (u.cacheCreation == v.cacheCreation && u.cacheRead == v.cacheRead))
            && (AnyOutput(decode, ps) || u.output == v.output)
            && (AnyStop(decode, ps) || u.stop == v.stop)
    decreases |ps|
  {
    if ps != [] {
      var p, rest := ps[0], ps[1..];
      assert forall q :: q in ps <==> q == p || q in rest;
      AnyOf(decode, ps);
      KeepsWhatIsNotSet(decode, ApplyData(decode, t, p), rest);
    }
  }

  /**
   * Without an error every payload counts, and each column is what the last payload
   * that sets it says: its own field of a start message's counts, the last running
   * total, the last stop reason.
   */
  lemma ColumnsAreTheLast(decode: Decoder, t: Totals, before: seq<Bytes>, p: Bytes, rest: seq<Bytes>)
    requires NoError(decode, before + [p] + rest)
    ensures ApplyAll(decode, t, before + [p] + rest).0.events == t.events + |before| + 1 + |rest|
    ensures var u := ApplyAll(decode, t, before + [p] + rest).0.usage;
            && (SetsStart(decode, p) && !AnyStart(decode, rest) ==>
                  var m := decode(p).value.message.value;
                  && u.model == m.model && u.input == m.usage.input
                  && u.cacheCreation == m.usage.cacheCreation && u.cacheRead == m.usage.cacheRead)
            && (SetsOutput(decode, p) && !AnyOutput(decode, rest) ==> u.output == decode(p).value.usage.value.output)
            && (SetsStop(decode, p) && !AnyStop(decode, rest) ==> u.stop == decode(p).value.delta.value)
  {
    assert forall q :: q in before || q == p || q in rest ==> q in before + [p] + rest;
    var a := ApplyAll(decode, t, before).0;
    var b := ApplyAll(decode, a, [p]).0;
    KeepsWhatIsNotSet(decode, t, before);
    KeepsWhatIsNotSet(decode, a, [p]);
    KeepsWhatIsNotSet(decode, b, rest);
    C.ApplyAllConcat(decode, t, before, [p]);
    C.ApplyAllConcat(decode, t, before + [p], rest);
    assert [p][1..] == [] && b == ApplyData(decode, a, p);
    EachCounts(decode, t, before + [p] + rest);
  }

  lemma {:induction false} EachCounts(decode: Decoder, t: Totals, ps: seq<Bytes>)
    requires NoError(decode, ps)
    ensures ApplyAll(decode, t, ps).0.events == t.events + |ps|
    decreases |ps|
  {
    if ps != [] {
      EachCounts(decode, ApplyData(decode, t, ps[0]), ps[1..]);
    }
  }

  /** The closing sentinel counts and sets nothing, whatever it would decode to. */
  lemma DoneOnlyCounts(decode: Decoder, t: Totals)
    ensures ApplyAll(decode, t, [[91, 68, 79, 78, 69, 93]]) == (Totals(t.usage, t.events + 1), false)
  {
    assert [DONE][1..] == [];
  }

  /** The first error event is counted, changes no column, and ends the fold. */
  lemma FirstErrorEnds(decode: Decoder, t: Totals, before: seq<Bytes>, p: Bytes, rest: seq<Bytes>)
    requires NoError(decode, before) && Fails(decode, p)
    ensures var (u, err) := ApplyAll(decode, t, before + [p] + rest);
            err && u.usage == ApplyAll(decode, t, before).0.usage && u.events == t.events + |before| + 1
  {
    KeepsWhatIsNotSet(decode, t, before);
    C.ApplyAllConcat(decode, t, before, [p]);
    C.ApplyAllConcat(decode, t, before + [p], rest);
    EachCounts(decode, t, before);
  }

  /** What is lost between head and tail matters only where the tail does not set it again. */
  predicate TailSetsWhatIsLost(decode: Decoder, lost: seq<Bytes>, tail: seq<Bytes>) {
    && (AnyStart(decode, lost) ==> AnyStart(decode, tail))
    && (AnyOutput(decode, lost) ==> AnyOutput(decode, tail))
    && (AnyStop(decode, lost) ==> AnyStop(decode, tail))
  }

  lemma SameUsage(decode: Decoder, head: seq<Bytes>, lost: seq<Bytes>, torn: seq<Bytes>, tail: seq<Bytes>)
    requires NoError(decode, head + lost + tail) && AllSilent(decode, torn)
    requires TailSetsWhatIsLost(decode, lost, tail)
    ensures ApplyAll(decode, NO_TOTALS, head + torn + tail).0.usage
            == ApplyAll(decode, NO_TOTALS, head + lost + tail).0.usage
    ensures !ApplyAll(decode, NO_TOTALS, head + torn + tail).1 && !ApplyAll(decode, NO_TOTALS, head + lost + tail).1
  {
    assert forall p :: p in head || p in lost || p in tail ==> p in head + lost + tail;
    KeepsWhatIsNotSet(decode, NO_TOTALS, head);
    var h := ApplyAll(decode, NO_TOTALS, head).0;
    KeepsWhatIsNotSet(decode, h, lost);
    KeepsWhatIsNotSet(decode, h, torn);
    var a, b := ApplyAll(decode, h, torn).0, ApplyAll(decode, h, lost).0;
    LastDecides(decode, a, b, tail);
    KeepsWhatIsNotSet(decode, a, tail);
    KeepsWhatIsNotSet(decode, b, tail);
    C.ApplyAllConcat(decode, NO_TOTALS, head, torn);
    C.ApplyAllConcat(decode, NO_TOTALS, head, lost);
    C.ApplyAllConcat(decode, NO_TOTALS, head + torn, tail);
    C.ApplyAllConcat(decode, NO_TOTALS, head + lost, tail);
  }

  lemma AssocFront(a: seq<Bytes>, x: seq<Bytes>, y: seq<Bytes>, z: seq<Bytes>)
    ensures ((a + x) + y) + z == a + ((x + y) + z)
  {
  }

  /** Head, lost and tail blocks make up the stream. */
  lemma {:induction false} ThreeParts(l: Layout, head: nat, tail: nat)
    requires head <= tail
    ensures Data(l) == HeadData(l, head) + LostData(l, head, tail) + TailData(l, tail) || !Ordered(l)
    decreases l
  {
    if l.Piece? && Ordered(l) {
      ThreeParts(l.rest, head, tail);
      if l.start < head && l.stop <= head {
        AssocFront(l.data, HeadData(l.rest, head), LostData(l.rest, head, tail), TailData(l.rest, tail));
      } else {
        LostOnly(l, head, tail);
      }
    }
  }

  /** Blocks are laid out left to right. */
  predicate Ordered(l: Layout) {
    l.Piece? ==> l.start <= l.stop && (l.rest.Piece? ==> l.stop < l.rest.start) && Ordered(l.rest)
  }

  /** Once one block is not whole before the cut, none after it is. */
  lemma {:induction false} LostOnly(l: Layout, head: nat, tail: nat)
    requires Ordered(l) && head <= tail && l.Piece? && !(l.start < head && l.stop <= head)
    ensures HeadData(l, head) == [] && Data(l) == LostData(l, head, tail) + TailData(l, tail)
    decreases l
  {
    if l.start < tail && l.rest.Piece? {
      LostOnly(l.rest, head, tail);
    }
  }

  lemma {:induction false} LayoutOrdered(read: Reading, s: Bytes, base: nat)
    ensures Ordered(LayoutOf(read, s, base))
    decreases |s|
  {
    if Complete(s) {
      LayoutOrdered(read, Rest(s), base + Used(s));
    }
  }

  /** The stream's events, and those the capped capture sees, in terms of the same three parts. */
  lemma CutInThree(s: Bytes, h: nat, w: nat)
    requires h <= w <= |s|
    ensures var l := LayoutOf(Payload, s, 0);
            && Events(Payload, s) == HeadData(l, h) + LostData(l, h, w) + TailData(l, w)
            && Events(Payload, s[..h]) == HeadData(l, h) + Torn(l, h, Payload(Carry(s[..h])))
            && Events(Payload, s[w..]) == Torn(l, w, Payload(FirstPiece(s[w..]))) + TailData(l, w)
  {
    PayloadIsEolBlind();
    HeadEvents(Payload, s, 0, h, h, s[..h], LayoutOf(Payload, s, 0));
    TailEvents(Payload, s, 0, w, w);
    LayoutOrdered(Payload, s, 0);
    ThreeParts(LayoutOf(Payload, s, 0), h, w);
    EventsAreData(Payload, s, 0);
  }

  /**
   * Of the lost events the first i and those from j on survive as the torn pieces
   * (a cut beside a block's data lines leaves its payload whole), or a torn piece
   * carries no usage; and the tail sets again what is lost for good.
   */
  predicate SurvivesBetween(decode: Decoder, lost: seq<Bytes>, x: seq<Bytes>, y: seq<Bytes>, tail: seq<Bytes>, i: nat,
                            j: nat)
    requires i <= j <= |lost|
  {
    && (lost[..i] == x || (i == 0 && AllSilent(decode, x)))
    && (lost[j..] == y || (j == |lost| && AllSilent(decode, y)))
    && TailSetsWhatIsLost(decode, lost[i..j], lost[j..] + tail)
  }

  /** How many of the lost events the head's torn piece is. */
  function HeadKeeps(lost: seq<Bytes>, x: seq<Bytes>): (i: nat)
    ensures i <= |lost|
  {
    if x <= lost then |x| else 0
  }

  /** Where, from i on, the lost events begin that the tail's torn piece is. */
  function TailKeeps(lost: seq<Bytes>, y: seq<Bytes>, i: nat): (j: nat)
    requires i <= |lost|
    ensures i <= j <= |lost|
  {
    if |y| <= |lost| - i && lost[|lost| - |y|..] == y then |lost| - |y| else |lost|
  }

  predicate Survives(decode: Decoder, lost: seq<Bytes>, x: seq<Bytes>, y: seq<Bytes>, tail: seq<Bytes>) {
    var i := HeadKeeps(lost, x);
    SurvivesBetween(decode, lost, x, y, tail, i, TailKeeps(lost, y, i))
  }

  /** No event fails, and the usage of what is lost and torn survives. */
  ghost predicate Recoverable(decode: Decoder, s: Bytes, h: nat, w: nat)
    requires h <= w <= |s|
  {
    var l := LayoutOf(Payload, s, 0);
    var x, y := Torn(l, h, Payload(Carry(s[..h]))), Torn(l, w, Payload(FirstPiece(s[w..])));
    NoError(decode, Events(Payload, s)) && Survives(decode, LostData(l, h, w), x, y, TailData(l, w))
  }

  lemma Regroup(head: seq<Bytes>, lost: seq<Bytes>, tail: seq<Bytes>, i: nat, j: nat)
    requires i <= j <= |lost|
    ensures head + lost + tail == (head + lost[..i]) + lost[i..j] + (lost[j..] + tail)
  {
  }

  /** The captured events, what is whole of the torn pieces put with head and tail. */
  lemma RegroupTorn(head: seq<Bytes>, a: seq<Bytes>, x: seq<Bytes>, y: seq<Bytes>, b: seq<Bytes>, tail: seq<Bytes>)
    returns (torn: seq<Bytes>)
    requires (a == x || a == []) && (b == y || b == [])
    ensures (head + x) + (y + tail) == (head + a) + torn + (b + tail)
    ensures torn == (if a == x then [] else x) + if b == y then [] else y
  {
    torn := (if a == x then [] else x) + if b == y then [] else y;
  }

  lemma SurvivingUsage(decode: Decoder, head: seq<Bytes>, lost: seq<Bytes>, x: seq<Bytes>, y: seq<Bytes>,
                       tail: seq<Bytes>)
    requires NoError(decode, head + lost + tail) && Survives(decode, lost, x, y, tail)
    ensures var full, capped := ApplyAll(decode, NO_TOTALS, head + lost + tail),
            ApplyAll(decode, NO_TOTALS, (head + x) + (y + tail));
            capped.0.usage == full.0.usage && !full.1 && !capped.1
  {
    var i := HeadKeeps(lost, x);
    var j := TailKeeps(lost, y, i);
    var a, b := lost[..i], lost[j..];
    Regroup(head, lost, tail, i, j);
    var torn := RegroupTorn(head, a, x, y, b, tail);
    assert forall p :: p in torn ==> (a != x && p in x) || (b != y && p in y);
    SameUsage(decode, head + a, lost[i..j], torn, b + tail);
  }

  lemma RecoveredUsage(decode: Decoder, s: Bytes, h: nat, w: nat)
    requires h <= w <= |s| && Recoverable(decode, s, h, w)
    ensures var full := ApplyAll(decode, NO_TOTALS, Events(Payload, s));
            var capped := ApplyAll(decode, NO_TOTALS, Events(Payload, s[..h]) + Events(Payload, s[w..]));
            capped.0.usage == full.0.usage && !full.1 && !capped.1
  {
    CutInThree(s, h, w);
    var l := LayoutOf(Payload, s, 0);
    var x, y := Torn(l, h, Payload(Carry(s[..h]))), Torn(l, w, Payload(FirstPiece(s[w..])));
    SurvivingUsage(decode, HeadData(l, h), LostData(l, h, w), x, y, TailData(l, w));
  }

  /** The two results agree on the usage, and neither is an error. */
  predicate SameResult(full: (Totals, bool), capped: (Totals, bool)) {
    capped.0.usage == full.0.usage && !full.1 && !capped.1
  }

  lemma IfRecoverable(decode: Decoder, s: Bytes, h: nat, w: nat)
    requires h <= w <= |s|
    ensures Recoverable(decode, s, h, w) ==>
              SameResult(ApplyAll(decode, NO_TOTALS, Events(Payload, s)),
                         ApplyAll(decode, NO_TOTALS, Events(Payload, s[..h]) + Events(Payload, s[w..])))
  {
    if Recoverable(decode, s, h, w) {
      RecoveredUsage(decode, s, h, w);
    }
  }

  lemma WholeStream(decode: Decoder, s: Bytes)
    ensures ExtractCapped(decode, s, []) == ApplyAll(decode, NO_TOTALS, Events(Payload, s))
  {
    SeamSeparates(decode, s, []);
    EmptyPayload();
    assert Events(Payload, s) + Events(Payload, []) == Events(Payload, s);
  }

  /** Where the head of n bytes ends: at the capacity, or at the end. */
  function HeadEnd(n: nat, capacity: int): nat { if capacity <= 0 then 0 else if capacity < n then capacity else n }

  /** Where the tail begins: as far before the end as it may be long, but not inside the head. */
  function TailStart(n: nat, capacity: int, limit: nat): nat {
    if limit < n - HeadEnd(n, capacity) then n - limit else HeadEnd(n, capacity)
  }

  lemma HeadAndTail(s: Bytes, capacity: int, limit: nat, h: nat, w: nat)
    requires h == HeadEnd(|s|, capacity) && w == TailStart(|s|, capacity, limit)
    ensures h <= w <= |s| && HeadOf(s, capacity) == s[..h] && TailOf(s, capacity, limit) == s[w..]
  {
  }

  lemma CutCapture(decode: Decoder, s: Bytes, h: nat, w: nat, head: Bytes, tail: Bytes)
    requires h <= w <= |s| && head == s[..h] && tail == s[w..]
    ensures Recoverable(decode, s, h, w) ==> SameResult(ExtractCapped(decode, s, []), ExtractCapped(decode, head, tail))
  {
    IfRecoverable(decode, s, h, w);
    SeamSeparates(decode, head, tail);
    WholeStream(decode, s);
  }

  /**
   * Usage survives the cap. When no event is an error, each of the pieces torn by
   * the two cuts carries its block's payload whole or no usage, and every kind of
   * usage event that was lost between head and tail occurs again in the tail, the
   * capped capture reports the model, tokens and stop reason of the whole stream.
   */
  lemma UsageSurvivesTheCap(decode: Decoder, s: Bytes, capacity: int, limit: nat, h: nat, w: nat)
    requires h == HeadEnd(|s|, capacity) && w == TailStart(|s|, capacity, limit)
    ensures h <= w <= |s|
    ensures Recoverable(decode, s, h, w) ==>
              SameResult(ExtractCapped(decode, s, []),
                         ExtractCapped(decode, HeadOf(s, capacity), TailOf(s, capacity, limit)))
  {
    HeadAndTail(s, capacity, limit, h, w);
    CutCapture(decode, s, h, w, HeadOf(s, capacity), TailOf(s, capacity, limit));
  }
}
