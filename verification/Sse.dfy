/**
 * Incremental server-sent-event parsing (internal/parse/sse.go).
 *
 * The functions say what a block, its lines and its payload are; the class
 * Parser and the methods around it do the work with the source's own loops and
 * carry buffer, and are proved against those functions.
 */
module Sse {
  import opened Options

  newtype byte = b: int | 0 <= b < 256
  type Bytes = seq<byte>

  const LF: byte := 10
  const CR: byte := 13
  const SPACE: byte := 32
  /** "data:" */
  const DATA: Bytes := [100, 97, 116, 97, 58]
  /** "[DONE]" */
  const DONE: Bytes := [91, 68, 79, 78, 69, 93]

  // ---------------------------------------------------------------- blocks

  /** Length of the blank-line terminator that begins at i, or 0 when none does. */
  function TermLen(s: Bytes, i: nat): nat {
    if i + 1 < |s| && s[i] == LF && s[i + 1] == LF then 2
    else if i + 1 < |s| && s[i] == CR && s[i + 1] == CR then 2
    else if i + 3 < |s| && s[i] == CR && s[i + 1] == LF && s[i + 2] == CR && s[i + 3] == LF then 4
    else 0
  }

  /** The least position at or after i where a terminator begins; |s| when there is none. */
  function First(s: Bytes, i: nat): (r: nat)
    requires i <= |s|
    ensures i <= r <= |s|
    ensures r < |s| ==> TermLen(s, r) > 0 && r + TermLen(s, r) <= |s|
    decreases |s| - i
  {
    if i == |s| then i else if TermLen(s, i) > 0 then i else First(s, i + 1)
  }

  predicate Complete(s: Bytes) { First(s, 0) < |s| }

  /** The first complete block of s, without its terminator. */
  function Block(s: Bytes): Bytes
    requires Complete(s)
  {
    s[..First(s, 0)]
  }

  /** Length of the first complete block and its terminator. */
  function Used(s: Bytes): (n: nat)
    requires Complete(s)
    ensures First(s, 0) < n <= |s|
  {
    First(s, 0) + TermLen(s, First(s, 0))
  }

  /** What follows them. */
  function Rest(s: Bytes): (r: Bytes)
    requires Complete(s)
    ensures |r| < |s|
  {
    s[Used(s)..]
  }

  /** A position with no terminator before it is below the first one found. */
  lemma FirstIs(s: Bytes, i: nat, r: nat)
    requires i <= r < |s| && TermLen(s, r) > 0
    requires forall j :: i <= j < r ==> TermLen(s, j) == 0
    ensures First(s, i) == r
    decreases r - i
  {
  }

  lemma FirstNone(s: Bytes, i: nat)
    requires i <= |s|
    requires forall j :: i <= j < |s| ==> TermLen(s, j) == 0
    ensures First(s, i) == |s|
    decreases |s| - i
  {
  }

  lemma NoneBefore(s: Bytes, i: nat)
    requires i <= |s|
    ensures forall j :: i <= j < First(s, i) ==> TermLen(s, j) == 0
    decreases |s| - i
  {
  }

  lemma TermShift(s: Bytes, k: nat, u: Bytes, j: nat)
    requires k <= |s| && u == s[k..] && j < |u|
    ensures TermLen(u, j) == TermLen(s, j + k)
  {
    assert forall i :: 0 <= i < |u| ==> u[i] == s[i + k];
  }

  lemma FirstShift(s: Bytes, k: nat, u: Bytes)
    requires Complete(s) && k <= First(s, 0) && u == s[k..]
    ensures Complete(u) && First(u, 0) == First(s, 0) - k && TermLen(u, First(u, 0)) == TermLen(s, First(s, 0))
  {
    var i := First(s, 0);
    NoneBefore(s, 0);
    forall j | 0 <= j < i - k
      ensures TermLen(u, j) == 0
    {
      TermShift(s, k, u, j);
    }
    TermShift(s, k, u, i - k);
    FirstIs(u, 0, i - k);
  }

  lemma RestShift(s: Bytes, k: nat, u: Bytes)
    requires Complete(s) && Complete(u) && k <= First(s, 0) && u == s[k..]
    requires First(u, 0) == First(s, 0) - k && TermLen(u, First(u, 0)) == TermLen(s, First(s, 0))
    ensures Block(u) == Block(s)[k..] && Rest(u) == Rest(s)
  {
    var n := Used(u);
    assert n == Used(s) - k;
    CutShift(s, k, n);
  }

  lemma CutShift(s: Bytes, k: nat, n: nat)
    requires k + n <= |s|
    ensures s[k..][n..] == s[k + n..]
  {
  }

  /** Dropping a prefix that ends no later than the first terminator shifts it. */
  lemma Shift(s: Bytes, k: nat)
    requires Complete(s) && k <= First(s, 0)
    ensures Complete(s[k..])
    ensures First(s[k..], 0) == First(s, 0) - k && TermLen(s[k..], First(s, 0) - k) == TermLen(s, First(s, 0))
    ensures Block(s[k..]) == Block(s)[k..] && Rest(s[k..]) == Rest(s)
  {
    var u := s[k..];
    FirstShift(s, k, u);
    RestShift(s, k, u);
  }

  lemma StillIncomplete(s: Bytes, k: nat)
    requires !Complete(s) && k <= |s|
    ensures !Complete(s[k..])
  {
    NoneBefore(s, 0);
    var u := s[k..];
    forall j | 0 <= j < |u|
      ensures TermLen(u, j) == 0
    {
      TermShift(s, k, u, j);
    }
    FirstNone(u, 0);
  }

  method FindEvent(buf: Bytes) returns (event: Bytes, rest: Bytes, found: bool)
    ensures found == Complete(buf)
    ensures found ==> event == Block(buf) && rest == Rest(buf)
    ensures !found ==> event == [] && rest == buf
  {
    var n := |buf|;
    var i := 0;
    while i < n
      invariant 0 <= i <= n
      invariant forall j :: 0 <= j < i ==> TermLen(buf, j) == 0
    {
      if buf[i] == LF {
        if i + 1 >= n {
          return [], buf, false;
        }
        if buf[i + 1] == LF {
          FirstIs(buf, 0, i);
          return buf[..i], buf[i + 2..], true;
        }
      } else if buf[i] == CR {
        if i + 1 >= n {
          return [], buf, false;
        }
        if buf[i + 1] == CR {
          FirstIs(buf, 0, i);
          return buf[..i], buf[i + 2..], true;
        }
        if buf[i + 1] == LF {
          if i + 2 >= n {
            return [], buf, false;
          }
          if buf[i + 2] == CR {
            if i + 3 >= n {
              return [], buf, false;
            }
            if buf[i + 3] == LF {
              FirstIs(buf, 0, i);
              return buf[..i], buf[i + 4..], true;
            }
          }
        }
      }
      i := i + 1;
    }
    return [], buf, false;
  }

  // ----------------------------------------------------------------- lines

  predicate IsEol(b: byte) { b == LF || b == CR }

  /** Position of the first line-ending byte, or |s|. */
  function Eol(s: Bytes): (e: nat)
    ensures e <= |s|
    ensures e < |s| ==> IsEol(s[e])
  {
    if s == [] then 0 else if IsEol(s[0]) then 0 else 1 + Eol(s[1..])
  }

  lemma NoEolBefore(s: Bytes)
    ensures forall j :: 0 <= j < Eol(s) ==> !IsEol(s[j])
  {
    if s != [] && !IsEol(s[0]) {
      NoEolBefore(s[1..]);
      forall j | 0 <= j < Eol(s)
        ensures !IsEol(s[j])
      {
        assert j > 0 ==> s[j] == s[1..][j - 1];
      }
    }
  }

  /** CRLF is one line ending of two bytes. */
  function EolLen(s: Bytes, e: nat): (k: nat)
    requires e < |s|
    ensures 1 <= k <= 2 && e + k <= |s|
  {
    if s[e] == CR && e + 1 < |s| && s[e + 1] == LF then 2 else 1
  }

  /** The lines of s that have their line ending. */
  function FullLines(s: Bytes): seq<Bytes> {
    var e := Eol(s);
    if e == |s| then [] else [s[..e]] + FullLines(s[e + EolLen(s, e)..])
  }

  /** All lines of a block; an empty unterminated last line is not one. */
  function Lines(b: Bytes): seq<Bytes> {
    var e := Eol(b);
    if e == |b| then (if b == [] then [] else [b]) else [b[..e]] + Lines(b[e + EolLen(b, e)..])
  }

  lemma EolIs(s: Bytes, e: nat)
    requires e <= |s|
    requires e < |s| ==> IsEol(s[e])
    requires forall j :: 0 <= j < e ==> !IsEol(s[j])
    ensures Eol(s) == e
  {
    if e > 0 {
      EolIs(s[1..], e - 1);
    }
  }

  lemma FullLinesUnfold(b: Bytes, line: Bytes, rest: Bytes)
    requires Eol(b) < |b| && line == b[..Eol(b)] && rest == b[Eol(b) + EolLen(b, Eol(b))..]
    ensures FullLines(b) == [line] + FullLines(rest)
  {
  }

  lemma AllLinesUnfold(b: Bytes, line: Bytes, rest: Bytes)
    requires Eol(b) < |b| && line == b[..Eol(b)] && rest == b[Eol(b) + EolLen(b, Eol(b))..]
    ensures Lines(b) == [line] + Lines(rest)
  {
  }

  /** Lines one at a time, for a known first line ending, with the line and what follows it named. */
  lemma LineOff(b: Bytes, e: nat, k: nat, line: Bytes, rest: Bytes)
    requires e < |b| && IsEol(b[e]) && k == e + EolLen(b, e) && line == b[..e] && rest == b[k..]
    requires forall j :: 0 <= j < e ==> !IsEol(b[j])
    ensures Eol(b) == e
    ensures Lines(b) == [line] + Lines(rest) && FullLines(b) == [line] + FullLines(rest)
  {
    EolIs(b, e);
    FullLinesUnfold(b, line, rest);
    AllLinesUnfold(b, line, rest);
  }

  /** The same, in terms of b alone. */
  lemma LinesCons(b: Bytes, e: nat)
    requires e < |b| && IsEol(b[e])
    requires forall j :: 0 <= j < e ==> !IsEol(b[j])
    ensures Eol(b) == e
    ensures FullLines(b) == [b[..e]] + FullLines(b[e + EolLen(b, e)..])
    ensures Lines(b) == [b[..e]] + Lines(b[e + EolLen(b, e)..])
  {
    LineOff(b, e, e + EolLen(b, e), b[..e], b[e + EolLen(b, e)..]);
  }

  lemma LinesLast(b: Bytes)
    requires forall j :: 0 <= j < |b| ==> !IsEol(b[j])
    ensures Eol(b) == |b| && FullLines(b) == []
    ensures Lines(b) == if b == [] then [] else [b]
  {
    EolIs(b, |b|);
  }

  /** The lines already found, then those of b from start on. */
  ghost function LinesFrom(b: Bytes, found: seq<Bytes>, start: nat): seq<Bytes>
    requires start <= |b|
  {
    if found == [] then Lines(b[start..]) else [found[0]] + LinesFrom(b, found[1..], start)
  }

  lemma {:induction false} LinesFromIs(b: Bytes, found: seq<Bytes>, start: nat)
    requires start <= |b|
    ensures LinesFrom(b, found, start) == found + Lines(b[start..])
    decreases |found|
  {
    if found != [] {
      LinesFromIs(b, found[1..], start);
      Assoc([found[0]], found[1..], Lines(b[start..]));
    }
  }

  lemma TakeLine(b: Bytes, found: seq<Bytes>, start: nat, e: nat, next: nat, line: Bytes)
    requires start <= e < |b| && IsEol(b[e]) && next == e + EolLen(b, e)
    requires forall j :: start <= j < e ==> !IsEol(b[j])
    requires line == b[start..e]
    ensures LinesFrom(b, found + [line], next) == LinesFrom(b, found, start)
  {
    var s, n, rest := b[start..], e - start, b[next..];
    assert s[..n] == line && EolLen(s, n) == EolLen(b, e) && s[next - start..] == rest;
    LineOff(s, n, next - start, line, rest);
    LinesFromIs(b, found, start);
    LinesFromIs(b, found + [line], next);
    Assoc(found, [line], Lines(rest));
  }

  lemma NoMoreLines(b: Bytes, found: seq<Bytes>, start: nat)
    requires start <= |b|
    requires forall j :: start <= j < |b| ==> !IsEol(b[j])
    ensures LinesFrom(b, found, start) == found + if start < |b| then [b[start..]] else []
  {
    LinesFromIs(b, found, start);
    EolIs(b[start..], |b| - start);
  }

  lemma LinesFromStart(b: Bytes)
    ensures LinesFrom(b, [], 0) == Lines(b)
  {
    assert b[0..] == b;
  }

  /** Between start and i there is no line ending, but for a CR just before i that a LF at i would complete. */
  ghost predicate Scanned(b: Bytes, start: nat, i: nat) {
    start <= i <= |b| && forall j :: start <= j < i && IsEol(b[j]) ==> j == i - 1 && EolLen(b, j) == 2
  }

  lemma ScannedMore(b: Bytes, start: nat, i: nat)
    requires Scanned(b, start, i) && i < |b| && b[i] != LF && (b[i] == CR ==> i + 1 < |b| && b[i + 1] == LF)
    ensures Scanned(b, start, i + 1)
  {
  }

  lemma LinesDone(b: Bytes, found: seq<Bytes>, start: nat)
    requires Scanned(b, start, |b|) && LinesFrom(b, found, start) == Lines(b)
    ensures Lines(b) == if start < |b| then found + [b[start..]] else found
  {
    NoMoreLines(b, found, start);
  }

  /** A line that ends with the LF at i, less a CR before it. */
  lemma LineAtLf(b: Bytes, found: seq<Bytes>, start: nat, i: nat, end: nat)
    requires Scanned(b, start, i) && i < |b| && b[i] == LF
    requires end == if start < i && b[i - 1] == CR then i - 1 else i
    ensures LinesFrom(b, found + [b[start..end]], i + 1) == LinesFrom(b, found, start) && Scanned(b, i + 1, i + 1)
  {
    TakeLine(b, found, start, end, i + 1, b[start..end]);
  }

  lemma LineAtCr(b: Bytes, found: seq<Bytes>, start: nat, i: nat)
    requires Scanned(b, start, i) && i < |b| && b[i] == CR && !(i + 1 < |b| && b[i + 1] == LF)
    ensures LinesFrom(b, found + [b[start..i]], i + 1) == LinesFrom(b, found, start) && Scanned(b, i + 1, i + 1)
  {
    TakeLine(b, found, start, i, i + 1, b[start..i]);
  }

  /** The lines found and the place reached in the scan for more. */
  ghost predicate Splitting(b: Bytes, found: seq<Bytes>, start: nat, i: nat) {
    Scanned(b, start, i) && LinesFrom(b, found, start) == Lines(b)
  }

  lemma SplitAtLf(b: Bytes, found: seq<Bytes>, start: nat, i: nat, line: Bytes)
    requires Splitting(b, found, start, i) && i < |b| && b[i] == LF
    requires line == b[start..if start < i && b[i - 1] == CR then i - 1 else i]
    ensures Splitting(b, found + [line], i + 1, i + 1)
  {
    LineAtLf(b, found, start, i, if start < i && b[i - 1] == CR then i - 1 else i);
  }

  lemma SplitAtCr(b: Bytes, found: seq<Bytes>, start: nat, i: nat, line: Bytes)
    requires Splitting(b, found, start, i) && i < |b| && b[i] == CR && !(i + 1 < |b| && b[i + 1] == LF)
    requires line == b[start..i]
    ensures Splitting(b, found + [line], i + 1, i + 1)
  {
    LineAtCr(b, found, start, i);
  }

  lemma SplitOn(b: Bytes, found: seq<Bytes>, start: nat, i: nat)
    requires Splitting(b, found, start, i) && i < |b| && b[i] != LF && (b[i] == CR ==> i + 1 < |b| && b[i + 1] == LF)
    ensures Splitting(b, found, start, i + 1)
  {
    ScannedMore(b, start, i);
  }

  method SplitLines(b: Bytes) returns (lines: seq<Bytes>)
    ensures lines == Lines(b)
  {
    lines := [];
    var start := 0;
    LinesFromStart(b);
    for i := 0 to |b|
      invariant start <= i && Splitting(b, lines, start, i)
    {
      if b[i] == LF {
        var end := i;
        if start < end && b[end - 1] == CR {
          end := end - 1;
        }
        var line := b[start..end];
        SplitAtLf(b, lines, start, i, line);
        lines := lines + [line];
        start := i + 1;
      } else if b[i] == CR && !(i + 1 < |b| && b[i + 1] == LF) {
        var line := b[start..i];
        SplitAtCr(b, lines, start, i, line);
        lines := lines + [line];
        start := i + 1;
      } else {
        SplitOn(b, lines, start, i);
      }
    }
    LinesDone(b, lines, start);
    if start < |b| {
      lines := lines + [b[start..]];
    }
  }

  // -------------------------------------------------------------- payloads

  predicate IsData(line: Bytes) { DATA <= line }

  /** The field value: the rest of the line, less one leading space. */
  function DataValue(line: Bytes): Bytes
    requires IsData(line)
  {
    var d := line[|DATA|..];
    if d != [] && d[0] == SPACE then d[1..] else d
  }

  function DataValues(lines: seq<Bytes>): seq<Bytes> {
    if lines == [] then []
    else (if IsData(lines[0]) then [DataValue(lines[0])] else []) + DataValues(lines[1..])
  }

  /** Values joined by a line feed. */
  function Join(parts: seq<Bytes>): Bytes {
    if |parts| == 0 then [] else if |parts| == 1 then parts[0] else parts[0] + [LF] + Join(parts[1..])
  }

  lemma MoreValues(lines: seq<Bytes>, k: nat, found: seq<Bytes>)
    requires k < |lines|
    ensures found + DataValues(lines[k..]) ==
              (if IsData(lines[k]) then found + [DataValue(lines[k])] else found) + DataValues(lines[k + 1..])
  {
    assert lines[k..][1..] == lines[k + 1..];
  }

  function Values(block: Bytes): seq<Bytes> { DataValues(Lines(block)) }

  /** The data of one block: none when it has no data line. */
  function Payload(block: Bytes): seq<Bytes> {
    if Values(block) == [] then [] else [Join(Values(block))]
  }

  /** The payloads of every complete block of s, in order. */
  function Payloads(s: Bytes): seq<Bytes>
    decreases |s|
  {
    if Complete(s) then Payload(Block(s)) + Payloads(Rest(s)) else []
  }

  /** What is left once every complete block has been taken off. */
  function Carry(s: Bytes): (c: Bytes)
    ensures !Complete(c) && |c| <= |s|
    decreases |s|
  {
    if Complete(s) then Carry(Rest(s)) else s
  }

  lemma Assoc(a: seq<Bytes>, b: seq<Bytes>, c: seq<Bytes>)
    ensures (a + b) + c == a + (b + c)
  {
  }

  // ------------------------------------------------------------ the events

  datatype TokenCounts = TokenCounts(input: int, output: int, cacheCreation: int, cacheRead: int)
  datatype Message = Message(model: Bytes, usage: TokenCounts)
  datatype Kind = MessageStart | MessageDelta | ErrorEvent | OtherKind

  /** One decoded event; delta carries the stop reason, empty when it has none. */
  datatype Event = Event(kind: Kind, message: Option<Message>, delta: Option<Bytes>, usage: Option<TokenCounts>)

  /** JSON text to event; None when the text is not valid JSON of the expected shape. */
  type Decoder = Bytes -> Option<Event>

  datatype Usage = Usage(model: Bytes, input: int, cacheCreation: int, cacheRead: int, output: int, stop: Bytes)
  const NO_USAGE := Usage([], 0, 0, 0, 0, [])

  datatype Totals = Totals(usage: Usage, events: nat)
  const NO_TOTALS := Totals(NO_USAGE, 0)

  predicate Fails(decode: Decoder, data: Bytes) {
    data != DONE && decode(data).Some? && decode(data).value.kind == ErrorEvent
  }

  /** The effect of one decoded event on the usage. */
  function ApplyEvent(u: Usage, ev: Event): Usage {
    match ev.kind
    case MessageStart =>
      if ev.message.None? then u
      else
        var m := ev.message.value;
        u.(model := m.model, input := m.usage.input, cacheCreation := m.usage.cacheCreation,
            cacheRead := m.usage.cacheRead)
    case MessageDelta =>
      var u1 := if ev.usage.None? then u else u.(output := ev.usage.value.output);
      if ev.delta.None? || ev.delta.value == [] then u1 else u1.(stop := ev.delta.value)
    case ErrorEvent => u
    case OtherKind => u
  }

  /** The effect of one payload: it always counts; only a decodable one is applied. */
  function ApplyData(decode: Decoder, t: Totals, data: Bytes): Totals {
    var counted := t.(events := t.events + 1);
    if data == DONE || decode(data).None? then counted
    else counted.(usage := ApplyEvent(t.usage, decode(data).value))
  }

  /** Payloads in order, up to and including the first error event. */
  function ApplyAll(decode: Decoder, t: Totals, ps: seq<Bytes>): (Totals, bool)
    decreases |ps|
  {
    if ps == [] then (t, false)
    else if Fails(decode, ps[0]) then (ApplyData(decode, t, ps[0]), true)
    else ApplyAll(decode, ApplyData(decode, t, ps[0]), ps[1..])
  }

  predicate NoError(decode: Decoder, ps: seq<Bytes>) {
    forall p :: p in ps ==> !Fails(decode, p)
  }

  // ------------------------------------------------------------- the parser

  /** What a Feed leaves behind: totals, carry buffer, and whether an error event stopped it. */
  datatype Fed = Fed(totals: Totals, buf: Bytes, err: bool)

  /** Feed on a buffer that already holds the new chunk. */
  function FeedBuffer(decode: Decoder, t: Totals, buf: Bytes): Fed
    decreases |buf|
  {
    if !Complete(buf) then Fed(t, buf, false)
    else
      var (t', err) := ApplyAll(decode, t, Payload(Block(buf)));
      if err then Fed(t', Rest(buf), true) else FeedBuffer(decode, t', Rest(buf))
  }

  /** bytes.TrimSpace leaves nothing. */
  predicate Blank(b: Bytes) {
    forall i :: 0 <= i < |b| ==> b[i] in {9, 10, 11, 12, 13, 32}
  }

  lemma DataHasD(line: Bytes)
    requires IsData(line)
    ensures DATA[0] in line
  {
    assert line[0] == DATA[0];
  }

  /** The blank check in front of a block decides nothing: a block without a 'd' has no data line. */
  lemma {:induction false} BlankHasNoData(lines: seq<Bytes>)
    requires forall l :: l in lines ==> DATA[0] !in l
    ensures DataValues(lines) == []
  {
    if lines != [] {
      if IsData(lines[0]) {
        DataHasD(lines[0]);
        assert false;
      }
      BlankHasNoData(lines[1..]);
    }
  }

  lemma {:induction false} LinesComeFrom(b: Bytes, x: byte)
    requires x !in b
    ensures forall l :: l in Lines(b) ==> x !in l
    decreases |b|
  {
    var e := Eol(b);
    if e < |b| {
      var r := b[e + EolLen(b, e)..];
      LinesComeFrom(r, x);
      assert Lines(b) == [b[..e]] + Lines(r);
    }
  }

  lemma BlankPayload(b: Bytes)
    requires DATA[0] !in b
    ensures Payload(b) == []
  {
    LinesComeFrom(b, DATA[0]);
    BlankHasNoData(Lines(b));
  }

  class Parser {
    const decode: Decoder
    var buf: Bytes
    var usage: Usage
    var events: nat

    function Result(): Totals
      reads this
    {
      Totals(usage, events)
    }

    constructor (decode: Decoder)
      ensures this.decode == decode && buf == [] && Result() == NO_TOTALS
      ensures usage == Usage([], 0, 0, 0, 0, []) && events == 0
    {
      this.decode := decode;
      buf, usage, events := [], NO_USAGE, 0;
    }

    method Feed(chunk: Bytes) returns (err: bool)
      modifies this
      ensures Fed(Result(), buf, err) == FeedBuffer(decode, old(Result()), old(buf) + chunk)
    {
      buf := buf + chunk;
      while true
        invariant FeedBuffer(decode, Result(), buf) == FeedBuffer(decode, old(Result()), old(buf) + chunk)
        decreases |buf|
      {
        var event, rest, found := FindEvent(buf);
        if !found {
          return false;
        }
        buf := rest;
        var failed := ProcessEvent(event);
        if failed {
          return true;
        }
      }
    }

    method Finish() returns (u: Usage, total: nat, err: bool)
      modifies this
      ensures (Totals(u, total), err) == ApplyAll(decode, old(Result()), Payload(old(buf)))
      ensures buf == [] && Result() == Totals(u, total)
    {
      err := false;
      var blank := IsBlank(buf);
      if !blank {
        err := ProcessEvent(buf);
      } else {
        BlankPayload(buf);
      }
      buf := [];
      u, total := usage, events;
    }

    /** The data lines of one block, prefix and one leading space removed. */
    method DataParts(raw: Bytes) returns (dataParts: seq<Bytes>)
      ensures dataParts == Values(raw)
    {
      var lines := SplitLines(raw);
      dataParts := [];
      assert lines[0..] == lines;
      for k := 0 to |lines|
        invariant dataParts + DataValues(lines[k..]) == DataValues(lines)
      {
        MoreValues(lines, k, dataParts);
        if IsData(lines[k]) {
          var d := lines[k][|DATA|..];
          if d != [] && d[0] == SPACE {
            d := d[1..];
          }
          dataParts := dataParts + [d];
        }
      }
    }

    method ProcessEvent(raw: Bytes) returns (err: bool)
      modifies this`usage, this`events
      ensures (Result(), err) == ApplyAll(decode, old(Result()), Payload(raw))
    {
      var blank := IsBlank(raw);
      if blank {
        BlankPayload(raw);
        return false;
      }
      var dataParts := DataParts(raw);
      if dataParts == [] {
        return false;
      }
      events := events + 1;
      var data := Join(dataParts);
      if data == DONE {
        return false;
      }
      err := Apply(data);
    }

    method Apply(data: Bytes) returns (err: bool)
      requires data != DONE
      modifies this`usage
      ensures err <==> decode(data).Some? && decode(data).value.kind == ErrorEvent
      ensures usage == if decode(data).None? then old(usage) else ApplyEvent(old(usage), decode(data).value)
      ensures decode(data).None? || decode(data).value.kind in {ErrorEvent, OtherKind} ==> usage == old(usage)
      ensures decode(data).Some? && decode(data).value.kind == MessageStart ==>
                var start := decode(data).value.message;
                usage == if start.None? then old(usage) else
                  Usage(start.value.model, start.value.usage.input, start.value.usage.cacheCreation,
                        start.value.usage.cacheRead, old(usage).output, old(usage).stop)
      ensures decode(data).Some? && decode(data).value.kind == MessageDelta ==>
                var was, counts, stop := old(usage), decode(data).value.usage, decode(data).value.delta;
                usage == Usage(was.model, was.input, was.cacheCreation, was.cacheRead,
                               if counts.Some? then counts.value.output else was.output,
                               if stop.Some? && stop.value != [] then stop.value else was.stop)
    {
      var ev := decode(data);
      if ev.None? {
        return false;
      }
      match ev.value.kind
      case MessageStart =>
        if ev.value.message.Some? {
          var m := ev.value.message.value;
          usage := usage.(model := m.model);
          usage := usage.(input := m.usage.input);
          usage := usage.(cacheCreation := m.usage.cacheCreation);
          usage := usage.(cacheRead := m.usage.cacheRead);
        }
        return false;
      case MessageDelta =>
        if ev.value.usage.Some? {
          usage := usage.(output := ev.value.usage.value.output);
        }
        if ev.value.delta.Some? && ev.value.delta.value != [] {
          usage := usage.(stop := ev.value.delta.value);
        }
        return false;
      case ErrorEvent =>
        return true;
      case OtherKind =>
        return false;
    }
  }

  method IsBlank(b: Bytes) returns (blank: bool)
    ensures blank == Blank(b)
  {
    for i := 0 to |b|
      invariant forall j :: 0 <= j < i ==> b[j] in {9, 10, 11, 12, 13, 32}
    {
      if b[i] !in {9, 10, 11, 12, 13, 32} {
        return false;
      }
    }
    return true;
  }
}
