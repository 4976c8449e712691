/**
 * The block parser against the event-stream dispatcher of the HTML Living
 * Standard, sections 9.2.5 and 9.2.6: for every byte stream, exactly when the
 * two dispatch the same data. Only the data field is compared, the one the
 * source reads.
 */
module SseStandard {
  import opened Sse

  // ---------------------------------------------- the standard's dispatcher

  const COLON: byte := 58
  const DATA_FIELD: Bytes := [100, 97, 116, 97]
  const BOM: Bytes := [0xEF, 0xBB, 0xBF]

  /** The data buffer and the events dispatched so far. */
  datatype Dispatcher = Dispatcher(buffer: Bytes, out: seq<Bytes>)

  function Colon(line: Bytes): (c: nat)
    ensures c <= |line|
    ensures c < |line| ==> line[c] == COLON
  {
    if line == [] then 0 else if line[0] == COLON then 0 else 1 + Colon(line[1..])
  }

  lemma ColonIs(line: Bytes, c: nat)
    requires c < |line| && line[c] == COLON
    requires forall j :: 0 <= j < c ==> line[j] != COLON
    ensures Colon(line) == c
  {
    if c > 0 {
      ColonIs(line[1..], c - 1);
    }
  }

  function FieldName(line: Bytes): Bytes { line[..Colon(line)] }

  function FieldValue(line: Bytes): Bytes {
    var c := Colon(line);
    if c == |line| then []
    else if c + 1 < |line| && line[c + 1] == SPACE then line[c + 2..] else line[c + 1..]
  }

  /** One line: a blank one dispatches, a data field is appended with a line feed, the rest is ignored. */
  function OnLine(d: Dispatcher, line: Bytes): Dispatcher {
    if line == [] then
      if d.buffer == [] then d else Dispatcher([], d.out + [d.buffer[..|d.buffer| - 1]])
    else if Colon(line) == 0 then d
    else if FieldName(line) == DATA_FIELD then d.(buffer := d.buffer + FieldValue(line) + [LF])
    else d
  }

  function OnLines(d: Dispatcher, lines: seq<Bytes>): Dispatcher
    decreases |lines|
  {
    if lines == [] then d else OnLines(OnLine(d, lines[0]), lines[1..])
  }

  const START := Dispatcher([], [])

  /** The standard's events for a stream: one leading BOM is dropped, an unterminated line is not processed. */
  function Dispatched(s: Bytes): seq<Bytes> {
    OnLines(START, FullLines(if BOM <= s then s[|BOM|..] else s)).out
  }

  // ------------------------------------------------------------ the theorem

  /** A line the standard takes data from; a bare "data" line is one, with the empty value. */
  predicate IsField(line: Bytes) { FieldName(line) == DATA_FIELD }

  predicate HasData(lines: seq<Bytes>) { lines != [] && (IsField(lines[0]) || HasData(lines[1..])) }

  /** Lines in which a blank line is later followed by a data field. */
  predicate Reopens(lines: seq<Bytes>) {
    lines != [] && ((lines[0] == [] && HasData(lines[1..])) || Reopens(lines[1..]))
  }

  /** No data field is followed by a blank line and then by another data field. */
  predicate OneGroup(lines: seq<Bytes>) {
    lines == [] || ((IsField(lines[0]) ==> !Reopens(lines[1..])) && OneGroup(lines[1..]))
  }

  /** No data field is followed by a blank line. */
  predicate NothingClosed(lines: seq<Bytes>) {
    lines == [] || ((IsField(lines[0]) ==> [] !in lines[1..]) && NothingClosed(lines[1..]))
  }

  /**
   * Every blank line that closes an event for the standard closes a block: a
   * complete block holds at most one event, and the unfinished remainder none.
   */
  predicate Separable(s: Bytes)
    decreases |s|
  {
    if Complete(s) then OneGroup(Lines(Block(s))) && Separable(Rest(s)) else NothingClosed(FullLines(s))
  }

  /** No complete block has a bare "data" line, which the parser passes over. */
  predicate NoBare(s: Bytes)
    decreases |s|
  {
    Complete(s) ==> DATA_FIELD !in Lines(Block(s)) && NoBare(Rest(s))
  }

  /**
   * A BOM in front of a data field that some blank line closes: the parser does not drop the BOM
   * and misses the field.
   */
  predicate BomHidesData(s: Bytes) {
    BOM <= s && ClosedFirst(FullLines(s[|BOM|..]))
  }

  predicate ClosedFirst(lines: seq<Bytes>) { lines != [] && IsField(lines[0]) && [] in lines[1..] }

  /**
   * For every byte stream, Feed dispatches exactly the standard's events if and
   * only if no blank line that the block finder misses closes an event, no
   * complete block has a bare data line, and no BOM hides the first data line.
   */
  lemma BlockParserMeetsStandard(s: Bytes)
    ensures Payloads(s) == Dispatched(s) <==> Separable(s) && NoBare(s) && !BomHidesData(s)
  {
    PayloadsAgainst(s);
    if BOM <= s {
      assert s == BOM + s[|BOM|..];
      BomAgainst(s[|BOM|..]);
    }
  }

  /** Streams with one kind of line ending are always separable. */
  predicate Uniform(s: Bytes) {
    || CR !in s
    || LF !in s
    || OnlyCrLf(s)
  }

  predicate OnlyCrLf(s: Bytes) {
    && (forall i :: 0 <= i < |s| && s[i] == CR ==> i + 1 < |s| && s[i + 1] == LF)
    && (forall i :: 0 <= i < |s| && s[i] == LF ==> i > 0 && s[i - 1] == CR)
  }

  lemma UniformStreamsMeetStandard(s: Bytes)
    requires Uniform(s)
    ensures Payloads(s) == Dispatched(s) <==> NoBare(s) && !BomHidesData(s)
  {
    UniformIsSeparable(s);
    BlockParserMeetsStandard(s);
  }

  // ------------------------------------------- where the two differ

  predicate OneLine(v: Bytes) { forall j :: 0 <= j < |v| ==> !IsEol(v[j]) }

  /** A data field and a blank line are one event, the field's value. */
  lemma FieldThenBlank(line: Bytes)
    requires IsField(line)
    ensures OnLines(START, [line, []]) == Dispatcher([], [FieldValue(line)])
  {
    var value := FieldValue(line);
    var d := Dispatcher([] + value + [LF], []);
    assert OnLine(START, line) == d && d.buffer[..|d.buffer| - 1] == value;
    var blank: seq<Bytes> := [[]];
    assert [line, []][1..] == blank && blank[1..] == [];
    assert OnLines(START, [line, []]) == OnLines(d, blank) == OnLines(OnLine(d, []), []);
  }

  lemma DataIsField(v: Bytes)
    ensures IsField(DATA + v)
  {
    ColonIs(DATA + v, 4);
    assert (DATA + v)[..4] == DATA_FIELD;
  }

  /**
   * Mixed line endings: a blank line that ends in CRLF after a line that ends in LF closes the
   * event, and the parser does not see it.
   */
  lemma MixedEndingsPart(v: Bytes)
    requires OneLine(v)
    ensures var s := DATA + v + [LF, CR, LF];
            Payloads(s) == [] && Dispatched(s) == [FieldValue(DATA + v)]
  {
    var line := DATA + v;
    UnseenBlank(line);
    assert line[0] == 100 && (line + [LF, CR, LF])[0] == 100;
    DataIsField(v);
    FieldThenBlank(DATA + v);
  }

  lemma UnseenBlank(line: Bytes)
    requires OneLine(line)
    ensures Payloads(line + [LF, CR, LF]) == [] && FullLines(line + [LF, CR, LF]) == [line, []]
  {
    var s := line + [LF, CR, LF];
    forall j | 0 <= j < |s|
      ensures TermLen(s, j) == 0
    {
      assert j < |line| ==> s[j] == line[j];
    }
    FirstNone(s, 0);
    LinesCons(s, |line|);
    assert s[..|line|] == line && s[|line| + 1..] == [CR, LF];
    LinesCons([CR, LF], 0);
    LinesLast([]);
  }

  /** One line closed by a blank one, as the block finder and as the standard's line splitter see it. */
  lemma ClosedLine(line: Bytes)
    requires OneLine(line) && line != []
    ensures Payloads(line + [LF, LF]) == Payload(line) && Lines(line) == [line]
    ensures FullLines(line + [LF, LF]) == [line, []]
  {
    var s := line + [LF, LF];
    forall j | 0 <= j < |line|
      ensures TermLen(s, j) == 0
    {
      assert s[j] == line[j];
    }
    FirstIs(s, 0, |line|);
    assert Block(s) == line && Rest(s) == [];
    LinesLast(line);
    LinesCons(s, |line|);
    assert s[..|line|] == line && s[|line| + 1..] == [LF];
    LinesCons([LF], 0);
    LinesLast([]);
  }

  /** The bytes of "data: ", a value, and two line feeds are one event, the value, here and in the standard. */
  lemma OneEvent(v: Bytes, s: Bytes)
    requires forall j :: 0 <= j < |v| ==> v[j] != 10 && v[j] != 13
    requires s == [100, 97, 116, 97, 58, 32] + v + [10, 10]
    ensures Payloads(s) == [v] && Dispatched(s) == [v]
  {
    var line := DATA + ([SPACE] + v);
    assert s == line + [LF, LF] && s[0] == 100;
    ClosedLine(line);
    DataIsField([SPACE] + v);
    FieldThenBlank(line);
    ColonIs(line, 4);
    assert line[5..] == [SPACE] + v && ([SPACE] + v)[1..] == v;
    assert [line][1..] == [] && [DataValue(line)] + DataValues([]) == [v];
  }

  /** A bare "data" line: the standard dispatches an empty event, the parser none. */
  lemma BareDataParts()
    ensures var s := DATA_FIELD + [LF, LF];
            Payloads(s) == [] && Dispatched(s) == [[]]
  {
    ClosedLine(DATA_FIELD);
    FieldOfLine(DATA_FIELD);
    FieldThenBlank(DATA_FIELD);
    NotDataNoPayload(DATA_FIELD);
    assert (DATA_FIELD + [LF, LF])[0] == 100;
  }

  lemma NoColon(line: Bytes)
    requires forall j :: 0 <= j < |line| ==> line[j] != COLON
    ensures Colon(line) == |line|
  {
    if line != [] {
      NoColon(line[1..]);
    }
  }

  /** A leading BOM: the standard drops it, and to the parser the first line is no data line. */
  lemma BomParts(v: Bytes)
    requires OneLine(v)
    ensures var s := BOM + (DATA + v + [LF, LF]);
            Payloads(s) == [] && Dispatched(s) == [FieldValue(DATA + v)]
  {
    var line := DATA + v;
    BehindBom(line);
    ClosedLine(line);
    DataIsField(v);
    FieldThenBlank(DATA + v);
  }

  /** A line with something in front that makes it no data line carries nothing. */
  lemma Behind(p: Bytes, line: Bytes)
    requires OneLine(p) && OneLine(line) && p != [] && !IsData(p + line)
    ensures Payloads(p + (line + [LF, LF])) == []
  {
    var first := p + line;
    ClosedLine(first);
    assert p + (line + [LF, LF]) == first + [LF, LF];
    NotDataNoPayload(first);
  }

  lemma NotDataNoPayload(line: Bytes)
    requires Lines(line) == [line] && !IsData(line)
    ensures Payload(line) == []
  {
    assert [line][1..] == [];
    assert DataValues([line]) == [];
  }

  lemma BehindBom(line: Bytes)
    requires OneLine(line) && line != []
    ensures Payloads(BOM + (line + [LF, LF])) == []
    ensures Dispatched(BOM + (line + [LF, LF])) == OnLines(START, FullLines(line + [LF, LF])).out
  {
    assert (BOM + line)[0] == 0xEF && DATA[0] == 100;
    Behind(BOM, line);
    Dropped(BOM, line + [LF, LF]);
  }

  lemma Dropped(a: Bytes, b: Bytes)
    ensures a <= a + b && (a + b)[|a|..] == b
  {
  }

  // ------------------------------------------------------------- line level

  lemma DataFieldIsData(line: Bytes)
    requires FieldName(line) == DATA_FIELD && line != DATA_FIELD
    ensures IsData(line)
  {
    assert Colon(line) == 4;
    assert forall j :: 0 <= j < 4 ==> line[j] == FieldName(line)[j];
    assert line[..5] == DATA;
  }

  lemma FieldOfLine(line: Bytes)
    ensures IsField(line) <==> IsData(line) || line == DATA_FIELD
    ensures IsData(line) ==> Colon(line) == 4 && FieldValue(line) == DataValue(line)
    ensures line == DATA_FIELD ==> FieldValue(line) == []
  {
    if IsData(line) {
      assert forall j :: 0 <= j < 5 ==> line[j] == DATA[j];
      ColonIs(line, 4);
      assert FieldName(line) == DATA_FIELD;
    } else if line == DATA_FIELD {
      NoColon(line);
      assert FieldName(line) == line;
    } else if IsField(line) {
      DataFieldIsData(line);
    }
  }

  /** The values of the data fields, in order. */
  function FieldValues(lines: seq<Bytes>): seq<Bytes> {
    if lines == [] then [] else (if IsField(lines[0]) then [FieldValue(lines[0])] else []) + FieldValues(lines[1..])
  }

  /** The data buffer that holds these values. */
  function Buffer(values: seq<Bytes>): Bytes {
    if values == [] then [] else values[0] + [LF] + Buffer(values[1..])
  }

  lemma {:induction false} BufferAppend(values: seq<Bytes>, v: Bytes)
    ensures Buffer(values + [v]) == Buffer(values) + v + [LF]
  {
    if values == [] {
      assert values + [v] == [v];
    } else {
      assert (values + [v])[1..] == values[1..] + [v];
      BufferAppend(values[1..], v);
    }
  }

  lemma {:induction false} BufferIsJoin(values: seq<Bytes>)
    requires values != []
    ensures Buffer(values) == Join(values) + [LF]
  {
    if |values| == 1 {
      assert values[1..] == [];
    } else {
      BufferIsJoin(values[1..]);
    }
  }

  /** A dispatcher that has values pending and has dispatched nothing yet. */
  function Pending(values: seq<Bytes>): Dispatcher { Dispatcher(Buffer(values), []) }

  /** What one line does to a dispatcher with pending values. */
  lemma LineEffect(values: seq<Bytes>, out: seq<Bytes>, line: Bytes)
    ensures var d := OnLine(Dispatcher(Buffer(values), out), line);
            if line == [] then
              d == Dispatcher([], out + if values == [] then [] else [Join(values)])
            else
              d == Dispatcher(Buffer(values + FieldValues([line])), out)
  {
    assert FieldValues([line]) == if IsField(line) then [FieldValue(line)] else [];
    if line == [] {
      if values != [] {
        BufferIsJoin(values);
      }
    } else {
      if IsField(line) {
        BufferAppend(values, FieldValue(line));
      } else {
        assert values + [] == values;
      }
    }
  }

  lemma {:induction false} OnLinesConcat(d: Dispatcher, a: seq<Bytes>, b: seq<Bytes>)
    ensures OnLines(d, a + b) == OnLines(OnLines(d, a), b)
    decreases |a|
  {
    if a == [] {
      assert a + b == b;
    } else {
      assert (a + b)[1..] == a[1..] + b;
      OnLinesConcat(OnLine(d, a[0]), a[1..], b);
    }
  }

  lemma OneLineInFront(buffer: Bytes, out: seq<Bytes>, line: Bytes)
    ensures var d := OnLine(Dispatcher(buffer, []), line);
            OnLine(Dispatcher(buffer, out), line) == Dispatcher(d.buffer, out + d.out)
  {
    assert out + [] == out;
    if line == [] && buffer != [] {
      assert [] + [buffer[..|buffer| - 1]] == [buffer[..|buffer| - 1]];
    }
  }

  /** Events already dispatched stay in front. */
  lemma {:induction false} OutInFront(buffer: Bytes, out: seq<Bytes>, lines: seq<Bytes>)
    ensures var d := OnLines(Dispatcher(buffer, []), lines);
            OnLines(Dispatcher(buffer, out), lines) == Dispatcher(d.buffer, out + d.out)
    decreases |lines|
  {
    if lines == [] {
      assert out + [] == out;
    } else {
      OneLineInFront(buffer, out, lines[0]);
      var d1 := OnLine(Dispatcher(buffer, []), lines[0]);
      OutInFront(d1.buffer, d1.out, lines[1..]);
      OutInFront(d1.buffer, out + d1.out, lines[1..]);
      var d := OnLines(Dispatcher(d1.buffer, []), lines[1..]);
      Assoc(out, d1.out, d.out);
    }
  }

  lemma {:induction false} NoDataNoValues(lines: seq<Bytes>)
    ensures HasData(lines) <==> FieldValues(lines) != []
  {
    if lines != [] {
      NoDataNoValues(lines[1..]);
    }
  }

  lemma {:induction false} ReopenedHasData(lines: seq<Bytes>)
    ensures Reopens(lines) ==> HasData(lines)
  {
    if lines != [] {
      ReopenedHasData(lines[1..]);
    }
  }

  /**
   * A closed run of lines with one group dispatches that group and nothing else; otherwise it
   * dispatches more than once.
   */
  ghost predicate Closes(d: Dispatcher, values: seq<Bytes>, lines: seq<Bytes>) {
    var all := values + FieldValues(lines);
    && d.buffer == []
    && if OneGroup(lines) && (values == [] || !Reopens(lines))
       then d.out == if all == [] then [] else [Join(all)]
       else |d.out| > 1 && all != [] && |d.out[0]| < |Join(all)|
  }

  /** Joining more values takes more bytes. */
  lemma {:induction false} JoinGrows(a: seq<Bytes>, b: seq<Bytes>)
    requires a != [] && b != []
    ensures |Join(a)| < |Join(a + b)|
    decreases |a|
  {
    assert (a + b)[1..] == a[1..] + b;
    if |a| == 1 {
      assert |Join(a + b)| == |a[0] + [LF] + Join(a[1..] + b)|;
    } else {
      JoinGrows(a[1..], b);
      assert |Join(a + b)| == |a[0] + [LF] + Join(a[1..] + b)|;
    }
  }

  lemma ValuesOfFirst(values: seq<Bytes>, lines: seq<Bytes>)
    requires lines != []
    ensures values + FieldValues(lines) == (values + FieldValues([lines[0]])) + FieldValues(lines[1..])
    ensures FieldValues([lines[0]]) == if IsField(lines[0]) then [FieldValue(lines[0])] else []
  {
    var first := ValuesOfOne(lines[0]);
    var rest := FieldValues(lines[1..]);
    Assoc(values, first, rest);
  }

  lemma ValuesOfOne(line: Bytes) returns (values: seq<Bytes>)
    ensures values == FieldValues([line]) == if IsField(line) then [FieldValue(line)] else []
  {
    values := if IsField(line) then [FieldValue(line)] else [];
    assert [line][1..] == [] && values + [] == values;
  }

  lemma {:induction false} ClosedLines(values: seq<Bytes>, lines: seq<Bytes>)
    ensures Closes(OnLines(Pending(values), lines + [[]]), values, lines)
    decreases |lines|, 1
  {
    if lines == [] {
      assert lines + [[]] == [[]];
      LineEffect(values, [], []);
      assert values + [] == values;
    } else {
      var x, t := lines[0], lines[1..];
      assert (lines + [[]])[1..] == t + [[]];
      LineEffect(values, [], x);
      ValuesOfFirst(values, lines);
      if x == [] {
        ClosedBlank(values, lines);
      } else {
        ClosedLines(values + FieldValues([x]), t);
      }
    }
  }

  lemma {:induction false} ClosedBlank(values: seq<Bytes>, lines: seq<Bytes>)
    requires lines != [] && lines[0] == []
    ensures Closes(OnLines(Pending(values), lines + [[]]), values, lines)
    decreases |lines|, 0
  {
    var t := lines[1..];
    assert (lines + [[]])[1..] == t + [[]];
    LineEffect(values, [], []);
    ValuesOfFirst(values, lines);
    NoDataNoValues(t);
    ReopenedHasData(t);
    ClosedLines([], t);
    var out := if values == [] then [] else [Join(values)];
    assert [] + out == out;
    OutInFront([], out, t + [[]]);
    assert OnLines(Pending(values), lines + [[]]) == OnLines(Dispatcher([], out), t + [[]]);
    assert FieldValues(lines) == FieldValues(t) && [] + FieldValues(t) == FieldValues(t);
    assert FieldValues(t) == [] ==> values + FieldValues(lines) == values;
    if values != [] && FieldValues(t) != [] {
      JoinGrows(values, FieldValues(t));
    }
  }

  /** Lines that no terminator closes dispatch nothing exactly when no data line is followed by a blank one. */
  lemma {:induction false} OpenLines(values: seq<Bytes>, lines: seq<Bytes>)
    ensures OnLines(Pending(values), lines).out == [] <==> NothingClosed(lines) && (values == [] || [] !in lines)
    decreases |lines|
  {
    if lines != [] {
      var x, t := lines[0], lines[1..];
      LineEffect(values, [], x);
      ValuesOfFirst(values, lines);
      if x == [] {
        OpenLines([], t);
        var out := if values == [] then [] else [Join(values)];
        OutInFront([], out, t);
        assert [] + out == out;
        assert OnLines(Pending(values), lines) == OnLines(Dispatcher([], out), t);
      } else {
        OpenLines(values + FieldValues([x]), t);
      }
    }
  }

  // ------------------------------------------------------------ block level

  lemma OnCons(d: Dispatcher, line: Bytes, lines: seq<Bytes>)
    ensures OnLines(d, [line] + lines) == OnLines(OnLine(d, line), lines)
  {
    assert ([line] + lines)[1..] == lines;
  }

  lemma BlankFirst(u: Bytes)
    requires u != [] && IsEol(u[0])
    ensures FullLines(u) == [[]] + FullLines(u[EolLen(u, 0)..])
  {
    LinesCons(u, 0);
    assert u[..0] == [];
  }

  /** What the standard's lines leave after the terminator is the rest, or the rest less one leading line feed. */
  lemma AfterTerminator(s: Bytes, u: Bytes)
    requires Complete(s) && u == s[First(s, 0) + EolLen(s, First(s, 0))..]
    ensures u != [] && IsEol(u[0])
    ensures var v := u[EolLen(u, 0)..];
            v == Rest(s) || (Rest(s) != [] && Rest(s)[0] == LF && v == Rest(s)[1..])
  {
  }

  /** The lines of s when its first line ending is its first terminator. */
  lemma LinesAtTerminator(s: Bytes) returns (w: seq<Bytes>)
    requires Complete(s) && Eol(s) == First(s, 0)
    ensures FullLines(s) == [Block(s)] + ([[]] + w)
    ensures FullLines(Rest(s)) == w || FullLines(Rest(s)) == [[]] + w
    ensures Lines(Block(s)) == if Block(s) == [] then [] else [Block(s)]
  {
    var i, r := First(s, 0), Rest(s);
    NoEolBefore(s);
    LinesLast(Block(s));
    LinesCons(s, i);
    var u := s[i + EolLen(s, i)..];
    AfterTerminator(s, u);
    BlankFirst(u);
    var v := u[EolLen(u, 0)..];
    w := FullLines(v);
    if v != r {
      BlankFirst(r);
    }
  }

  lemma AtTerminator(d: Dispatcher, s: Bytes)
    requires Complete(s) && Eol(s) == First(s, 0)
    ensures OnLines(d, FullLines(s)) == OnLines(OnLines(d, Lines(Block(s)) + [[]]), FullLines(Rest(s)))
  {
    var x := Block(s);
    var w := LinesAtTerminator(s);
    var dx := OnLine(d, x);
    var db := OnLine(dx, []);
    OnCons(d, x, [[]] + w);
    OnCons(dx, [], w);
    OnCons(db, [], w);
    if x == [] {
      assert Lines(x) + [[]] == [x] + [];
      OnCons(d, x, []);
    } else {
      assert Lines(x) + [[]] == [x] + ([[]] + []);
      OnCons(d, x, [[]] + []);
      OnCons(dx, [], []);
    }
  }

  /** The lines of s are those of its first block, a blank one, and those of the rest, up to repeated blank lines. */
  lemma {:induction false} AlongBlock(d: Dispatcher, s: Bytes)
    requires Complete(s)
    ensures OnLines(d, FullLines(s)) == OnLines(OnLines(d, Lines(Block(s)) + [[]]), FullLines(Rest(s)))
    decreases |s|
  {
    var e, i := Eol(s), First(s, 0);
    NoEolBefore(s);
    assert e <= i;
    if e == i {
      AtTerminator(d, s);
    } else if e + EolLen(s, e) > i {
      CrLfThenLf(d, s);
    } else {
      var k := e + EolLen(s, e);
      var u := s[k..];
      Shift(s, k);
      var x := s[..e];
      FirstLineOfBlock(s, e, k);
      AlongBlock(OnLine(d, x), u);
      SameLineInFront(d, x, FullLines(u), Lines(Block(u)), FullLines(Rest(u)));
    }
  }

  lemma SameLineInFront(d: Dispatcher, x: Bytes, full: seq<Bytes>, block: seq<Bytes>, rest: seq<Bytes>)
    requires OnLines(OnLine(d, x), full) == OnLines(OnLines(OnLine(d, x), block + [[]]), rest)
    ensures OnLines(d, [x] + full) == OnLines(OnLines(d, ([x] + block) + [[]]), rest)
  {
    OnCons(d, x, full);
    assert ([x] + block) + [[]] == [x] + (block + [[]]);
    OnCons(d, x, block + [[]]);
  }

  /** The first line of s is the first line of its block, when the block holds the whole line ending. */
  lemma FirstLineOfBlock(s: Bytes, e: nat, k: nat)
    requires Complete(s) && e == Eol(s) < |s| && k == e + EolLen(s, e) <= First(s, 0)
    ensures Lines(Block(s)) == [s[..e]] + Lines(Block(s)[k..])
    ensures FullLines(s) == [s[..e]] + FullLines(s[k..])
  {
    var b, x := Block(s), s[..e];
    NoEolBefore(s);
    assert EolLen(b, e) == EolLen(s, e) && b[..e] == x;
    LineOff(b, e, k, x, b[k..]);
    LineOff(s, e, k, x, s[k..]);
  }

  /** A CRLF whose LF is already the first byte of a LF LF terminator. */
  lemma CrLfThenLf(d: Dispatcher, s: Bytes)
    requires Complete(s) && Eol(s) < First(s, 0) < Eol(s) + EolLen(s, Eol(s))
    ensures OnLines(d, FullLines(s)) == OnLines(OnLines(d, Lines(Block(s)) + [[]]), FullLines(Rest(s)))
  {
    CrLfLines(s);
    LineAndBlank(d, s[..Eol(s)], FullLines(Rest(s)));
  }

  lemma CrLfLines(s: Bytes)
    requires Complete(s) && Eol(s) < First(s, 0) < Eol(s) + EolLen(s, Eol(s))
    ensures Lines(Block(s)) == [s[..Eol(s)]] && FullLines(s) == [s[..Eol(s)]] + ([[]] + FullLines(Rest(s)))
  {
    CrLfShape(s);
    var e := Eol(s);
    LineThenCr(s, Block(s), e, s[..e]);
    LineThenBlank(s, e, s[..e], s[e + 2..], Rest(s));
  }

  lemma LineThenCr(s: Bytes, b: Bytes, e: nat, x: Bytes)
    requires e == Eol(s) && e < |s| && s[e] == CR && b == s[..e + 1] && x == s[..e]
    ensures Lines(b) == [x]
  {
    NoEolBefore(s);
    LineOff(b, e, e + 1, x, []);
    LinesLast([]);
  }

  lemma LineThenBlank(s: Bytes, e: nat, x: Bytes, u: Bytes, r: Bytes)
    requires e == Eol(s) && e + 3 <= |s| && s[e] == CR && s[e + 1] == LF && s[e + 2] == LF
    requires x == s[..e] && u == s[e + 2..] && r == s[e + 3..]
    ensures FullLines(s) == [x] + ([[]] + FullLines(r))
  {
    NoEolBefore(s);
    LineOff(s, e, e + 2, x, u);
    LineOff(u, 0, 1, [], r);
  }

  lemma CrLfShape(s: Bytes)
    requires Complete(s) && Eol(s) < First(s, 0) < Eol(s) + EolLen(s, Eol(s))
    ensures var e := Eol(s);
            && e + 3 <= |s| && s[e] == CR && s[e + 1] == LF && s[e + 2] == LF
            && Block(s) == s[..e + 1] && Rest(s) == s[e + 3..]
  {
    var e, i := Eol(s), First(s, 0);
    LfTerminator(s, e, i);
  }

  lemma LfTerminator(s: Bytes, e: nat, i: nat)
    requires e < i < |s| && i < e + EolLen(s, e) && TermLen(s, i) > 0
    ensures i == e + 1 && i + 2 <= |s| && s[e] == CR && s[i] == LF && s[i + 1] == LF && TermLen(s, i) == 2
  {
  }

  lemma LineAndBlank(d: Dispatcher, x: Bytes, rest: seq<Bytes>)
    ensures OnLines(d, [x] + ([[]] + rest)) == OnLines(OnLines(d, [x] + [[]]), rest)
  {
    OnLinesConcat(d, [x] + [[]], rest);
    assert [x] + [[]] + rest == [x] + ([[]] + rest);
  }

  // ------------------------------------------------------------ the stream

  /** What the blocks would carry if a bare data line counted. */
  function FieldPayload(block: Bytes): seq<Bytes> {
    var values := FieldValues(Lines(block));
    if values == [] then [] else [Join(values)]
  }

  function FieldPayloads(s: Bytes): seq<Bytes>
    decreases |s|
  {
    if Complete(s) then FieldPayload(Block(s)) + FieldPayloads(Rest(s)) else []
  }

  /** Never more events than the standard, and as many only when they are the same. */
  lemma {:induction false} FieldsAgainst(s: Bytes)
    ensures var d := OnLines(START, FullLines(s)).out;
            && |FieldPayloads(s)| <= |d|
            && (Separable(s) ==> FieldPayloads(s) == d)
            && (!Separable(s) ==> |FieldPayloads(s)| < |d|)
    decreases |s|
  {
    assert START == Pending([]);
    if Complete(s) {
      var b := Lines(Block(s));
      AlongBlock(START, s);
      ClosedLines([], b);
      assert [] + FieldValues(b) == FieldValues(b);
      FieldsAgainst(Rest(s));
      OutInFront([], OnLines(START, b + [[]]).out, FullLines(Rest(s)));
    } else {
      OpenLines([], FullLines(s));
    }
  }

  /** The bytes of some events, each with its closing line feed. */
  function Size(events: seq<Bytes>): nat {
    if events == [] then 0 else |events[0]| + 1 + Size(events[1..])
  }

  lemma {:induction false} SizeConcat(a: seq<Bytes>, b: seq<Bytes>)
    ensures Size(a + b) == Size(a) + Size(b)
  {
    if a == [] {
      assert a + b == b;
    } else {
      assert (a + b)[1..] == a[1..] + b;
      SizeConcat(a[1..], b);
    }
  }

  /** A bare data line makes the difference, and takes one byte of the buffer. */
  lemma {:induction false} BareMatters(lines: seq<Bytes>)
    ensures |Buffer(DataValues(lines))| <= |Buffer(FieldValues(lines))|
    ensures if DATA_FIELD in lines then |Buffer(DataValues(lines))| < |Buffer(FieldValues(lines))|
            else DataValues(lines) == FieldValues(lines)
    ensures FieldValues(lines) == [] ==> DataValues(lines) == []
  {
    if lines != [] {
      var x, t := lines[0], lines[1..];
      BareMatters(t);
      FieldOfLine(x);
      BufferOfFirst(DataValues(t), x);
      BufferOfFirst(FieldValues(t), x);
    }
  }

  lemma BufferOfFirst(values: seq<Bytes>, line: Bytes)
    ensures Buffer([] + values) == Buffer(values)
    ensures IsField(line) ==> Buffer([FieldValue(line)] + values) == FieldValue(line) + [LF] + Buffer(values)
  {
    assert [] + values == values && ([FieldValue(line)] + values)[1..] == values;
  }

  lemma BlockAgainstFields(block: Bytes)
    ensures |Payload(block)| <= |FieldPayload(block)|
    ensures if DATA_FIELD in Lines(block) then Size(Payload(block)) < Size(FieldPayload(block))
            else Payload(block) == FieldPayload(block)
  {
    var lines := Lines(block);
    BareMatters(lines);
    SizeOfJoin(DataValues(lines));
    SizeOfJoin(FieldValues(lines));
  }

  lemma SizeOfJoin(values: seq<Bytes>)
    ensures Size(if values == [] then [] else [Join(values)]) == |Buffer(values)|
  {
    if values != [] {
      BufferIsJoin(values);
      assert [Join(values)][1..] == [];
    }
  }

  lemma {:induction false} AgainstFields(s: Bytes)
    ensures |Payloads(s)| <= |FieldPayloads(s)|
    ensures if NoBare(s) then Payloads(s) == FieldPayloads(s) else Size(Payloads(s)) < Size(FieldPayloads(s))
    decreases |s|
  {
    if Complete(s) {
      BlockAgainstFields(Block(s));
      AgainstFields(Rest(s));
      SizeConcat(Payload(Block(s)), Payloads(Rest(s)));
      SizeConcat(FieldPayload(Block(s)), FieldPayloads(Rest(s)));
    }
  }

  /** The block parser never dispatches more than the standard, and as much only when it agrees with it. */
  lemma PayloadsAgainst(s: Bytes)
    ensures var d := OnLines(START, FullLines(s)).out;
            && (Payloads(s) == d <==> Separable(s) && NoBare(s))
            && (|Payloads(s)| < |d| || (|Payloads(s)| == |d| && Size(Payloads(s)) <= Size(d)))
  {
    FieldsAgainst(s);
    AgainstFields(s);
  }

  // ------------------------------------------------------- a BOM in front

  lemma {:induction false} NoBlankNoEvent(d: Dispatcher, lines: seq<Bytes>)
    requires [] !in lines
    ensures OnLines(d, lines).out == d.out
    decreases |lines|
  {
    if lines != [] {
      NoBlankNoEvent(OnLine(d, lines[0]), lines[1..]);
    }
  }

  /** With more in the buffer, the next blank line dispatches more. */
  lemma {:induction false} MoreInBuffer(p: Bytes, buffer: Bytes, lines: seq<Bytes>)
    requires p != [] && [] in lines
    ensures var more, less := OnLines(Dispatcher(p + buffer, []), lines).out,
            OnLines(Dispatcher(buffer, []), lines).out;
            |less| <= |more| && Size(less) < Size(more)
    decreases |lines|
  {
    var x, t := lines[0], lines[1..];
    if x == [] {
      var more, less := OnLine(Dispatcher(p + buffer, []), x).out, OnLine(Dispatcher(buffer, []), x).out;
      OutInFront([], more, t);
      OutInFront([], less, t);
      var rest := OnLines(START, t).out;
      SizeConcat(more, rest);
      SizeConcat(less, rest);
    } else if Colon(x) != 0 && IsField(x) {
      assert (p + buffer) + FieldValue(x) + [LF] == p + (buffer + FieldValue(x) + [LF]);
      MoreInBuffer(p, buffer + FieldValue(x) + [LF], t);
    } else {
      MoreInBuffer(p, buffer, t);
    }
  }

  lemma EolBehind(p: Bytes, u: Bytes, s: Bytes)
    requires OneLine(p) && s == p + u
    ensures Eol(s) == |p| + Eol(u)
  {
    NoEolBefore(u);
    forall j | 0 <= j < |p| + Eol(u)
      ensures !IsEol(s[j])
    {
      assert s[j] == if j < |p| then p[j] else u[j - |p|];
    }
    EolIs(s, |p| + Eol(u));
  }

  lemma SplitBehind(p: Bytes, u: Bytes, s: Bytes, e: nat)
    requires s == p + u && e < |u|
    ensures EolLen(s, |p| + e) == EolLen(u, e) && s[..|p| + e] == p + u[..e]
            && s[|p| + e + EolLen(u, e)..] == u[e + EolLen(u, e)..]
  {
  }

  /** The standard's lines with and without the BOM differ in the first one, which the BOM makes no field. */
  lemma BomLines(u: Bytes)
    ensures FullLines(u) == [] ==> FullLines(BOM + u) == []
    ensures FullLines(u) != [] ==> FullLines(BOM + u) == [BOM + FullLines(u)[0]] + FullLines(u)[1..]
  {
    LinesBehind(BOM, u, BOM + u);
  }

  lemma LinesBehind(p: Bytes, u: Bytes, s: Bytes)
    requires OneLine(p) && s == p + u
    ensures FullLines(u) == [] ==> FullLines(s) == []
    ensures FullLines(u) != [] ==> FullLines(s) == [p + FullLines(u)[0]] + FullLines(u)[1..]
  {
    EolBehind(p, u, s);
    if Eol(u) < |u| {
      FirstLineBehind(p, u, s);
    }
  }

  lemma FirstLineBehind(p: Bytes, u: Bytes, s: Bytes)
    requires s == p + u && Eol(u) < |u| && Eol(s) == |p| + Eol(u)
    ensures FullLines(u) != [] && FullLines(s) == [p + FullLines(u)[0]] + FullLines(u)[1..]
  {
    var e := Eol(u);
    var line, rest := u[..e], u[e + EolLen(u, e)..];
    BehindUnfold(p, u, s, line, rest, p + line);
    FirstAndRest(line, FullLines(rest));
  }

  lemma BehindUnfold(p: Bytes, u: Bytes, s: Bytes, line: Bytes, rest: Bytes, first: Bytes)
    requires s == p + u && Eol(u) < |u| && Eol(s) == |p| + Eol(u)
    requires line == u[..Eol(u)] && rest == u[Eol(u) + EolLen(u, Eol(u))..] && first == p + line
    ensures FullLines(u) == [line] + FullLines(rest) && FullLines(s) == [first] + FullLines(rest)
  {
    SplitBehind(p, u, s, Eol(u));
    FullLinesUnfold(u, line, rest);
    FullLinesUnfold(s, first, rest);
  }

  lemma FirstAndRest(line: Bytes, rest: seq<Bytes>)
    ensures ([line] + rest)[0] == line && ([line] + rest)[1..] == rest
  {
  }

  lemma BomLineIgnored(d: Dispatcher, x: Bytes)
    ensures OnLine(d, BOM + x) == d
  {
    var line := BOM + x;
    assert line[0] == 0xEF && DATA_FIELD[0] == 100;
    assert FieldName(line) != [] ==> FieldName(line)[0] == 0xEF;
  }

  lemma BomAgainst(u: Bytes)
    ensures var s, full := BOM + u, FullLines(u);
            Payloads(s) == OnLines(START, full).out <==> Separable(s) && NoBare(s) && !ClosedFirst(full)
  {
    var s, full := BOM + u, FullLines(u);
    PayloadsAgainst(s);
    BomLines(u);
    if full != [] {
      var x, t := full[0], full[1..];
      OnCons(START, BOM + x, t);
      BomLineIgnored(START, x);
      if IsField(x) {
        var p := FieldValue(x) + [LF];
        assert [] + FieldValue(x) + [LF] == p && p + [] == p;
        if [] in t {
          MoreInBuffer(p, [], t);
        } else {
          NoBlankNoEvent(START, t);
          NoBlankNoEvent(Dispatcher(p, []), t);
        }
      }
    }
  }

  // ------------------------------------------------------- uniform streams

  /** Blank lines only at the front. */
  predicate BlanksLead(lines: seq<Bytes>) {
    forall j :: 0 < j < |lines| && lines[j] == [] ==> lines[j - 1] == []
  }

  lemma {:induction false} LeadingBlanks(lines: seq<Bytes>, i: nat, j: nat)
    requires BlanksLead(lines) && i < j < |lines| && lines[j] == []
    ensures lines[i] == []
    decreases j - i
  {
    if i + 1 < j {
      LeadingBlanks(lines, i + 1, j);
    }
  }

  lemma {:induction false} BlanksLeadSuffices(lines: seq<Bytes>)
    requires BlanksLead(lines)
    ensures OneGroup(lines) && NothingClosed(lines)
  {
    if lines != [] {
      var t := lines[1..];
      assert forall j :: 0 < j < |t| ==> t[j] == lines[j + 1] && t[j - 1] == lines[j];
      BlanksLeadSuffices(t);
      if IsField(lines[0]) {
        if [] in t {
          var j :| 0 <= j < |t| && t[j] == [];
          LeadingBlanks(lines, 0, j + 1);
        }
        NoBlankNoReopen(t);
      }
    }
  }

  lemma {:induction false} NoBlankNoReopen(lines: seq<Bytes>)
    ensures [] in lines || !Reopens(lines)
  {
    if lines != [] {
      NoBlankNoReopen(lines[1..]);
    }
  }

  /** A suffix of a uniform stream that does not begin inside a CRLF is uniform. */
  lemma UniformSuffix(s: Bytes, k: nat)
    requires Uniform(s) && 0 < k <= |s|
    requires k < |s| && s[k] == LF ==> s[k - 1] != CR
    ensures Uniform(s[k..])
  {
    var u := s[k..];
    assert forall j :: 0 <= j < |u| ==> u[j] == s[j + k];
    assert CR !in s ==> CR !in u;
    assert LF !in s ==> LF !in u;
    if OnlyCrLf(s) {
      forall i | 0 <= i < |u| && u[i] == LF
        ensures i > 0 && u[i - 1] == CR
      {
        assert s[i + k] == LF;
      }
    }
  }

  lemma UniformAfterTerminator(s: Bytes)
    requires Uniform(s) && Complete(s)
    ensures Uniform(Rest(s))
  {
    var n := First(s, 0) + TermLen(s, First(s, 0));
    assert s[n - 1] in s;
    assert n < |s| ==> s[n] in s;
    UniformSuffix(s, n);
  }

  lemma UniformAfterLine(s: Bytes, e: nat)
    requires Uniform(s) && e < |s| && IsEol(s[e])
    ensures Uniform(s[e + EolLen(s, e)..])
  {
    UniformSuffix(s, e + EolLen(s, e));
  }

  /** In a uniform stream a line that is not blank is never followed by a blank one before the terminator. */
  lemma NextLineNotBlank(s: Bytes, e: nat, k: nat)
    requires Uniform(s) && 0 < e < |s| && IsEol(s[e]) && !IsEol(s[e - 1])
    requires k == e + EolLen(s, e) < |s|
    requires TermLen(s, e) == 0
    ensures !IsEol(s[k])
  {
    assert s[e] in s && s[k] in s && s[e + 1] in s;
  }

  /** In a uniform stream a terminator never begins inside the line ending that precedes it. */
  lemma TerminatorAfterLine(s: Bytes, e: nat)
    requires Uniform(s) && e + 1 < |s| && EolLen(s, e) == 2
    ensures TermLen(s, e + 1) == 0
  {
    assert s[e] in s && s[e + 1] in s;
  }

  lemma {:induction false} UniformLines(s: Bytes)
    requires Uniform(s)
    ensures Complete(s) ==> BlanksLead(Lines(Block(s)))
    ensures !Complete(s) ==> BlanksLead(FullLines(s))
    decreases |s|
  {
    var e, i := Eol(s), First(s, 0);
    NoEolBefore(s);
    if e == |s| {
      LinesLast(s);
    } else if e == i {
      LinesLast(Block(s));
    } else {
      var k := e + EolLen(s, e);
      LineBeforeTerminator(s, e);
      UniformAfterLine(s, e);
      UniformLines(s[k..]);
      LineInFront(s, e, k);
    }
  }

  /** A line ending that is not the start of the terminator lies whole before it. */
  lemma LineBeforeTerminator(s: Bytes, e: nat)
    requires Uniform(s) && e == Eol(s) < |s| && e != First(s, 0)
    ensures e + EolLen(s, e) <= First(s, 0)
  {
    NoneBefore(s, 0);
    NoEolBefore(s);
    assert e < First(s, 0) && TermLen(s, e) == 0;
    if EolLen(s, e) == 2 {
      TerminatorAfterLine(s, e);
    }
  }

  lemma LineInFront(s: Bytes, e: nat, k: nat)
    requires Uniform(s) && e == Eol(s) < |s| && k == e + EolLen(s, e) <= First(s, 0)
    requires Complete(s[k..]) ==> BlanksLead(Lines(Block(s[k..])))
    requires !Complete(s[k..]) ==> BlanksLead(FullLines(s[k..]))
    ensures Complete(s) ==> BlanksLead(Lines(Block(s)))
    ensures !Complete(s) ==> BlanksLead(FullLines(s))
  {
    NotBlankNext(s, e, k);
    if Complete(s) {
      ClosedInFront(s, e, k);
    } else {
      NoEolBefore(s);
      LineOff(s, e, k, s[..e], s[k..]);
      StillIncomplete(s, k);
      LeadStepOpen(s[..e], s[k..]);
    }
  }

  lemma NotBlankNext(s: Bytes, e: nat, k: nat)
    requires Uniform(s) && e == Eol(s) < |s| && k == e + EolLen(s, e) <= First(s, 0)
    ensures 0 < e && k < |s| ==> !IsEol(s[k])
  {
    NoEolBefore(s);
    NoneBefore(s, 0);
    if 0 < e && k < |s| {
      NextLineNotBlank(s, e, k);
    }
  }

  lemma ClosedInFront(s: Bytes, e: nat, k: nat)
    requires Complete(s) && e == Eol(s) < |s| && k == e + EolLen(s, e) <= First(s, 0)
    requires Complete(s[k..]) ==> BlanksLead(Lines(Block(s[k..])))
    requires 0 < e && k < |s| ==> !IsEol(s[k])
    ensures BlanksLead(Lines(Block(s)))
  {
    FirstLineOfBlock(s, e, k);
    Shift(s, k);
    LeadStep(s[..e], Block(s[k..]));
  }

  /** A first line in front of lines whose blanks lead. */
  lemma LeadStep(x: Bytes, b: Bytes)
    requires BlanksLead(Lines(b))
    requires x != [] ==> b == [] || !IsEol(b[0])
    ensures BlanksLead([x] + Lines(b))
  {
    if x != [] && b != [] {
      FirstLineNotBlank(b);
    } else if b == [] {
      LinesLast(b);
    }
  }

  lemma FirstLineNotBlank(b: Bytes)
    requires b != [] && !IsEol(b[0])
    ensures Lines(b) != [] && Lines(b)[0] != []
    ensures FullLines(b) != [] ==> FullLines(b)[0] != []
  {
    NoEolBefore(b);
    if Eol(b) < |b| {
      LinesCons(b, Eol(b));
    } else {
      LinesLast(b);
    }
  }

  lemma LeadStepOpen(x: Bytes, b: Bytes)
    requires BlanksLead(FullLines(b))
    requires x != [] ==> b == [] || !IsEol(b[0])
    ensures BlanksLead([x] + FullLines(b))
  {
    if x != [] && b != [] {
      FirstLineNotBlank(b);
    } else if b == [] {
      LinesLast(b);
    }
  }

  lemma {:induction false} UniformIsSeparable(s: Bytes)
    requires Uniform(s)
    ensures Separable(s)
    decreases |s|
  {
    UniformLines(s);
    if Complete(s) {
      BlanksLeadSuffices(Lines(Block(s)));
      UniformAfterTerminator(s);
      UniformIsSeparable(Rest(s));
    } else {
      BlanksLeadSuffices(FullLines(s));
    }
  }
}
