/**
 * The whole parse, Finish included, against the event-stream dispatcher of the
 * HTML Living Standard, sections 9.2.5 and 9.2.6: what ExtractUsage folds
 * (internal/parse/sse.go) is what the standard dispatches exactly when no blank
 * line the block finder misses separates two events and the stream does not end
 * in the middle of one.
 */
module SseWhole {
  import opened Sse
  import opened SseStandard
  import opened SseCapture

  /** What no block closes: no data at all, or one group of it that a blank line closes. */
  predicate EndsClosed(lines: seq<Bytes>) { HasData(lines) ==> OneGroup(lines) && !NothingClosed(lines) }

  /** Every complete block holds at most one event of the standard, and the remainder one it closes or none. */
  predicate WholeSeparable(s: Bytes)
    decreases |s|
  {
    if Complete(s) then OneGroup(Lines(Block(s))) && WholeSeparable(Rest(s)) else EndsClosed(Lines(s))
  }

  /** No bare data line, neither in a block nor in the remainder. */
  predicate NoBareLine(s: Bytes)
    decreases |s|
  {
    if Complete(s) then DATA_FIELD !in Lines(Block(s)) && NoBareLine(Rest(s)) else DATA_FIELD !in Lines(s)
  }

  /**
   * The events a whole parse folds are the standard's if and only if every block and the remainder
   * close what the standard closes.
   */
  lemma WholeParseMeetsStandard(s: Bytes)
    requires !(BOM <= s) && NoBareLine(s)
    ensures Events(Payload, s) == Dispatched(s) <==> WholeSeparable(s)
  {
    EventsAgainst(s);
  }

  /** So the usage of such a stream is the fold of the standard's events, up to the first error. */
  lemma UsageIsTheStandards(decode: Decoder, s: Bytes)
    requires !(BOM <= s) && NoBareLine(s) && WholeSeparable(s)
    ensures ExtractCapped(decode, s, []) == ApplyAll(decode, NO_TOTALS, Dispatched(s))
  {
    EventsAgainst(s);
    WholeStream(decode, s);
  }

  /** With one kind of line ending the two agree exactly when the stream does not end in the middle of an event. */
  lemma UniformWholeParse(s: Bytes)
    requires Uniform(s) && !(BOM <= s) && NoBareLine(s)
    ensures Events(Payload, s) == Dispatched(s) <==> !HasData(Lines(Carry(s)))
  {
    WholeParseMeetsStandard(s);
    UniformEnds(s);
  }

  lemma {:induction false} UniformEnds(s: Bytes)
    requires Uniform(s)
    ensures WholeSeparable(s) <==> !HasData(Lines(Carry(s)))
    decreases |s|
  {
    UniformLines(s);
    if Complete(s) {
      BlanksLeadSuffices(Lines(Block(s)));
      UniformAfterTerminator(s);
      UniformEnds(Rest(s));
    } else {
      var last := LastLine(s);
      BlanksLeadSuffices(FullLines(s));
      StillNothingClosed(FullLines(s), last);
    }
  }

  lemma {:induction false} StillNothingClosed(lines: seq<Bytes>, last: seq<Bytes>)
    requires NothingClosed(lines) && |last| <= 1 && [] !in last
    ensures NothingClosed(lines + last)
    decreases |lines|
  {
    if lines == [] {
      assert lines + last == last;
      if last != [] {
        assert last[1..] == [] && NothingClosed(last[1..]);
      }
    } else {
      assert (lines + last)[1..] == lines[1..] + last;
      StillNothingClosed(lines[1..], last);
    }
  }

  // ------------------------------------------- where the two differ

  /** An event the stream ends in the middle of: Finish flushes it, the standard discards it. */
  lemma UnterminatedParts(v: Bytes)
    requires OneLine(v)
    ensures Events(Payload, DATA + v) == [DataValue(DATA + v)] && Dispatched(DATA + v) == []
  {
    var line := DATA + v;
    forall j | 0 <= j < |line|
      ensures TermLen(line, j) == 0
    {
      assert !IsEol(line[j]);
    }
    FirstNone(line, 0);
    LinesLast(line);
    OneValue(line);
    assert line[0] == 100;
  }

  lemma OneValue(line: Bytes)
    requires IsData(line)
    ensures DataValues([line]) == [DataValue(line)]
  {
    assert [line][1..] == [];
  }

  /** Two events the standard separates by a CRLF after a LF are one to the parser, Finish or no. */
  lemma MixedEndingsJoin(v: Bytes, w: Bytes)
    requires OneLine(v) && OneLine(w)
    ensures var a, b := DATA + v, DATA + w;
            var s := (a + [LF, CR, LF]) + (b + [LF, LF]);
            && Events(Payload, s) == [DataValue(a) + [LF] + DataValue(b)]
            && Dispatched(s) == [FieldValue(a)] + [FieldValue(b)]
  {
    var a, b := DATA + v, DATA + w;
    TwoLines(a, b);
    TwoEvents(a, b, (a + [LF, CR, LF]) + (b + [LF, LF]));
  }

  lemma TwoEvents(a: Bytes, b: Bytes, s: Bytes)
    requires IsData(a) && IsData(b) && s != [] && s[0] == a[0]
    requires Complete(s) && Rest(s) == [] && Lines(Block(s)) == [a, [], b] && FullLines(s) == [a, []] + [b, []]
    ensures Events(Payload, s) == [DataValue(a) + [LF] + DataValue(b)]
    ensures Dispatched(s) == [FieldValue(a)] + [FieldValue(b)]
  {
    TwoParsed(a, b, Block(s));
    EmptyPayload();
    assert a[0] == DATA[0] == 100;
    FieldOfLine(a);
    FieldOfLine(b);
    TwoDispatched(a, b);
  }

  lemma TwoParsed(a: Bytes, b: Bytes, block: Bytes)
    requires IsData(a) && IsData(b) && Lines(block) == [a, [], b]
    ensures Payload(block) == [DataValue(a) + [LF] + DataValue(b)]
  {
    TwoValues(a, b);
  }

  lemma TwoDispatched(a: Bytes, b: Bytes)
    requires IsField(a) && IsField(b)
    ensures OnLines(START, [a, []] + [b, []]).out == [FieldValue(a)] + [FieldValue(b)]
  {
    FieldThenBlank(a);
    FieldThenBlank(b);
    OnLinesConcat(START, [a, []], [b, []]);
    OutInFront([], [FieldValue(a)], [b, []]);
  }

  lemma TwoValues(a: Bytes, b: Bytes)
    requires IsData(a) && IsData(b)
    ensures DataValues([a, [], b]) == [DataValue(a), DataValue(b)]
    ensures Join([DataValue(a), DataValue(b)]) == DataValue(a) + [LF] + DataValue(b)
  {
    OneValue(b);
    var rest: seq<Bytes> := [[], b];
    assert [a, [], b][1..] == rest && rest[1..] == [b];
    assert [DataValue(a), DataValue(b)][1..] == [DataValue(b)];
  }

  lemma TwoLines(a: Bytes, b: Bytes)
    requires OneLine(a) && OneLine(b) && a != [] && b != []
    ensures var s := (a + [LF, CR, LF]) + (b + [LF, LF]);
            && s[0] == a[0] && Complete(s) && Rest(s) == []
            && Lines(Block(s)) == [a, [], b] && FullLines(s) == [a, []] + [b, []]
  {
    TwoLinesBlock(a, b);
    TwoLinesOfBlock(a, b);
    LineBlankMore(a, b + [LF, LF]);
    LineAndEnd(b);
  }

  lemma TwoLinesOfBlock(a: Bytes, b: Bytes)
    requires OneLine(a) && OneLine(b) && b != []
    ensures Lines((a + [LF, CR, LF]) + b) == [a, [], b]
  {
    LineBlankMore(a, b);
    LinesLast(b);
  }

  lemma LineAndEnd(b: Bytes)
    requires OneLine(b) && b != []
    ensures FullLines(b + [LF, LF]) == [b, []]
  {
    ClosedLine(b);
  }

  lemma TwoLinesBlock(a: Bytes, b: Bytes)
    requires OneLine(a) && OneLine(b) && b != []
    ensures var s := (a + [LF, CR, LF]) + (b + [LF, LF]);
            Complete(s) && Block(s) == (a + [LF, CR, LF]) + b && Rest(s) == []
  {
    var s := (a + [LF, CR, LF]) + (b + [LF, LF]);
    forall j | 0 <= j < |a| + 3 + |b|
      ensures TermLen(s, j) == 0
    {
      InsideBlock(a, b, s, j);
    }
    FirstIs(s, 0, |a| + 3 + |b|);
  }

  lemma InsideBlock(a: Bytes, b: Bytes, s: Bytes, j: nat)
    requires OneLine(a) && OneLine(b) && b != [] && j < |a| + 3 + |b| && s == (a + [LF, CR, LF]) + (b + [LF, LF])
    ensures TermLen(s, j) == 0
  {
    if j < |a| {
      assert s[j] == a[j];
    } else if j >= |a| + 3 {
      assert s[j] == b[j - |a| - 3];
    } else {
      assert s[|a|] == LF && s[|a| + 1] == CR && s[|a| + 2] == LF && s[|a| + 3] == b[0];
    }
  }

  /** A line that ends in LF, a blank one that ends in CRLF, and what follows. */
  lemma LineBlankMore(a: Bytes, more: Bytes)
    requires OneLine(a)
    ensures Lines((a + [LF, CR, LF]) + more) == [a, []] + Lines(more)
    ensures FullLines((a + [LF, CR, LF]) + more) == [a, []] + FullLines(more)
  {
    var rest := [CR, LF] + more;
    assert (a + [LF, CR, LF]) + more == a + [LF] + rest;
    Line(a, LF, rest);
    assert rest[..0] == [] && rest[2..] == more;
    LineOff(rest, 0, 2, [], more);
    Assoc([a], [[]], Lines(more));
    Assoc([a], [[]], FullLines(more));
    assert [a] + [[]] == [a, []];
  }

  lemma Line(a: Bytes, eol: byte, rest: Bytes)
    requires OneLine(a) && eol == LF
    ensures Lines(a + [eol] + rest) == [a] + Lines(rest) && FullLines(a + [eol] + rest) == [a] + FullLines(rest)
  {
    var s := a + [eol] + rest;
    assert forall j :: 0 <= j < |a| ==> s[j] == a[j];
    assert s[..|a|] == a && s[|a| + 1..] == rest;
    LineOff(s, |a|, |a| + 1, a, rest);
  }

  /** A bare data line can be made up for by an unterminated event: two differences from the standard, one result. */
  lemma BareMadeUpFor()
    ensures var s := (DATA_FIELD + [LF, LF]) + DATA;
            !NoBareLine(s) && Events(Payload, s) == Dispatched(s) == [[]]
  {
    BareBlock(DATA_FIELD, DATA, (DATA_FIELD + [LF, LF]) + DATA);
    BareEvents((DATA_FIELD + [LF, LF]) + DATA);
  }

  lemma BareEvents(s: Bytes)
    requires s != [] && s[0] == 100
    requires Complete(s) && Block(s) == DATA_FIELD && Lines(Block(s)) == [DATA_FIELD] && Rest(s) == DATA
             && FullLines(s) == [DATA_FIELD, []]
    ensures !NoBareLine(s) && Events(Payload, s) == Dispatched(s) == [[]]
  {
    NotDataNoPayload(DATA_FIELD);
    FieldOfLine(DATA_FIELD);
    FieldThenBlank(DATA_FIELD);
    UnterminatedParts([]);
    assert DATA + [] == DATA;
  }

  lemma BareBlock(a: Bytes, b: Bytes, s: Bytes)
    requires OneLine(a) && OneLine(b) && a != [] && b != [] && s == (a + [LF, LF]) + b
    ensures Complete(s) && Block(s) == a && Lines(a) == [a] && Rest(s) == b && FullLines(s) == [a, []] && s[0] == a[0]
  {
    BlockThenMore(a, b, s);
    LinesLast(a);
    LinesLast(b);
    var rest := [LF] + b;
    assert s == a + [LF] + rest;
    BlankThenMore(b, rest);
    Line(a, LF, rest);
  }

  lemma BlockThenMore(a: Bytes, b: Bytes, s: Bytes)
    requires OneLine(a) && s == (a + [LF, LF]) + b
    ensures Complete(s) && Block(s) == a && Rest(s) == b
  {
    forall j | 0 <= j < |a|
      ensures TermLen(s, j) == 0
    {
      assert s[j] == a[j];
    }
    assert s[|a|] == LF && s[|a| + 1] == LF;
    FirstIs(s, 0, |a|);
    assert s[..|a|] == a && s[|a| + 2..] == b;
  }

  lemma BlankThenMore(b: Bytes, rest: Bytes)
    requires rest == [LF] + b
    ensures FullLines(rest) == [[]] + FullLines(b)
  {
    assert rest[..0] == [] && rest[1..] == b;
    LineOff(rest, 0, 1, [], b);
  }

  // -------------------------------------------------------------- the proof

  /**
   * The remainder's lines, the last of them perhaps unterminated: the standard
   * dispatches nothing of them, or their one group, or first something shorter.
   */
  ghost predicate Leaves(out: seq<Bytes>, values: seq<Bytes>, lines: seq<Bytes>) {
    var all := values + FieldValues(lines);
    if NothingClosed(lines) && (values == [] || [] !in lines) then out == []
    else if OneGroup(lines) && (values == [] || !Reopens(lines)) then all != [] && out == [Join(all)]
    else out != [] && all != [] && |out[0]| < |Join(all)|
  }

  lemma {:induction false} OpenEnd(values: seq<Bytes>, lines: seq<Bytes>, last: seq<Bytes>)
    requires |last| <= 1 && [] !in last
    ensures Leaves(OnLines(Pending(values), lines).out, values, lines + last)
    decreases |lines|, 1
  {
    if lines == [] {
      assert lines + last == last;
      if last != [] {
        assert last[1..] == [] && NothingClosed(last[1..]);
      }
    } else {
      var x, t := lines[0], lines[1..];
      assert (lines + last)[1..] == t + last;
      LineEffect(values, [], x);
      ValuesOfFirst(values, lines + last);
      if x == [] {
        OpenEndBlank(values, lines, last);
      } else {
        OpenEnd(values + FieldValues([x]), t, last);
      }
    }
  }

  lemma {:induction false} OpenEndBlank(values: seq<Bytes>, lines: seq<Bytes>, last: seq<Bytes>)
    requires |last| <= 1 && [] !in last && lines != [] && lines[0] == []
    ensures Leaves(OnLines(Pending(values), lines).out, values, lines + last)
    decreases |lines|, 0
  {
    var t := lines[1..];
    var rest := t + last;
    assert (lines + last)[1..] == rest && (lines + last)[0] == [];
    LineEffect(values, [], []);
    OpenEnd([], t, last);
    NoDataNoValues(rest);
    ReopenedHasData(rest);
    NoDataNothing(rest);
    var out := if values == [] then [] else [Join(values)];
    assert [] + out == out;
    OutInFront([], out, t);
    assert OnLines(Pending(values), lines).out == out + OnLines(Pending([]), t).out;
    assert FieldValues(lines + last) == FieldValues(rest) && [] + FieldValues(rest) == FieldValues(rest);
    if values != [] {
      if FieldValues(rest) == [] {
        assert values + FieldValues(rest) == values && out + [] == out;
      } else {
        JoinGrows(values, FieldValues(rest));
      }
    }
  }

  /** Lines without data close nothing and are in one group. */
  lemma {:induction false} NoDataNothing(lines: seq<Bytes>)
    ensures !HasData(lines) ==> NothingClosed(lines) && OneGroup(lines)
  {
    if lines != [] {
      NoDataNothing(lines[1..]);
    }
  }

  /** The lines with a line ending, and one more when the stream ends without. */
  lemma {:induction false} LastLine(s: Bytes) returns (last: seq<Bytes>)
    ensures |last| <= 1 && [] !in last && Lines(s) == FullLines(s) + last
    decreases |s|
  {
    NoEolBefore(s);
    var e := Eol(s);
    if e == |s| {
      LinesLast(s);
      last := if s == [] then [] else [s];
    } else {
      var k := e + EolLen(s, e);
      LineOff(s, e, k, s[..e], s[k..]);
      last := LastLine(s[k..]);
      Assoc([s[..e]], FullLines(s[k..]), last);
    }
  }

  lemma RemainderAgainst(s: Bytes)
    requires !Complete(s) && DATA_FIELD !in Lines(s)
    ensures Payload(s) == OnLines(START, FullLines(s)).out <==> EndsClosed(Lines(s))
  {
    var last := LastLine(s);
    OpenEnd([], FullLines(s), last);
    BareMatters(Lines(s));
    NoDataNoValues(Lines(s));
    NoDataNothing(Lines(s));
    assert [] + FieldValues(Lines(s)) == FieldValues(Lines(s));
  }

  lemma FirstApart(a: Bytes, rest: seq<Bytes>, d: seq<Bytes>, more: seq<Bytes>)
    requires d != [] && |d[0]| < |a|
    ensures [a] + rest != d + more
  {
    assert ([a] + rest)[0] == a && (d + more)[0] == d[0];
  }

  lemma SamePrefixCancels(a: seq<Bytes>, b: seq<Bytes>, c: seq<Bytes>)
    ensures a + b == a + c <==> b == c
  {
    if a + b == a + c {
      assert b == (a + b)[|a|..] == (a + c)[|a|..] == c;
    }
  }

  lemma {:induction false} EventsAgainst(s: Bytes)
    requires NoBareLine(s)
    ensures Events(Payload, s) == OnLines(START, FullLines(s)).out <==> WholeSeparable(s)
    decreases |s|
  {
    if Complete(s) {
      var b := Lines(Block(s));
      assert START == Pending([]);
      AlongBlock(START, s);
      ClosedLines([], b);
      assert [] + FieldValues(b) == FieldValues(b);
      BareMatters(b);
      var d := OnLines(START, b + [[]]);
      OutInFront([], d.out, FullLines(Rest(s)));
      EventsAgainst(Rest(s));
      var more := OnLines(START, FullLines(Rest(s))).out;
      if OneGroup(b) {
        SamePrefixCancels(d.out, Events(Payload, Rest(s)), more);
      } else {
        FirstApart(Join(FieldValues(b)), Events(Payload, Rest(s)), d.out, more);
      }
    } else {
      RemainderAgainst(s);
    }
  }
}
