/**
 * The peak calendar (internal/pricing/calendar.go). Instants are Unix nanoseconds,
 * dates are day numbers since 1970-01-01; reading a date's text is a function.
 */
module Calendar {
  import opened Options
  import opened Texts

  const HOUR: int := 3_600_000_000_000
  const DAY: int := 24 * HOUR

  function DateOf(t: int): int { t / DAY }
  function TimeOfDay(t: int): int { t % DAY }

  /** Sunday is 0; 1970-01-01 was a Thursday. */
  function Weekday(date: int): int { (date + 4) % 7 }

  predicate Weekend(date: int) { Weekday(date) == 6 || Weekday(date) == 0 }

  /** The days go round from the first Thursday on. */
  lemma WeekdayGoesRound(date: int)
    ensures Weekday(0) == 4 && 0 <= Weekday(date) < 7
    ensures Weekday(date + 1) == if Weekday(date) == 6 then 0 else Weekday(date) + 1
  {
  }

  datatype Calendar = Calendar(offPeak: set<int>, work: set<int>)

  /** IsPeak: a rest day never peaks; a working day peaks inside the two windows. */
  predicate IsPeak(c: Calendar, t: int) {
    var date := DateOf(t);
    if date in c.offPeak then false
    else if date !in c.work && Weekend(date) then false
    else
      var hour := TimeOfDay(t) / HOUR;
      (1 <= hour < 4) || (6 <= hour < 10)
  }

  // ------------------------------------------------- the same rule, elsewhere

  /** A stretch of the UTC day, from lo up to hi. */
  datatype Window = Window(lo: int, hi: int)

  const WINDOWS := [Window(1 * HOUR, 4 * HOUR), Window(6 * HOUR, 10 * HOUR)]

  predicate InWindow(ws: seq<Window>, x: int) { exists w :: w in ws && w.lo <= x < w.hi }

  predicate RestDay(c: Calendar, date: int) { date in c.offPeak || (date !in c.work && Weekend(date)) }

  /** The rules keyed by UTC date. */
  predicate UtcPeak(c: Calendar, ws: seq<Window>, t: int) { !RestDay(c, DateOf(t)) && InWindow(ws, TimeOfDay(t)) }

  const BEIJING := 8 * HOUR

  /** A local time of day in a window moved eight hours later, which may run past midnight. */
  predicate InShifted(ws: seq<Window>, x: int) {
    exists w :: w in ws && (w.lo + BEIJING <= x < w.hi + BEIJING || w.lo + BEIJING <= x + DAY < w.hi + BEIJING)
  }

  /** The rules keyed by Beijing date and weekday, the windows moved to Beijing time. */
  predicate BeijingPeak(c: Calendar, ws: seq<Window>, t: int) {
    !RestDay(c, DateOf(t + BEIJING)) && InShifted(ws, TimeOfDay(t + BEIJING))
  }

  predicate WithinDay(ws: seq<Window>) { forall w :: w in ws ==> 0 <= w.lo && w.hi <= DAY }

  lemma IsPeakIsUtcPeak(c: Calendar, t: int)
    ensures IsPeak(c, t) <==> UtcPeak(c, WINDOWS, t)
  {
    var x := TimeOfDay(t);
    HourIs(x, 1);
    HourIs(x, 4);
    HourIs(x, 6);
    HourIs(x, 10);
    assert WINDOWS[0] in WINDOWS && WINDOWS[1] in WINDOWS;
    assert InWindow(WINDOWS, x) <==> 1 * HOUR <= x < 4 * HOUR || 6 * HOUR <= x < 10 * HOUR;
  }

  /** The rule in nanoseconds: day 4 of the epoch is a Monday, so the days 4 to 8 are working days, and so on. */
  lemma PeakPlainly(c: Calendar, t: int)
    ensures var day, ns := t / 86_400_000_000_000, t % 86_400_000_000_000;
            IsPeak(c, t) <==>
              && day !in c.offPeak && (day in c.work || (day - 4) % 7 < 5)
              && (3_600_000_000_000 <= ns < 14_400_000_000_000 || 21_600_000_000_000 <= ns < 36_000_000_000_000)
  {
    var ns := TimeOfDay(t);
    HourIs(ns, 1);
    HourIs(ns, 4);
    HourIs(ns, 6);
    HourIs(ns, 10);
  }

  lemma HourIs(x: int, h: int)
    requires 0 <= x
    ensures x / HOUR >= h <==> x >= h * HOUR
  {
  }

  /** What Beijing's clock shows. */
  lemma BeijingClock(t: int)
    ensures TimeOfDay(t) < 16 * HOUR ==>
              DateOf(t + BEIJING) == DateOf(t) && TimeOfDay(t + BEIJING) == TimeOfDay(t) + BEIJING
    ensures TimeOfDay(t) >= 16 * HOUR ==>
              DateOf(t + BEIJING) == DateOf(t) + 1 && TimeOfDay(t + BEIJING) == TimeOfDay(t) + BEIJING - DAY
  {
  }

  lemma ShiftedIsSame(ws: seq<Window>, t: int)
    requires WithinDay(ws)
    ensures InShifted(ws, TimeOfDay(t + BEIJING)) <==> InWindow(ws, TimeOfDay(t))
  {
    BeijingClock(t);
    var x, y := TimeOfDay(t), TimeOfDay(t + BEIJING);
    if w :| w in ws && w.lo <= x < w.hi {
      assert InShifted(ws, y);
    }
    if w :| w in ws && (w.lo + BEIJING <= y < w.hi + BEIJING || w.lo + BEIJING <= y + DAY < w.hi + BEIJING) {
      assert w.lo <= x < w.hi;
    }
  }

  /**
   * Keying by UTC date and by Beijing date agree on every calendar and instant exactly when no
   * window reaches past 16:00 UTC.
   */
  lemma UtcKeyingIsBeijingKeying(ws: seq<Window>)
    requires WithinDay(ws)
    ensures (forall c, t :: UtcPeak(c, ws, t) == BeijingPeak(c, ws, t)) <==>
            (forall x :: 16 * HOUR <= x < DAY ==> !InWindow(ws, x))
  {
    if forall x :: 16 * HOUR <= x < DAY ==> !InWindow(ws, x) {
      forall c, t
        ensures UtcPeak(c, ws, t) == BeijingPeak(c, ws, t)
      {
        BeijingClock(t);
        ShiftedIsSame(ws, t);
      }
    } else {
      var x :| 16 * HOUR <= x < DAY && InWindow(ws, x);
      LateWindowParts(ws, x);
    }
  }

  /** A window past 16:00 UTC: an off-peak date in Beijing is still a working date in UTC. */
  lemma LateWindowParts(ws: seq<Window>, x: int)
    requires WithinDay(ws) && 16 * HOUR <= x < DAY && InWindow(ws, x)
    ensures var c := Calendar({1}, {}); UtcPeak(c, ws, x) && !BeijingPeak(c, ws, x)
  {
    BeijingClock(x);
    assert DateOf(x) == 0 && TimeOfDay(x) == x;
  }

  /** So IsPeak, which keys by UTC date, is DeepSeek's Beijing rule. */
  lemma IsPeakIsBeijing(c: Calendar, t: int)
    ensures IsPeak(c, t) <==> BeijingPeak(c, WINDOWS, t)
  {
    IsPeakIsUtcPeak(c, t);
    forall x | 16 * HOUR <= x < DAY
      ensures !InWindow(WINDOWS, x)
    {
    }
    UtcKeyingIsBeijingKeying(WINDOWS);
  }

  /** One more off-peak date takes that date's peak instants away and changes nothing else. */
  lemma OffPeakDateFrame(c: Calendar, date: int, t: int)
    ensures IsPeak(c.(offPeak := c.offPeak + {date}), t) <==> IsPeak(c, t) && DateOf(t) != date
  {
  }

  /** One more work date changes only the in-window instants of that date, and only if it was a weekend. */
  lemma WorkDateFrame(c: Calendar, date: int, t: int)
    requires date !in c.offPeak
    ensures IsPeak(c.(work := c.work + {date}), t) <==>
              IsPeak(c, t) || (DateOf(t) == date && Weekend(date) && InWindow(WINDOWS, TimeOfDay(t)))
  {
    IsPeakIsUtcPeak(c, t);
    IsPeakIsUtcPeak(c.(work := c.work + {date}), t);
  }

  // ------------------------------------------------------------- the date sets

  /** strings.Cut at the first "..". */
  function CutDots(s: string): (string, string, bool) {
    if |s| < 2 then (s, "", false)
    else if s[0] == '.' && s[1] == '.' then ("", s[2..], true)
    else
      var (a, b, found) := CutDots(s[1..]);
      ([s[0]] + a, b, found)
  }

  datatype Span = Span(first: int, last: int)

  /** One item: a date, or an inclusive range that is not reversed; None for every error. */
  function ItemSpan(read: string -> Option<int>, raw: string): Option<Span> {
    var item := Trim(raw);
    if item == "" then None
    else
      var (lo, hi, isRange) := CutDots(item);
      var start := read(Trim(lo));
      if start.None? then None
      else if !isRange then Some(Span(start.value, start.value))
      else
        var end := read(Trim(hi));
        if end.None? || end.value < start.value then None else Some(Span(start.value, end.value))
  }

  /** An item as a person reads it: one date, or a range of two that is not reversed. */
  lemma ItemPlainly(read: string -> Option<int>, lo: string, hi: string)
    requires Tight(lo) && '.' !in lo && Tight(hi)
    ensures ItemSpan(read, lo) ==
              if read(lo) == None then None else Some(Span(read(lo).value, read(lo).value))
    ensures ItemSpan(read, lo + ".." + hi) ==
              if read(lo) == None || read(hi) == None || read(hi).value < read(lo).value then None
              else Some(Span(read(lo).value, read(hi).value))
  {
    CutNoDots(lo);
    CutAtDots(lo, hi);
    TrimTight(lo);
    TrimTight(hi);
    TrimTight(lo + ".." + hi);
  }

  /** A date in the span of one of the items. */
  predicate Listed(read: string -> Option<int>, items: seq<string>, date: int) {
    exists i :: i in items && ItemSpan(read, i).Some?
        && ItemSpan(read, i).value.first <= date <= ItemSpan(read, i).value.last
  }

  predicate AllItems(read: string -> Option<int>, items: seq<string>) {
    forall i :: i in items ==> ItemSpan(read, i).Some?
  }

  /** The text is blank, or every item of it parses. */
  predicate Parses(read: string -> Option<int>, s: string) { Trim(s) == "" || AllItems(read, Fields(s, ',')) }

  /** The date is in the span of one of the text's items; blank text has none. */
  predicate Lists(read: string -> Option<int>, s: string, date: int) {
    Trim(s) != "" && Listed(read, Fields(s, ','), date)
  }

  /** Every item must parse, and the set is the union of their spans; blank text is the empty set. */
  method ParseDateSet(read: string -> Option<int>, s: string) returns (r: Option<set<int>>)
    ensures r.Some? <==> Parses(read, s)
    ensures r.Some? ==> forall d :: d in r.value <==> Lists(read, s, d)
    ensures Trim(s) == "" ==> r == Some({})
  {
    if Trim(s) == "" {
      return Some({});
    }
    var items := Fields(s, ',');
    var out: set<int> := {};
    var i := 0;
    while i < |items|
      invariant 0 <= i <= |items| && AllItems(read, items[..i])
      invariant forall d :: d in out <==> Listed(read, items[..i], d)
    {
      assert items[..i + 1] == items[..i] + [items[i]];
      var span := ItemSpan(read, items[i]);
      if span.None? {
        assert items[i] in items;
        return None;
      }
      var d := span.value.first;
      while d <= span.value.last
        invariant span.value.first <= d <= span.value.last + 1
        invariant forall e :: e in out <==> Listed(read, items[..i], e) || span.value.first <= e < d
      {
        out := out + {d};
        d := d + 1;
      }
      ListedMore(read, items[..i], items[i]);
      i := i + 1;
    }
    assert items[..i] == items;
    r := Some(out);
  }

  lemma ListedMore(read: string -> Option<int>, items: seq<string>, item: string)
    requires ItemSpan(read, item).Some?
    ensures forall d :: Listed(read, items + [item], d) <==>
                          Listed(read, items, d)
                              || ItemSpan(read, item).value.first <= d <= ItemSpan(read, item).value.last
  {
    forall d
      ensures Listed(read, items + [item], d) <==>
                Listed(read, items, d) || ItemSpan(read, item).value.first <= d <= ItemSpan(read, item).value.last
    {
      if Listed(read, items, d) {
        var i :| i in items && ItemSpan(read, i).Some?
            && ItemSpan(read, i).value.first <= d <= ItemSpan(read, i).value.last;
        assert i in items + [item];
      }
      assert item in items + [item];
    }
  }

  /** Exactly when both texts parse and no date is in both, the calendar of the two sets. */
  method NewCalendar(read: string -> Option<int>, offPeak: string, work: string) returns (r: Option<Calendar>)
    ensures r.Some? <==>
              && Parses(read, offPeak) && Parses(read, work)
              && forall d :: !(Lists(read, offPeak, d) && Lists(read, work, d))
    ensures r.Some? ==> forall d :: d in r.value.offPeak <==> Lists(read, offPeak, d)
    ensures r.Some? ==> forall d :: d in r.value.work <==> Lists(read, work, d)
  {
    var off := ParseDateSet(read, offPeak);
    if off.None? {
      return None;
    }
    var wk := ParseDateSet(read, work);
    if wk.None? {
      return None;
    }
    var left := wk.value;
    while left != {}
      invariant left <= wk.value && off.value !! (wk.value - left)
      decreases left
    {
      ghost var some := SomeMember(left);
      var d :| d in left;
      if d in off.value {
        return None;
      }
      left := left - {d};
    }
    r := Some(Calendar(off.value, wk.value));
  }

  // ---------------------------------------------------- writing a set of spans

  /** A date's text, and its reading. */
  datatype Dates = Dates(format: int -> string, read: string -> Option<int>)

  /** A date's text reads back, and has no comma, dot or white space at its ends. */
  ghost predicate ReadsBack(d: Dates) {
    forall n :: d.read(d.format(n)) == Some(n) && Tight(d.format(n)) && ',' !in d.format(n) && '.' !in d.format(n)
  }

  function SpanText(d: Dates, s: Span): string {
    if s.first == s.last then d.format(s.first) else d.format(s.first) + ".." + d.format(s.last)
  }

  function SpanTexts(d: Dates, spans: seq<Span>): seq<string> {
    if spans == [] then [] else [SpanText(d, spans[0])] + SpanTexts(d, spans[1..])
  }

  lemma {:induction false} CutAtDots(a: string, b: string)
    requires '.' !in a
    ensures CutDots(a + ".." + b) == (a, b, true)
  {
    var s := a + ".." + b;
    if a == "" {
      assert s[2..] == b;
    } else {
      assert s[1..] == a[1..] + ".." + b;
      CutAtDots(a[1..], b);
      assert [a[0]] + a[1..] == a;
    }
  }

  lemma {:induction false} CutNoDots(a: string)
    requires '.' !in a
    ensures CutDots(a) == (a, "", false)
  {
    if |a| >= 2 {
      CutNoDots(a[1..]);
      assert [a[0]] + a[1..] == a;
    }
  }

  lemma SpanReadsBack(d: Dates, s: Span)
    requires ReadsBack(d) && s.first <= s.last
    ensures ItemSpan(d.read, SpanText(d, s)) == Some(s) && ',' !in SpanText(d, s) && Tight(SpanText(d, s))
  {
    var a, b := d.format(s.first), d.format(s.last);
    TrimTight(a);
    TrimTight(b);
    if s.first == s.last {
      CutNoDots(a);
    } else {
      TrimTight(a + ".." + b);
      CutAtDots(a, b);
    }
  }

  /** A list of spans written out, with commas between, lists exactly the dates of the spans. */
  lemma {:induction false} SpansReadBack(d: Dates, spans: seq<Span>, date: int)
    requires ReadsBack(d) && forall s :: s in spans ==> s.first <= s.last
    ensures AllItems(d.read, SpanTexts(d, spans)) && forall t :: t in SpanTexts(d, spans) ==> ',' !in t && Tight(t)
    ensures Listed(d.read, SpanTexts(d, spans), date) <==> exists s :: s in spans && s.first <= date <= s.last
    decreases |spans|
  {
    if spans != [] {
      var s := spans[0];
      assert s in spans && spans == [s] + spans[1..];
      SpanReadsBack(d, s);
      SpansReadBack(d, spans[1..], date);
      var texts := SpanTexts(d, spans[1..]);
      assert SpanText(d, s) in [SpanText(d, s)] + texts;
      if Listed(d.read, texts, date) {
        var i :| i in texts && ItemSpan(d.read, i).Some?
            && ItemSpan(d.read, i).value.first <= date <= ItemSpan(d.read, i).value.last;
        assert i in [SpanText(d, s)] + texts;
      }
    }
  }

  /** Spans written out with commas between parse, to exactly the dates of the spans. */
  lemma WrittenSetReadsBack(d: Dates, spans: seq<Span>, date: int)
    requires ReadsBack(d) && forall s :: s in spans ==> s.first <= s.last
    ensures var text := Join(SpanTexts(d, spans), ',');
            && Parses(d.read, text)
            && (Lists(d.read, text, date) <==> exists s :: s in spans && s.first <= date <= s.last)
  {
    var texts := SpanTexts(d, spans);
    SpansReadBack(d, spans, date);
    if spans != [] {
      FieldsOfJoin(texts, ',');
      assert texts[0] in texts;
      JoinOfSome(texts, ',');
      TrimNotBlank(Join(texts, ','));
    }
  }

  lemma TrimNotBlank(s: string)
    requires s != "" && !Space(s[0])
    ensures Trim(s) != ""
  {
    TrimRightKeeps(s);
  }

  lemma {:induction false} TrimRightKeeps(s: string)
    requires s != "" && !Space(s[0])
    ensures TrimRight(s) != ""
  {
    if Space(s[|s| - 1]) {
      TrimRightKeeps(s[..|s| - 1]);
    }
  }
}
