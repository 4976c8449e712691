/**
 * The price file (internal/pricing/table.go): its printer, its parser, and the
 * merge of the shipped models. Float text is a pair of functions.
 */
module Prices {
  import opened Options
  import opened Texts

  datatype Field = Input | Output | CacheRead | CacheWrite

  const FIELD_ORDER := [Input, Output, CacheRead, CacheWrite]

  function FieldName(f: Field): string {
    match f
    case Input => "input"
    case Output => "output"
    case CacheRead => "cache_read"
    case CacheWrite => "cache_write"
  }

  /** One model's rates; None is not configured. */
  datatype Rates<F> = Rates(input: Option<F>, output: Option<F>, cacheRead: Option<F>, cacheWrite: Option<F>)

  type Table<F> = map<string, Rates<F>>

  function NoRates<F>(): Rates<F> { Rates(None, None, None, None) }

  function Rate<F>(r: Rates<F>, f: Field): Option<F> {
    match f
    case Input => r.input
    case Output => r.output
    case CacheRead => r.cacheRead
    case CacheWrite => r.cacheWrite
  }

  function With<F>(r: Rates<F>, f: Field, v: F): Rates<F> {
    match f
    case Input => r.(input := Some(v))
    case Output => r.(output := Some(v))
    case CacheRead => r.(cacheRead := Some(v))
    case CacheWrite => r.(cacheWrite := Some(v))
  }

  /** Rates.Set: None for an unknown field name. */
  function SetRate<F>(r: Rates<F>, field: string, v: F): Option<Rates<F>> {
    if field == "input" then Some(With(r, Input, v))
    else if field == "output" then Some(With(r, Output, v))
    else if field == "cache_read" then Some(With(r, CacheRead, v))
    else if field == "cache_write" then Some(With(r, CacheWrite, v))
    else None
  }

  /** Floats: their text, its reading, and which are finite and not negative. */
  datatype Floats<!F> = Floats(format: F -> string, parse: string -> Option<F>, good: F -> bool)

  // ------------------------------------------------------------------- text

  /** strings.Cut at the first such character. */
  function Cut(s: string, c: char): (string, string, bool) {
    if s == "" then ("", "", false)
    else if s[0] == c then ("", s[1..], true)
    else
      var (a, b, found) := Cut(s[1..], c);
      ([s[0]] + a, b, found)
  }

  predicate ModelChar(c: char) {
    'a' <= c <= 'z' || 'A' <= c <= 'Z' || '0' <= c <= '9' || c == '-' || c == '_' || c == ':'
  }

  /** The characters of a model name by their codes: letters, digits, dash, colon, underscore. */
  lemma ModelChars(c: char)
    ensures ModelChar(c) <==>
              var n := c as int;
              97 <= n < 97 + 26 || 65 <= n < 65 + 26 || 48 <= n < 48 + 10 || n == 45 || n == 58 || n == 95
  {
  }

  predicate ValidModel(s: string) { s != "" && forall i :: 0 <= i < |s| ==> ModelChar(s[i]) }

  // ---------------------------------------------------------------- parsing

  /** One line of the file; None for every error. */
  function ParseLine<F>(fl: Floats<F>, t: Table<F>, raw: string): Option<Table<F>> {
    var line := Trim(raw);
    if line == "" || line[0] == '#' then Some(t)
    else
      var (k, val, hasEq) := Cut(line, '=');
      var key := Trim(k);
      if !hasEq then
        if !ValidModel(key) then None else Some(if key in t then t else t[key := NoRates()])
      else
        var (model, field, ok) := Cut(key, '.');
        if !ok || !ValidModel(model) then None
        else
          var rate := fl.parse(Trim(val));
          if rate.None? || !fl.good(rate.value) then None
          else
            var r := SetRate(if model in t then t[model] else NoRates(), field, rate.value);
            if r.None? then None else Some(t[model := r.value])
  }

  function ParseLines<F>(fl: Floats<F>, t: Table<F>, lines: seq<string>): Option<Table<F>>
    decreases |lines|
  {
    if lines == [] then Some(t)
    else
      var r := ParseLine(fl, t, lines[0]);
      if r.None? then None else ParseLines(fl, r.value, lines[1..])
  }

  function Parsed<F>(fl: Floats<F>, data: string): Option<Table<F>> { ParseLines(fl, map[], Fields(data, '\n')) }

  /** parseTable. */
  method ParseTable<F>(fl: Floats<F>, data: string) returns (r: Option<Table<F>>)
    ensures r == Parsed(fl, data)
  {
    var lines := Fields(data, '\n');
    var t: Table<F> := map[];
    var i := 0;
    while i < |lines|
      invariant 0 <= i <= |lines| && ParseLines(fl, t, lines[i..]) == Parsed(fl, data)
    {
      assert lines[i..][0] == lines[i] && lines[i..][1..] == lines[i + 1..];
      var next := ParseLine(fl, t, lines[i]);
      if next.None? {
        return None;
      }
      t := next.value;
      i := i + 1;
    }
    r := Some(t);
  }

  // --------------------------------------------------------------- printing

  function RateLine<F>(fl: Floats<F>, model: string, f: Field, v: F): string {
    model + "." + FieldName(f) + " = " + fl.format(v)
  }

  function RateLines<F>(fl: Floats<F>, model: string, r: Rates<F>, fields: seq<Field>): seq<string> {
    if fields == [] then []
    else
      var v, rest := Rate(r, fields[0]), RateLines(fl, model, r, fields[1..]);
      if v.Some? then [RateLine(fl, model, fields[0], v.value)] + rest else rest
  }

  /** A model with no rates is a bare line. */
  function ModelLines<F>(fl: Floats<F>, model: string, r: Rates<F>): seq<string> {
    var lines := RateLines(fl, model, r, FIELD_ORDER);
    if lines == [] then [model] else lines
  }

  function TableLines<F>(fl: Floats<F>, t: Table<F>, models: seq<string>): seq<string>
    requires forall m :: m in models ==> m in t
  {
    if models == [] then [] else ModelLines(fl, models[0], t[models[0]]) + TableLines(fl, t, models[1..])
  }

  function Text(lines: seq<string>): string {
    if lines == [] then "" else lines[0] + ['\n'] + Text(lines[1..])
  }

  // ------------------------------------------------------- text properties

  lemma {:induction false} CutAt(a: string, c: char, b: string)
    requires c !in a
    ensures Cut(a + [c] + b, c) == (a, b, true)
  {
    var s := a + [c] + b;
    if a == "" {
      assert s[1..] == b;
    } else {
      assert s[1..] == a[1..] + [c] + b;
      CutAt(a[1..], c, b);
      assert [a[0]] + a[1..] == a;
    }
  }

  lemma {:induction false} CutNone(a: string, c: char)
    requires c !in a
    ensures Cut(a, c) == (a, "", false)
  {
    if a != "" {
      CutNone(a[1..], c);
      assert [a[0]] + a[1..] == a;
    }
  }

  lemma {:induction false} FieldsOfText(lines: seq<string>)
    requires forall l :: l in lines ==> '\n' !in l
    ensures Fields(Text(lines), '\n') == lines + [""]
  {
    if lines != [] {
      assert lines[0] in lines;
      FieldOfPlain(lines[0], '\n');
      FieldsOfText(lines[1..]);
      FieldsOfTwo(lines[0], Text(lines[1..]), '\n');
      assert lines == [lines[0]] + lines[1..];
    }
  }

  lemma {:induction false} ParseLinesConcat<F>(fl: Floats<F>, t: Table<F>, a: seq<string>, b: seq<string>)
    requires ParseLines(fl, t, a).Some?
    ensures ParseLines(fl, t, a + b) == ParseLines(fl, ParseLines(fl, t, a).value, b)
    decreases |a|
  {
    if a == [] {
      assert a + b == b;
    } else {
      assert (a + b)[1..] == a[1..] + b;
      ParseLinesConcat(fl, ParseLine(fl, t, a[0]).value, a[1..], b);
    }
  }

  // ------------------------------------------------------------- round trip

  /** Good floats come back from their text, which has no '=' and no white space. */
  ghost predicate RoundTrips<F(!new)>(fl: Floats<F>) {
    forall v :: fl.good(v) ==>
      && fl.parse(fl.format(v)) == Some(v) && fl.format(v) != "" && '=' !in fl.format(v)
      && forall i :: 0 <= i < |fl.format(v)| ==> !Space(fl.format(v)[i])
  }

  predicate GoodRates<F>(fl: Floats<F>, r: Rates<F>) {
    forall f :: Rate(r, f).Some? ==> fl.good(Rate(r, f).value)
  }

  /** What Save accepts. */
  predicate Saveable<F>(fl: Floats<F>, t: Table<F>) {
    forall m :: m in t ==> ValidModel(m) && GoodRates(fl, t[m])
  }

  /** What Save accepts, rate by rate. */
  lemma SaveablePlainly<F>(fl: Floats<F>, t: Table<F>)
    ensures Saveable(fl, t) <==> forall m :: m in t ==>
              && ValidModel(m)
              && (t[m].input.Some? ==> fl.good(t[m].input.value))
              && (t[m].output.Some? ==> fl.good(t[m].output.value))
              && (t[m].cacheRead.Some? ==> fl.good(t[m].cacheRead.value))
              && (t[m].cacheWrite.Some? ==> fl.good(t[m].cacheWrite.value))
  {
    forall m | m in t
      ensures GoodRates(fl, t[m]) <==>
                && (t[m].input.Some? ==> fl.good(t[m].input.value))
                && (t[m].output.Some? ==> fl.good(t[m].output.value))
                && (t[m].cacheRead.Some? ==> fl.good(t[m].cacheRead.value))
                && (t[m].cacheWrite.Some? ==> fl.good(t[m].cacheWrite.value))
    {
      var r := t[m];
      assert Rate(r, Input) == r.input && Rate(r, Output) == r.output
          && Rate(r, CacheRead) == r.cacheRead && Rate(r, CacheWrite) == r.cacheWrite;
    }
  }

  lemma ModelIsPlain(m: string)
    requires ValidModel(m)
    ensures Tight(m) && '=' !in m && '.' !in m && '\n' !in m && m[0] != '#'
  {
  }

  lemma NameIsPlain(f: Field)
    ensures Tight(FieldName(f)) && '=' !in FieldName(f) && '.' !in FieldName(f) && '\n' !in FieldName(f)
  {
  }

  lemma FloatIsPlain<F(!new)>(fl: Floats<F>, v: F)
    requires RoundTrips(fl) && fl.good(v)
    ensures Tight(fl.format(v)) && '=' !in fl.format(v) && '\n' !in fl.format(v)
  {
  }

  lemma TightJoin(a: string, b: string, c: string)
    requires Tight(a) && Tight(c)
    ensures Tight(a + b + c) && (a + b + c)[0] == a[0]
  {
  }

  /** How a printed rate line is taken apart. */
  lemma RateLineCuts(model: string, name: string, text: string)
    requires Tight(model) && '=' !in model && '.' !in model && Tight(name) && '=' !in name && Tight(text)
    ensures var line := model + "." + name + " = " + text;
            && Trim(line) == line && line != "" && line[0] == model[0]
            && Cut(line, '=') == (model + "." + name + " ", " " + text, true)
            && Trim(model + "." + name + " ") == model + "." + name
            && Trim(" " + text) == text
            && Cut(model + "." + name, '.') == (model, name, true)
  {
    var key := model + "." + name;
    TightJoin(model, ".", name);
    TightJoin(key, " = ", text);
    TrimTight(key + " = " + text);
    TrimTight(key);
    TrimTight(text);
    EqualsCut(key, text);
    assert key == model + ['.'] + name;
    CutAt(model, '.', name);
  }

  lemma EqualsCut(key: string, text: string)
    requires '=' !in key
    ensures Cut(key + " = " + text, '=') == (key + " ", " " + text, true)
  {
    var a := key + " ";
    assert '=' !in a;
    assert key + " = " + text == a + ['='] + (" " + text);
    CutAt(a, '=', " " + text);
  }

  lemma SetByName<F>(r: Rates<F>, f: Field, v: F)
    ensures SetRate(r, FieldName(f), v) == Some(With(r, f, v))
  {
    match f
    case Input =>
    case Output =>
    case CacheRead =>
    case CacheWrite =>
  }

  /** A printed rate line sets that rate of that model. */
  lemma ParseRateLine<F(!new)>(fl: Floats<F>, t: Table<F>, model: string, f: Field, v: F)
    requires RoundTrips(fl) && fl.good(v) && ValidModel(model)
    ensures ParseLine(fl, t, RateLine(fl, model, f, v))
            == Some(t[model := With(if model in t then t[model] else NoRates(), f, v)])
    ensures '\n' !in RateLine(fl, model, f, v)
  {
    ModelIsPlain(model);
    NameIsPlain(f);
    FloatIsPlain(fl, v);
    RateLineCuts(model, FieldName(f), fl.format(v));
    SetByName(if model in t then t[model] else NoRates(), f, v);
  }

  /**
   * A written assignment sets the named rate to the number read, and is an error if
   * the model's name, the field's name or the rate is no good.
   */
  lemma ParseAssignment<F>(fl: Floats<F>, t: Table<F>, model: string, name: string, text: string)
    requires Tight(model) && '=' !in model && '.' !in model && model[0] != '#'
    requires Tight(name) && '=' !in name && Tight(text)
    ensures var line := ParseLine(fl, t, model + "." + name + " = " + text);
            var was := if model in t then t[model] else Rates(None, None, None, None);
            if !ValidModel(model) || fl.parse(text).None? || !fl.good(fl.parse(text).value) then line == None
            else
              var v := fl.parse(text);
              var (i, out, read, write) := (was.input, was.output, was.cacheRead, was.cacheWrite);
              line == if name == "input" then Some(t[model := Rates(v, out, read, write)])
                      else if name == "output" then Some(t[model := Rates(i, v, read, write)])
                      else if name == "cache_read" then Some(t[model := Rates(i, out, v, write)])
                      else if name == "cache_write" then Some(t[model := Rates(i, out, read, v)])
                      else None
  {
    RateLineCuts(model, name, text);
  }

  /** A line without an equals sign is a good model's name, or an error; what is known of the model stays. */
  lemma ParseName<F>(fl: Floats<F>, t: Table<F>, model: string)
    requires Tight(model) && '=' !in model && model[0] != '#'
    ensures ParseLine(fl, t, model) ==
              if !ValidModel(model) then None
              else Some(if model in t then t else t[model := Rates(None, None, None, None)])
  {
    TrimTight(model);
    CutNone(model, '=');
  }

  /** The first line that does not parse makes the whole file an error. */
  lemma OneBadLine<F>(fl: Floats<F>, t: Table<F>, a: seq<string>, bad: string, b: seq<string>)
    requires ParseLines(fl, t, a).Some? && ParseLine(fl, ParseLines(fl, t, a).value, bad).None?
    ensures ParseLines(fl, t, a + [bad] + b).None?
  {
    ParseLinesConcat(fl, t, a, [bad] + b);
    assert a + [bad] + b == a + ([bad] + b);
  }

  /** A bare line makes the model known. */
  lemma ParseBareLine<F>(fl: Floats<F>, t: Table<F>, model: string)
    requires ValidModel(model) && model !in t
    ensures ParseLine(fl, t, model) == Some(t[model := NoRates()])
  {
    ModelIsPlain(model);
    TrimTight(model);
    CutNone(model, '=');
  }

  /** The rates of the fields still to come laid over what is there. */
  function Rest<F>(r: Rates<F>, base: Rates<F>, fields: seq<Field>): Rates<F>
    decreases |fields|
  {
    if fields == [] then base
    else
      Rest(r, if Rate(r, fields[0]).Some? then With(base, fields[0], Rate(r, fields[0]).value) else base, fields[1..])
  }

  function RatesIn<F>(t: Table<F>, model: string): Rates<F> { if model in t then t[model] else NoRates() }

  lemma SetTwice<F>(t: Table<F>, model: string, a: Rates<F>, b: Rates<F>)
    ensures t[model := a][model := b] == t[model := b] && RatesIn(t[model := a], model) == a
  {
  }

  lemma {:induction false} ParseRateLines<F(!new)>(fl: Floats<F>, t: Table<F>, model: string, r: Rates<F>,
      fields: seq<Field>)
    requires RoundTrips(fl) && ValidModel(model) && GoodRates(fl, r)
    ensures var lines := RateLines(fl, model, r, fields);
            && (forall l :: l in lines ==> '\n' !in l)
            && ParseLines(fl, t, lines)
               == Some(if lines == [] then t else t[model := Rest(r, RatesIn(t, model), fields)])
            && (lines == [] ==> Rest(r, RatesIn(t, model), fields) == RatesIn(t, model))
    decreases |fields|
  {
    if fields != [] {
      var v := Rate(r, fields[0]);
      if v.Some? {
        ParseRateLine(fl, t, model, fields[0], v.value);
        var line := RateLine(fl, model, fields[0], v.value);
        var next := t[model := With(RatesIn(t, model), fields[0], v.value)];
        ParseRateLines(fl, next, model, r, fields[1..]);
        var more := RateLines(fl, model, r, fields[1..]);
        assert ([line] + more)[1..] == more;
        SetTwice(t, model, With(RatesIn(t, model), fields[0], v.value), Rest(r, RatesIn(next, model), fields[1..]));
      } else {
        ParseRateLines(fl, t, model, r, fields[1..]);
      }
    }
  }

  lemma AllFields<F>(r: Rates<F>)
    ensures Rest(r, NoRates(), FIELD_ORDER) == r
  {
    var a := if r.input.Some? then With(NoRates(), Input, r.input.value) else NoRates();
    var b := if r.output.Some? then With(a, Output, r.output.value) else a;
    var c := if r.cacheRead.Some? then With(b, CacheRead, r.cacheRead.value) else b;
    var d := if r.cacheWrite.Some? then With(c, CacheWrite, r.cacheWrite.value) else c;
    assert FIELD_ORDER[1..] == [Output, CacheRead, CacheWrite];
    assert FIELD_ORDER[1..][1..] == [CacheRead, CacheWrite];
    assert [CacheRead, CacheWrite][1..] == [CacheWrite];
    assert [CacheWrite][1..] == [];
    assert Rest(r, c, [CacheWrite]) == Rest(r, d, []) == d;
    assert Rest(r, b, [CacheRead, CacheWrite]) == Rest(r, c, [CacheWrite]);
    assert Rest(r, a, [Output, CacheRead, CacheWrite]) == Rest(r, b, [CacheRead, CacheWrite]);
    assert d == r;
  }

  /** A model's printed lines bring back exactly its rates. */
  lemma ParseModelLines<F(!new)>(fl: Floats<F>, t: Table<F>, model: string, r: Rates<F>)
    requires RoundTrips(fl) && ValidModel(model) && GoodRates(fl, r) && model !in t
    ensures forall l :: l in ModelLines(fl, model, r) ==> '\n' !in l
    ensures ParseLines(fl, t, ModelLines(fl, model, r)) == Some(t[model := r])
  {
    ParseRateLines(fl, t, model, r, FIELD_ORDER);
    AllFields(r);
    if RateLines(fl, model, r, FIELD_ORDER) == [] {
      ModelIsPlain(model);
      ParseBareLine(fl, t, model);
      assert [model][1..] == [];
    }
  }

  function Chosen<F>(t: Table<F>, models: seq<string>): Table<F>
    requires forall m :: m in models ==> m in t
  {
    map m | m in models :: t[m]
  }

  lemma ChosenMore<F>(base: Table<F>, t: Table<F>, models: seq<string>)
    requires models != [] && forall m :: m in models ==> m in t
    ensures forall m :: m in models[1..] ==> m in t
    ensures base[models[0] := t[models[0]]] + Chosen(t, models[1..]) == base + Chosen(t, models)
  {
    assert models == [models[0]] + models[1..];
  }

  lemma AscendingRest(models: seq<string>)
    requires Ascending(models) && models != []
    ensures Ascending(models[1..]) && models[0] !in models[1..]
  {
    if models[0] in models[1..] {
      var j :| 0 <= j < |models| - 1 && models[1..][j] == models[0];
      assert Before(models[0], models[j + 1]);
      BeforeTotal(models[0], models[0]);
    }
  }

  /** The printed table, model by model, adds up to the table. */
  lemma {:induction false} ParseTableLines<F(!new)>(fl: Floats<F>, base: Table<F>, t: Table<F>, models: seq<string>)
    requires RoundTrips(fl) && Saveable(fl, t) && Ascending(models)
    requires forall m :: m in models ==> m in t && m !in base
    ensures forall l :: l in TableLines(fl, t, models) ==> '\n' !in l
    ensures ParseLines(fl, base, TableLines(fl, t, models)) == Some(base + Chosen(t, models))
    decreases |models|
  {
    if models == [] {
      assert base + Chosen(t, models) == base;
    } else {
      var m, rest := models[0], models[1..];
      assert m in models && models == [m] + rest;
      ParseModelLines(fl, base, m, t[m]);
      AscendingRest(models);
      ParseTableLines(fl, base[m := t[m]], t, rest);
      ParseLinesConcat(fl, base, ModelLines(fl, m, t[m]), TableLines(fl, t, rest));
      ChosenMore(base, t, models);
    }
  }

  predicate Comments(lines: seq<string>) { forall l :: l in lines ==> l != "" && l[0] == '#' && '\n' !in l }

  lemma {:induction false} TrimKeepsHash(s: string)
    requires s != "" && s[0] == '#'
    ensures TrimRight(s) != "" && TrimRight(s)[0] == '#'
    decreases |s|
  {
    if Space(s[|s| - 1]) {
      TrimKeepsHash(s[..|s| - 1]);
    }
  }

  lemma {:induction false} ParseComments<F>(fl: Floats<F>, t: Table<F>, lines: seq<string>)
    requires Comments(lines)
    ensures ParseLines(fl, t, lines) == Some(t)
    decreases |lines|
  {
    if lines != [] {
      assert lines[0] in lines;
      assert forall l :: l in lines[1..] ==> l in lines;
      TrimKeepsHash(lines[0]);
      ParseComments(fl, t, lines[1..]);
    }
  }

  /** The file Save writes: the comment lines, then the models in order. */
  function SaveText<F>(fl: Floats<F>, comments: seq<string>, t: Table<F>, models: seq<string>): string
    requires forall m :: m in models ==> m in t
  {
    Text(comments + TableLines(fl, t, models))
  }

  /** The models of a table, each once, in order. */
  ghost predicate Lists<F>(models: seq<string>, t: Table<F>) {
    Ascending(models) && forall m :: m in models <==> m in t
  }

  /** Reading back a saved file gives exactly the table that was saved, models without rates included. */
  lemma SavedReadsBack<F(!new)>(fl: Floats<F>, comments: seq<string>, t: Table<F>, models: seq<string>)
    requires RoundTrips(fl) && Saveable(fl, t) && Comments(comments) && Lists(models, t)
    ensures Parsed(fl, SaveText(fl, comments, t, models)) == Some(t)
  {
    var lines := comments + TableLines(fl, t, models);
    ParseTableLines(fl, map[], t, models);
    FieldsOfText(lines);
    ParseComments(fl, map[], comments);
    var none: Table<F> := map[];
    ParseLinesConcat(fl, none, comments, TableLines(fl, t, models));
    assert Chosen(t, models) == t;
    assert none + t == t;
    ParseLinesConcat(fl, none, lines, [""]);
    assert [""][1..] == [];
    assert ParseLines(fl, t, [""]) == Some(t);
  }

  // ------------------------------------------------------------ Save and Load

  lemma {:induction false} TextConcat(a: seq<string>, b: seq<string>)
    ensures Text(a + b) == Text(a) + Text(b)
  {
    if a == [] {
      assert a + b == b;
    } else {
      assert (a + b)[1..] == a[1..] + b;
      TextConcat(a[1..], b);
    }
  }

  /** sort.Strings over the map's keys. */
  method SortedModels<F>(t: Table<F>) returns (models: seq<string>)
    ensures Lists(models, t)
  {
    models := [];
    var left := t.Keys;
    while left != {}
      invariant left <= t.Keys && Ascending(models)
      invariant forall m :: m in models <==> m in t && m !in left
      decreases left
    {
      var m :| m in left;
      left := left - {m};
      PlaceAdds(m, models);
      models := Place(m, models);
    }
  }

  lemma {:induction false} RateLinesConcat<F>(fl: Floats<F>, model: string, r: Rates<F>, a: seq<Field>, b: seq<Field>)
    ensures RateLines(fl, model, r, a + b) == RateLines(fl, model, r, a) + RateLines(fl, model, r, b)
    decreases |a|
  {
    if a == [] {
      assert a + b == b;
    } else {
      assert (a + b)[1..] == a[1..] + b;
      RateLinesConcat(fl, model, r, a[1..], b);
    }
  }

  lemma OneField<F>(fl: Floats<F>, model: string, r: Rates<F>, f: Field)
    ensures RateLines(fl, model, r, [f]) == if Rate(r, f).Some? then [RateLine(fl, model, f, Rate(r, f).value)] else []
  {
    assert [f][1..] == [];
  }

  lemma OneLine(line: string)
    ensures Text([line]) == line + ['\n']
  {
    assert [line][1..] == [];
  }

  /** One model's lines, field by field. */
  method PrintModel<F>(fl: Floats<F>, model: string, r: Rates<F>) returns (s: string)
    ensures s == Text(ModelLines(fl, model, r))
  {
    s := "";
    var wrote := false;
    var i := 0;
    while i < |FIELD_ORDER|
      invariant 0 <= i <= |FIELD_ORDER|
      invariant s == Text(RateLines(fl, model, r, FIELD_ORDER[..i]))
                && (wrote <==> RateLines(fl, model, r, FIELD_ORDER[..i]) != [])
    {
      var f := FIELD_ORDER[i];
      assert FIELD_ORDER[..i + 1] == FIELD_ORDER[..i] + [f];
      RateLinesConcat(fl, model, r, FIELD_ORDER[..i], [f]);
      OneField(fl, model, r, f);
      var v := Rate(r, f);
      if v.Some? {
        TextConcat(RateLines(fl, model, r, FIELD_ORDER[..i]), [RateLine(fl, model, f, v.value)]);
        OneLine(RateLine(fl, model, f, v.value));
        s := s + (RateLine(fl, model, f, v.value) + ['\n']);
        wrote := true;
      } else {
        assert RateLines(fl, model, r, FIELD_ORDER[..i]) + [] == RateLines(fl, model, r, FIELD_ORDER[..i]);
      }
      i := i + 1;
    }
    assert FIELD_ORDER[..i] == FIELD_ORDER;
    if !wrote {
      OneLine(model);
      s := model + ['\n'];
    }
  }

  /**
   * Save refuses a table with a bad name or rate before anything is written; the text it writes
   * reads back as the table.
   */
  method Save<F(!new)>(fl: Floats<F>, comments: seq<string>, t: Table<F>) returns (r: Option<string>)
    requires RoundTrips(fl) && Comments(comments)
    ensures r.Some? <==> Saveable(fl, t)
    ensures r.Some? ==> Parsed(fl, r.value) == Some(t)
    ensures r.Some? ==> exists models :: Lists(models, t) && r.value == SaveText(fl, comments, t, models)
  {
    var models := SortedModels(t);
    var i := 0;
    while i < |models|
      invariant 0 <= i <= |models| && forall k :: 0 <= k < i ==> ValidModel(models[k]) && GoodRates(fl, t[models[k]])
    {
      assert models[i] in models;
      if !ValidModel(models[i]) {
        return None;
      }
      var ok := CheckRates(fl, t[models[i]]);
      if !ok {
        return None;
      }
      i := i + 1;
    }
    assert Saveable(fl, t) by {
      forall m | m in t
        ensures ValidModel(m) && GoodRates(fl, t[m])
      {
        assert m in models;
      }
    }
    SavedReadsBack(fl, comments, t, models);
    var b := PrintAll(fl, t, models);
    TextConcat(comments, TableLines(fl, t, models));
    r := Some(Text(comments) + b);
  }

  method CheckRates<F>(fl: Floats<F>, r: Rates<F>) returns (ok: bool)
    ensures ok <==> GoodRates(fl, r)
  {
    ok := true;
    var i := 0;
    while i < |FIELD_ORDER|
      invariant 0 <= i <= |FIELD_ORDER| && ok
      invariant forall k :: 0 <= k < i && Rate(r, FIELD_ORDER[k]).Some? ==> fl.good(Rate(r, FIELD_ORDER[k]).value)
    {
      var v := Rate(r, FIELD_ORDER[i]);
      if v.Some? && !fl.good(v.value) {
        return false;
      }
      i := i + 1;
    }
    assert FIELD_ORDER[0] == Input && FIELD_ORDER[1] == Output && FIELD_ORDER[2] == CacheRead
        && FIELD_ORDER[3] == CacheWrite;
  }

  lemma Regroup(a: string, b: string, c: string)
    ensures a + (b + c) == (a + b) + c
  {
  }

  /** The models' lines in order. */
  method PrintAll<F>(fl: Floats<F>, t: Table<F>, models: seq<string>) returns (b: string)
    requires forall m :: m in models ==> m in t
    ensures b == Text(TableLines(fl, t, models))
  {
    b := "";
    var i := 0;
    assert models[0..] == models;
    while i < |models|
      invariant 0 <= i <= |models| && b + Text(TableLines(fl, t, models[i..])) == Text(TableLines(fl, t, models))
    {
      ghost var rest := TableLines(fl, t, models[i + 1..]);
      assert models[i] in models && models[i..][0] == models[i] && models[i..][1..] == models[i + 1..];
      var s := PrintModel(fl, models[i], t[models[i]]);
      TextConcat(ModelLines(fl, models[i], t[models[i]]), rest);
      Regroup(b, s, Text(rest));
      b := b + s;
      i := i + 1;
    }
  }

  const DEFAULT_MODELS := ["deepseek-v4-pro", "deepseek-flash"]

  /** Load: no file is the shipped table; a file that does not parse is an error; every shipped model is there. */
  method Load<F>(fl: Floats<F>, file: Option<string>) returns (r: Option<Table<F>>)
    ensures r.Some? <==> file.None? || Parsed(fl, file.value).Some?
    ensures r.Some? ==>
              var base := if file.None? then map[] else Parsed(fl, file.value).value;
              && (forall m :: m in r.value <==> m in base || m == "deepseek-v4-pro" || m == "deepseek-flash")
              && (forall m :: m in r.value ==> r.value[m] == if m in base then base[m] else NoRates())
  {
    var t: Table<F> := map[];
    if file.Some? {
      var parsed := ParseTable(fl, file.value);
      if parsed.None? {
        return None;
      }
      t := parsed.value;
    }
    ghost var base := t;
    var i := 0;
    while i < |DEFAULT_MODELS|
      invariant 0 <= i <= |DEFAULT_MODELS|
      invariant forall m :: m in t <==> m in base || m in DEFAULT_MODELS[..i]
      invariant forall m :: m in t ==> t[m] == if m in base then base[m] else NoRates()
    {
      var m := DEFAULT_MODELS[i];
      if m !in t {
        t := t[m := NoRates()];
      }
      assert DEFAULT_MODELS[..i + 1] == DEFAULT_MODELS[..i] + [m];
      i := i + 1;
    }
    assert DEFAULT_MODELS[..i] == DEFAULT_MODELS;
    r := Some(t);
  }

  /** A name with a dot in it could not be saved: its printed line does not parse. */
  lemma DotBreaksTheLine<F>(fl: Floats<F>, t: Table<F>, a: string, b: string, f: Field, v: F)
    requires ValidModel(a) && ValidModel(b)
    requires Tight(fl.format(v)) && '=' !in fl.format(v)
    ensures ParseLine(fl, t, RateLine(fl, a + "." + b, f, v)).None?
  {
    ModelIsPlain(a);
    ModelIsPlain(b);
    var name, text := FieldName(f), fl.format(v);
    var rest := b + "." + name;
    DottedName(b, f, rest);
    ParseAssignment(fl, t, a, rest, text);
    assert RateLine(fl, a + "." + b, f, v) == a + "." + rest + " = " + text;
  }

  lemma DottedName(b: string, f: Field, rest: string)
    requires Tight(b) && '=' !in b && rest == b + "." + FieldName(f)
    ensures Tight(rest) && '=' !in rest && rest !in ["input", "output", "cache_read", "cache_write"]
  {
    NameIsPlain(f);
    TightJoin(b, ".", FieldName(f));
    assert rest[|b|] == '.';
    assert '.' !in "input" && '.' !in "output" && '.' !in "cache_read" && '.' !in "cache_write";
  }
}
