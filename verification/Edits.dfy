/**
 * Replay edits: replacing values of a JSON tree by path and recording what they
 * replaced (internal/replay/edit.go). Numbers keep their text; JSON text itself is
 * a pair of functions.
 */
module Edits {
  import opened Options

  datatype Json = Null | Bool(b: bool) | Str(s: string) | Num(text: string)
                | Arr(items: seq<Json>) | Obj(fields: map<string, Json>)

  // ------------------------------------------------------------ array indices

  predicate Digit(c: char) { '0' <= c <= '9' }

  function DigitValue(c: char): nat
    requires Digit(c)
  {
    c as int - '0' as int
  }

  predicate Digits(s: string) { forall i :: 0 <= i < |s| ==> Digit(s[i]) }

  function NumberOf(s: string): nat
    requires Digits(s)
  {
    if |s| == 0 then 0 else 10 * NumberOf(s[..|s| - 1]) + DigitValue(s[|s| - 1])
  }

  /** strconv.Atoi: an optional sign, at least one digit, 64 bits. */
  function Atoi(s: string): Option<int> {
    var signed := s != "" && (s[0] == '+' || s[0] == '-');
    var digits := if signed then s[1..] else s;
    if digits == "" || !Digits(digits) then None
    else
      var m: int := NumberOf(digits);
      var n := if signed && s[0] == '-' then -m else m;
      if -0x8000_0000_0000_0000 <= n < 0x8000_0000_0000_0000 then Some(n) else None
  }

  lemma {:induction false} LeadingZero(s: string)
    requires Digits(s)
    ensures Digits("0" + s) && NumberOf("0" + s) == NumberOf(s)
  {
    var z := "0" + s;
    if |s| == 0 {
      assert z[..|z| - 1] == "" && DigitValue(z[0]) == 0;
    } else {
      assert z[..|z| - 1] == "0" + s[..|s| - 1] && z[|z| - 1] == s[|s| - 1];
      LeadingZero(s[..|s| - 1]);
    }
  }

  /** Many texts name one element: leading zeros do not count, nor does a plus. */
  lemma IndexTexts(s: string)
    requires s != "" && Digits(s)
    ensures Atoi("0" + s) == Atoi(s) == Atoi("+" + s)
  {
    LeadingZero(s);
    assert ("+" + s)[1..] == s;
    assert Digit(s[0]);
  }

  /** A number written in decimal. */
  function Decimal(n: nat): string {
    (if n < 10 then "" else Decimal(n / 10)) + [(n % 10 + '0' as int) as char]
  }

  lemma {:induction false} DecimalReadsBack(n: nat)
    ensures Decimal(n) != "" && Digits(Decimal(n)) && NumberOf(Decimal(n)) == n
  {
    var s := Decimal(n);
    if n >= 10 {
      DecimalReadsBack(n / 10);
      assert s[..|s| - 1] == Decimal(n / 10);
    }
  }

  /** A decimal in 64 bits is read as the number it stands for, with either sign, and one beyond them not at all. */
  lemma AtoiDecimal(n: nat)
    ensures Atoi(Decimal(n)) == Atoi("+" + Decimal(n)) == (if n < 0x8000_0000_0000_0000 then Some(n) else None)
    ensures var m: int := n; Atoi("-" + Decimal(n)) == (if n <= 0x8000_0000_0000_0000 then Some(-m) else None)
  {
    DecimalReadsBack(n);
    var s := Decimal(n);
    assert Digit(s[0]) && ("+" + s)[1..] == s && ("-" + s)[1..] == s;
  }

  /** What is no decimal, after a sign or without one, is no number. */
  lemma AtoiRefuses(s: string, i: nat)
    requires i < |s| && !('0' <= s[i] <= '9') && (i > 0 || (s[0] != '+' && s[0] != '-') || |s| == 1)
    ensures Atoi(s) == None && Atoi("") == None
  {
    var signed := s[0] == '+' || s[0] == '-';
    if signed && |s| > 1 {
      assert s[1..][i - 1] == s[i];
    }
  }

  // ------------------------------------------------------------ one edit

  /** The tree with the value at the path replaced, and the value it replaced; None for every error. */
  datatype Applied = Applied(tree: Json, was: Json)

  function ApplyOne(t: Json, parts: seq<string>, val: Json): Option<Applied>
    requires parts != []
    decreases |parts|
  {
    match t
    case Obj(fields) =>
      var key := parts[0];
      if key == "" || key !in fields then None
      else if |parts| == 1 then Some(Applied(Obj(fields[key := val]), fields[key]))
      else
        var r := ApplyOne(fields[key], parts[1..], val);
        if r.None? then None else Some(Applied(Obj(fields[key := r.value.tree]), r.value.was))
    case Arr(items) =>
      var idx := Atoi(parts[0]);
      if idx.None? || !(0 <= idx.value < |items|) then None
      else if |parts| == 1 then Some(Applied(Arr(items[idx.value := val]), items[idx.value]))
      else
        var r := ApplyOne(items[idx.value], parts[1..], val);
        if r.None? then None else Some(Applied(Arr(items[idx.value := r.value.tree]), r.value.was))
    case _ => None
  }

  lemma EditsElement(items: seq<Json>, part: string, n: nat, val: Json)
    requires Atoi(part) == Some(n)
    ensures ApplyOne(Arr(items), [part], val)
            == if n < |items| then Some(Applied(Arr(items[..n] + [val] + items[n + 1..]), items[n])) else None
  {
    if n < |items| {
      assert items[n := val] == items[..n] + [val] + items[n + 1..];
    }
  }

  /** A key edits the field of that name if there is one; the empty key and any part at a scalar are errors. */
  lemma EditsThatField(fields: map<string, Json>, key: string, rest: seq<string>, val: Json)
    ensures key != "" && key in fields ==>
              ApplyOne(Obj(fields), [key], val) == Some(Applied(Obj(fields[key := val]), fields[key]))
    ensures key == "" || key !in fields ==> ApplyOne(Obj(fields), [key] + rest, val) == None
    ensures forall t: Json :: !t.Obj? && !t.Arr? ==> ApplyOne(t, [key] + rest, val) == None
  {
  }

  /** A part written in decimal edits the element of that number and no other. */
  lemma EditsThatElement(items: seq<Json>, part: string, n: nat, val: Json)
    requires n < 0x8000_0000_0000_0000 && part == Decimal(n)
    ensures ApplyOne(Arr(items), [part], val)
            == if n < |items| then Some(Applied(Arr(items[..n] + [val] + items[n + 1..]), items[n])) else None
  {
    AtoiDecimal(n);
    EditsElement(items, part, n, val);
  }

  // ------------------------------------------------ reference: places in a tree

  datatype Step = Key(key: string) | Index(index: nat)

  function Child(t: Json, s: Step): Option<Json> {
    match (t, s)
    case (Obj(fields), Key(k)) => if k in fields then Some(fields[k]) else None
    case (Arr(items), Index(i)) => if i < |items| then Some(items[i]) else None
    case _ => None
  }

  /** The value at a place. */
  function Get(t: Json, place: seq<Step>): Option<Json>
    decreases |place|
  {
    if place == [] then Some(t)
    else
      var c := Child(t, place[0]);
      if c.None? then None else Get(c.value, place[1..])
  }

  /** What one part of a path means at a node. */
  function StepOf(t: Json, part: string): Option<Step> {
    match t
    case Obj(fields) => if part == "" || part !in fields then None else Some(Key(part))
    case Arr(items) =>
      var idx := Atoi(part);
      if idx.None? || !(0 <= idx.value < |items|) then None else Some(Index(idx.value))
    case _ => None
  }

  /** The place a path names in a tree: "0", "00" and "-0" all name an array's first element. */
  function Resolve(t: Json, parts: seq<string>): Option<seq<Step>>
    decreases |parts|
  {
    if parts == [] then Some([])
    else
      var s := StepOf(t, parts[0]);
      if s.None? || Child(t, s.value).None? then None
      else
        var rest := Resolve(Child(t, s.value).value, parts[1..]);
        if rest.None? then None else Some([s.value] + rest.value)
  }

  /** A node with one child replaced. */
  function Put(t: Json, s: Step, val: Json): Json {
    match (t, s)
    case (Obj(fields), Key(k)) => Obj(fields[k := val])
    case (Arr(items), Index(i)) => if i < |items| then Arr(items[i := val]) else t
    case _ => t
  }

  /** The same keys, or the same length; for anything else, the same value. */
  predicate SameShape(a: Json, b: Json) {
    match (a, b)
    case (Obj(f), Obj(g)) => f.Keys == g.Keys
    case (Arr(x), Arr(y)) => |x| == |y|
    case _ => a == b
  }

  // --------------------------------------------------------------- one node

  /** An edit is a step to a child and an edit there. */
  lemma ApplySteps(t: Json, parts: seq<string>, val: Json)
    requires parts != []
    ensures var s := StepOf(t, parts[0]);
            ApplyOne(t, parts, val) ==
            if s.None? || Child(t, s.value).None? then None
            else if |parts| == 1 then Some(Applied(Put(t, s.value, val), Child(t, s.value).value))
            else
              var r := ApplyOne(Child(t, s.value).value, parts[1..], val);
              if r.None? then None else Some(Applied(Put(t, s.value, r.value.tree), r.value.was))
  {
  }

  lemma PutChild(t: Json, s: Step, val: Json, other: Step)
    requires Child(t, s).Some?
    ensures Child(Put(t, s, val), other) == if other == s then Some(val) else Child(t, other)
    ensures SameShape(t, Put(t, s, val))
  {
  }

  lemma PutSteps(t: Json, s: Step, val: Json, part: string)
    requires Child(t, s).Some?
    ensures StepOf(Put(t, s, val), part) == StepOf(t, part)
  {
  }

  lemma PutPut(t: Json, s: Step, a: Json, b: Json)
    requires Child(t, s).Some?
    ensures Put(Put(t, s, a), s, b) == Put(t, s, b)
    ensures Put(t, s, Child(t, s).value) == t
  {
    match t
    case Obj(fields) =>
      assert fields[s.key := a][s.key := b] == fields[s.key := b];
      assert fields[s.key := fields[s.key]] == fields;
    case Arr(items) =>
      assert items[s.index := a][s.index := b] == items[s.index := b];
      assert items[s.index := items[s.index]] == items;
    case _ =>
  }

  lemma StepHasChild(t: Json, part: string)
    ensures StepOf(t, part).Some? ==> Child(t, StepOf(t, part).value).Some?
  {
  }

  // ---------------------------------------------------------------- properties

  /** An edit succeeds exactly when its path names a place, replaces exactly the value there, and records it. */
  lemma {:induction false} AppliesWhereItNames(t: Json, parts: seq<string>, val: Json)
    requires parts != []
    ensures ApplyOne(t, parts, val).Some? <==> Resolve(t, parts).Some?
    ensures ApplyOne(t, parts, val).Some? ==>
              var u := ApplyOne(t, parts, val).value;
              var place := Resolve(t, parts).value;
              place != [] && Get(t, place) == Some(u.was) && Get(u.tree, place) == Some(val)
                  && Resolve(u.tree, parts) == Some(place)
    decreases |parts|
  {
    ApplySteps(t, parts, val);
    StepHasChild(t, parts[0]);
    var s := StepOf(t, parts[0]);
    if s.Some? {
      var c := Child(t, s.value).value;
      if |parts| == 1 {
        assert parts[1..] == [];
        assert Resolve(c, []) == Some([]) && Resolve(val, []) == Some([]);
        PutChild(t, s.value, val, s.value);
        PutSteps(t, s.value, val, parts[0]);
        var place := [s.value];
        assert place[1..] == [];
      } else {
        AppliesWhereItNames(c, parts[1..], val);
        var r := ApplyOne(c, parts[1..], val);
        if r.Some? {
          PutChild(t, s.value, r.value.tree, s.value);
          PutSteps(t, s.value, r.value.tree, parts[0]);
          var place := [s.value] + Resolve(c, parts[1..]).value;
          assert place[1..] == Resolve(c, parts[1..]).value;
        }
      }
    }
  }

  /** Neither place is inside the other. */
  predicate Elsewhere(a: seq<Step>, b: seq<Step>) { !(a <= b) && !(b <= a) }

  /** An edit changes nothing outside its place: other places keep their values, and those above it their shape. */
  lemma {:induction false} EditFrame(t: Json, parts: seq<string>, val: Json, other: seq<Step>)
    requires parts != [] && ApplyOne(t, parts, val).Some?
    ensures Resolve(t, parts).Some?
    ensures var u, place := ApplyOne(t, parts, val).value.tree, Resolve(t, parts).value;
            && (Elsewhere(place, other) ==> Get(u, other) == Get(t, other))
            && (other < place ==> Get(t, other).Some? && Get(u, other).Some?)
            && (other < place ==>
                  match (Get(t, other).value, Get(u, other).value)
                  case (Obj(f), Obj(g)) => f.Keys == g.Keys
                  case (Arr(x), Arr(y)) => |x| == |y|
                  case _ => false)
            && (place <= other ==> Get(u, other) == Get(val, other[|place|..]))
    decreases |parts|
  {
    AppliesWhereItNames(t, parts, val);
    ApplySteps(t, parts, val);
    var s := StepOf(t, parts[0]).value;
    var c := Child(t, s).value;
    var place := Resolve(t, parts).value;
    var below := if |parts| == 1 then val else ApplyOne(c, parts[1..], val).value.tree;
    if |parts| == 1 {
      assert parts[1..] == [];
      assert Resolve(c, []) == Some([]);
    }
    var rest := Resolve(c, parts[1..]).value;
    assert place == [s] + rest;
    if other == [] {
      PutChild(t, s, below, s);
    } else {
      PutChild(t, s, below, other[0]);
      assert other == [other[0]] + other[1..];
      if other[0] == s {
        if |parts| > 1 {
          EditFrame(c, parts[1..], val, other[1..]);
          assert rest <= other[1..] ==> other[1..][|rest|..] == other[|place|..];
        }
      }
    }
  }

  /** Paths that name the same place are the same edit, however they are written. */
  lemma {:induction false} SamePlaceSameEdit(t: Json, p: seq<string>, q: seq<string>, val: Json)
    requires p != [] && q != [] && Resolve(t, p) == Resolve(t, q)
    ensures ApplyOne(t, p, val) == ApplyOne(t, q, val)
    decreases |p|
  {
    AppliesWhereItNames(t, p, val);
    AppliesWhereItNames(t, q, val);
    ApplySteps(t, p, val);
    ApplySteps(t, q, val);
    if Resolve(t, p).Some? {
      var s, r := StepOf(t, p[0]).value, StepOf(t, q[0]).value;
      var c, d := Child(t, s).value, Child(t, r).value;
      var a, b := Resolve(c, p[1..]).value, Resolve(d, q[1..]).value;
      assert ([s] + a)[0] == s && ([r] + b)[0] == r && ([s] + a)[1..] == a && ([r] + b)[1..] == b;
      ResolveLength(t, p);
      ResolveLength(t, q);
      if |p| > 1 {
        SamePlaceSameEdit(c, p[1..], q[1..], val);
      }
    }
  }

  lemma {:induction false} ResolveLength(t: Json, parts: seq<string>)
    ensures Resolve(t, parts).Some? ==> |Resolve(t, parts).value| == |parts|
    decreases |parts|
  {
    if parts != [] && Resolve(t, parts).Some? {
      ResolveLength(Child(t, StepOf(t, parts[0]).value).value, parts[1..]);
    }
  }

  /**
   * A second edit of the same path wins entirely, and records the first one's value; with the
   * recorded value it undoes it.
   */
  lemma {:induction false} LaterEditWins(t: Json, parts: seq<string>, first: Json, second: Json)
    requires parts != [] && ApplyOne(t, parts, first).Some?
    ensures var u := ApplyOne(t, parts, first).value;
            && ApplyOne(t, parts, second).Some?
            && ApplyOne(u.tree, parts, second) == Some(Applied(ApplyOne(t, parts, second).value.tree, first))
            && ApplyOne(t, parts, u.was).Some? && ApplyOne(t, parts, u.was).value.tree == t
    decreases |parts|
  {
    AppliesWhereItNames(t, parts, first);
    AppliesWhereItNames(t, parts, ApplyOne(t, parts, first).value.was);
    AppliesWhereItNames(t, parts, second);
    ApplySteps(t, parts, first);
    ApplySteps(t, parts, second);
    var s := StepOf(t, parts[0]).value;
    var c := Child(t, s).value;
    var u := ApplyOne(t, parts, first).value;
    ApplySteps(t, parts, u.was);
    ApplySteps(u.tree, parts, second);
    if |parts| == 1 {
      PutSteps(t, s, first, parts[0]);
      PutChild(t, s, first, s);
      PutPut(t, s, first, second);
    } else {
      LaterEditWins(c, parts[1..], first, second);
      var below := ApplyOne(c, parts[1..], first).value;
      PutSteps(t, s, below.tree, parts[0]);
      PutChild(t, s, below.tree, s);
      PutPut(t, s, below.tree, ApplyOne(c, parts[1..], second).value.tree);
    }
  }

  /** Applying the recorded value at the same path restores the tree. */
  lemma UndoOne(t: Json, parts: seq<string>, val: Json)
    requires parts != [] && ApplyOne(t, parts, val).Some?
    ensures var u := ApplyOne(t, parts, val).value;
            ApplyOne(u.tree, parts, u.was) == Some(Applied(t, val))
  {
    var u := ApplyOne(t, parts, val).value;
    LaterEditWins(t, parts, val, u.was);
  }

  // ------------------------------------------------------------- edit lists

  /** One --set: the path split at its dots, the replacement (None when it is not JSON), and what it replaced. */
  datatype Edit = Edit(parts: seq<string>, val: Option<Json>, was: Option<Json>)

  /** The replacement decoded and applied; None for every error. */
  function ApplyEdit(t: Json, e: Edit): Option<Applied>
    requires e.parts != []
  {
    if e.val.None? then None else ApplyOne(t, e.parts, e.val.value)
  }

  predicate Pathed(edits: seq<Edit>) { forall e :: e in edits ==> e.parts != [] }

  /** All the edits in order, each recording what it replaced; None if any fails. */
  function ApplyAll(t: Json, edits: seq<Edit>): Option<(Json, seq<Edit>)>
    requires Pathed(edits)
    decreases |edits|
  {
    if edits == [] then Some((t, []))
    else
      var e := edits[0];
      assert e in edits;
      var r := ApplyEdit(t, e);
      if r.None? then None
      else
        var rest := ApplyAll(r.value.tree, edits[1..]);
        if rest.None? then None else Some((rest.value.0, [e.(was := Some(r.value.was))] + rest.value.1))
  }

  /** The recorded edits turned round: last first, each putting back what it replaced. */
  function Undo(edits: seq<Edit>): seq<Edit>
    decreases |edits|
  {
    if edits == [] then [] else Undo(edits[1..]) + [Edit(edits[0].parts, edits[0].was, None)]
  }

  lemma {:induction false} ApplyAllConcat(t: Json, a: seq<Edit>, b: seq<Edit>)
    requires Pathed(a) && Pathed(b)
    ensures Pathed(a + b)
    ensures ApplyAll(t, a).Some? && ApplyAll(ApplyAll(t, a).value.0, b).Some? ==>
              ApplyAll(t, a + b).Some? && ApplyAll(t, a + b).value.0 == ApplyAll(ApplyAll(t, a).value.0, b).value.0
    decreases |a|
  {
    if a == [] {
      assert a + b == b;
    } else {
      assert a[0] in a && (a + b)[1..] == a[1..] + b && (a + b)[0] == a[0];
      var r := ApplyEdit(t, a[0]);
      if r.Some? {
        ApplyAllConcat(r.value.tree, a[1..], b);
      }
    }
  }

  /** Applying the recorded values in reverse order to the result of an edit list restores the tree. */
  lemma {:induction false} UndoRestores(t: Json, edits: seq<Edit>)
    requires Pathed(edits) && ApplyAll(t, edits).Some?
    ensures var (u, done) := ApplyAll(t, edits).value;
            && Pathed(done) && Pathed(Undo(done))
            && ApplyAll(u, Undo(done)).Some? && ApplyAll(u, Undo(done)).value.0 == t
    decreases |edits|
  {
    if edits != [] {
      var e := edits[0];
      assert e in edits;
      var r := ApplyEdit(t, e).value;
      UndoRestores(r.tree, edits[1..]);
      var (u, rest) := ApplyAll(r.tree, edits[1..]).value;
      var first := e.(was := Some(r.was));
      var (v, done) := ApplyAll(t, edits).value;
      assert v == u && done == [first] + rest && done[1..] == rest;
      var back := Edit(e.parts, Some(r.was), None);
      assert Undo(done) == Undo(rest) + [back];
      UndoOne(t, e.parts, e.val.value);
      OneEdit(r.tree, back);
      ApplyAllConcat(u, Undo(rest), [back]);
    }
  }

  lemma OneEdit(t: Json, e: Edit)
    requires e.parts != []
    ensures Pathed([e]) && (ApplyAll(t, [e]).Some? <==> ApplyEdit(t, e).Some?)
    ensures ApplyAll(t, [e]).Some? ==> ApplyAll(t, [e]).value.0 == ApplyEdit(t, e).value.tree
  {
    assert [e][1..] == [];
  }

  /** JSON text: the first value of a body, and a value's text. */
  datatype Text = Text(decode: seq<char> -> Option<Json>, encode: Json -> seq<char>)

  /** The whole list's result is this tree's result with the edits done so far in front. */
  predicate MoreToDo(all: Option<(Json, seq<Edit>)>, rest: Option<(Json, seq<Edit>)>, done: seq<Edit>) {
    if rest.None? then all.None? else all.Some? && all.value.0 == rest.value.0 && all.value.1 == done + rest.value.1
  }

  lemma MoreStep(all: Option<(Json, seq<Edit>)>, tree: Json, rest: seq<Edit>, done: seq<Edit>)
    requires Pathed(rest) && rest != [] && MoreToDo(all, ApplyAll(tree, rest), done)
    ensures rest[0].parts != [] && Pathed(rest[1..])
    ensures var r := ApplyEdit(tree, rest[0]);
            if r.None? then all.None?
            else MoreToDo(all, ApplyAll(r.value.tree, rest[1..]), done + [rest[0].(was := Some(r.value.was))])
  {
    assert rest[0] in rest;
  }
}
