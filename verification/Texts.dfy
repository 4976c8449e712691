/** Text cut at a separator, trimmed, and put in order: what the stores' text columns and files need. */
module Texts {
  // ------------------------------------------------------------------ fields

  /** The fields of a text with one more character in front. */
  function Grow(c: char, sep: char, fields: seq<string>): (r: seq<string>)
    requires fields != []
    ensures r != []
  {
    if c == sep then [""] + fields else [[c] + fields[0]] + fields[1..]
  }

  /** The fields between separators; the empty text is one empty field. */
  function Fields(s: string, sep: char): (r: seq<string>)
    ensures r != []
  {
    if s == "" then [""] else Grow(s[0], sep, Fields(s[1..], sep))
  }

  lemma GrowFront(c: char, sep: char, a: seq<string>, b: seq<string>)
    requires a != []
    ensures Grow(c, sep, a + b) == Grow(c, sep, a) + b
  {
    assert (a + b)[1..] == a[1..] + b;
  }

  lemma {:induction false} FieldsOfTwo(a: string, b: string, sep: char)
    ensures Fields(a + [sep] + b, sep) == Fields(a, sep) + Fields(b, sep)
  {
    var s := a + [sep] + b;
    if a == "" {
      assert s[1..] == b;
    } else {
      assert s[1..] == a[1..] + [sep] + b;
      FieldsOfTwo(a[1..], b, sep);
      GrowFront(a[0], sep, Fields(a[1..], sep), Fields(b, sep));
    }
  }

  lemma {:induction false} FieldOfPlain(m: string, sep: char)
    requires sep !in m
    ensures Fields(m, sep) == [m]
  {
    if m != "" {
      FieldOfPlain(m[1..], sep);
      assert [m[0]] + m[1..] == m;
    }
  }

  /** Texts with a separator between them. */
  function Join(names: seq<string>, sep: char): string {
    if names == [] then "" else if |names| == 1 then names[0] else names[0] + [sep] + Join(names[1..], sep)
  }

  lemma {:induction false} FieldsOfJoin(names: seq<string>, sep: char)
    requires names != [] && forall n :: n in names ==> sep !in n
    ensures Fields(Join(names, sep), sep) == names
  {
    assert names[0] in names;
    FieldOfPlain(names[0], sep);
    if |names| == 1 {
      assert names == [names[0]];
    } else {
      FieldsOfJoin(names[1..], sep);
      FieldsOfTwo(names[0], Join(names[1..], sep), sep);
      assert names == [names[0]] + names[1..];
    }
  }

  lemma JoinOfSome(names: seq<string>, sep: char)
    requires names != [] && names[0] != ""
    ensures Join(names, sep) != "" && Join(names, sep)[0] == names[0][0]
  {
  }

  // ------------------------------------------------------------------- order

  /** Go's order of strings. */
  predicate Before(a: string, b: string) {
    b != "" && (a == "" || a[0] < b[0] || (a[0] == b[0] && Before(a[1..], b[1..])))
  }

  predicate Ascending(names: seq<string>) {
    forall i, j :: 0 <= i < j < |names| ==> Before(names[i], names[j])
  }

  /** A name put in its place in an ascending list; one already there is not repeated. */
  function Place(name: string, names: seq<string>): seq<string> {
    if names == [] then [name]
    else if names[0] == name then names
    else if Before(name, names[0]) then [name] + names
    else [names[0]] + Place(name, names[1..])
  }

  lemma {:induction false} BeforeTrans(a: string, b: string, c: string)
    requires Before(a, b) && Before(b, c)
    ensures Before(a, c)
  {
    if a != "" && a[0] == b[0] && b[0] == c[0] {
      BeforeTrans(a[1..], b[1..], c[1..]);
    }
  }

  lemma {:induction false} BeforeTotal(a: string, b: string)
    ensures a == b || Before(a, b) || Before(b, a)
    ensures !Before(a, a)
  {
    if a != "" {
      BeforeTotal(a[1..], if b == "" then "" else b[1..]);
      if b != "" && a[0] == b[0] && a[1..] == b[1..] {
        assert a == [a[0]] + a[1..] && b == [b[0]] + b[1..];
      }
    }
  }

  /** Placing adds the name and nothing else, and keeps the list ascending. */
  lemma {:induction false} PlaceAdds(name: string, names: seq<string>)
    ensures forall n :: n in Place(name, names) <==> n == name || n in names
    ensures Ascending(names) ==> Ascending(Place(name, names))
  {
    if names != [] && names[0] != name {
      assert names == [names[0]] + names[1..];
      if Before(name, names[0]) {
        if Ascending(names) {
          PlaceFirst(name, names);
        }
      } else {
        PlaceAdds(name, names[1..]);
        BeforeTotal(name, names[0]);
        if Ascending(names) {
          PlaceLater(names[0], names[1..], Place(name, names[1..]), name);
        }
      }
    }
  }

  lemma PlaceFirst(name: string, names: seq<string>)
    requires names != [] && Ascending(names) && Before(name, names[0])
    ensures Ascending([name] + names)
  {
    forall j | 0 <= j < |names|
      ensures Before(name, names[j])
    {
      if j > 0 {
        BeforeTrans(name, names[0], names[j]);
      }
    }
  }

  lemma PlaceLater(head: string, tail: seq<string>, placed: seq<string>, name: string)
    requires Ascending([head] + tail) && Ascending(placed) && Before(head, name)
    requires forall n :: n in placed <==> n == name || n in tail
    ensures Ascending([head] + placed)
  {
    forall j | 0 <= j < |placed|
      ensures Before(head, placed[j])
    {
      assert placed[j] in placed && (placed[j] == name || placed[j] in tail);
      if placed[j] != name {
        var i :| 0 <= i < |tail| && tail[i] == placed[j];
        var all := [head] + tail;
        assert all[0] == head && all[i + 1] == tail[i];
        assert Before(all[0], all[i + 1]);
      }
    }
  }

  // ---------------------------------------------------------------- trimming

  /** unicode.IsSpace. */
  predicate Space(c: char) {
    || c == ' ' || '\t' <= c <= '\r' || c == '\U{85}' || c == '\U{A0}' || c == '\U{1680}'
        || '\U{2000}' <= c <= '\U{200A}'
    || c == '\U{2028}' || c == '\U{2029}' || c == '\U{202F}' || c == '\U{205F}' || c == '\U{3000}'
  }

  /** The space characters by their codes. */
  lemma SpaceCodes(c: char)
    ensures Space(c) <==>
              var n := c as int;
              || 0x9 <= n < 0xE || n in {0x20, 0x85, 0xA0, 0x1680, 0x2028, 0x2029, 0x202F, 0x205F, 0x3000}
              || 0x2000 <= n < 0x200B
  {
  }

  function TrimLeft(s: string): string {
    if s != "" && Space(s[0]) then TrimLeft(s[1..]) else s
  }

  function TrimRight(s: string): string {
    if s != "" && Space(s[|s| - 1]) then TrimRight(s[..|s| - 1]) else s
  }

  /** strings.TrimSpace. */
  function Trim(s: string): string { TrimRight(TrimLeft(s)) }

  predicate Tight(s: string) { s != "" && !Space(s[0]) && !Space(s[|s| - 1]) }

  lemma TrimTight(s: string)
    requires Tight(s)
    ensures Trim(s) == s && Trim(" " + s) == s && Trim(s + " ") == s
  {
    assert (" " + s)[1..] == s;
    assert TrimLeft(" " + s) == TrimLeft(s) == s;
    var r := s + " ";
    assert r[..|r| - 1] == s && TrimLeft(r) == r;
    assert TrimRight(r) == TrimRight(s) == s;
  }
}
