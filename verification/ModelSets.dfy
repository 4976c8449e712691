/**
 * sessions.model_set: distinct model names joined by commas in one text column,
 * searched with instr(',' || set || ',', ',' || name || ',')
 * (internal/store/store.go, UpsertSession and reconcileSession).
 */
module ModelSets {
  import opened Texts

  /** The names a model_set column stands for. */
  function Models(s: string): set<string> {
    if s == "" then {} else set f | f in Fields(s, ',')
  }

  predicate Plain(name: string) { ',' !in name }

  predicate FoundAt(text: string, part: string, i: nat) {
    i + |part| <= |text| && text[i..i + |part|] == part
  }

  /** SQL instr(text, part) > 0. */
  predicate Contains(text: string, part: string) {
    exists i | 0 <= i <= |text| :: FoundAt(text, part, i)
  }

  /** The CASE of the upsert. */
  function AddModel(models: string, name: string): string {
    if name == "" then models
    else if Contains("," + models + ",", "," + name + ",") then models
    else if models == "" then name
    else models + [','] + name
  }

  /** A joined list of names stands for exactly those names. */
  lemma ModelsOfJoin(names: seq<string>)
    requires forall n :: n in names ==> Plain(n) && n != ""
    ensures Models(Join(names, ',')) == set n | n in names
  {
    if names != [] {
      assert names[0] in names && forall n :: n in names ==> Plain(n);
      JoinOfSome(names, ',');
      FieldsOfJoin(names, ',');
    }
  }

  lemma FirstOfTwo(m: string, rest: string)
    requires Plain(m)
    ensures m in Fields(m + [','] + rest, ',')
  {
    FieldOfPlain(m, ',');
    FieldsOfTwo(m, rest, ',');
  }

  lemma OfSecond(a: string, rest: string, m: string)
    requires m in Fields(rest, ',')
    ensures m in Fields(a + [','] + rest, ',')
  {
    FieldsOfTwo(a, rest, ',');
  }

  /** A name followed by nothing or a comma is the first field. */
  lemma LeadingIsField(s: string, m: string)
    requires Plain(m) && |m| <= |s| && s[..|m|] == m && (|s| > |m| ==> s[|m|] == ',')
    ensures m in Fields(s, ',')
  {
    if |s| > |m| {
      var rest := s[|m| + 1..];
      CutAtComma(s, |m| + 1, m, rest);
      FirstOfTwo(m, rest);
    } else {
      assert s == m;
      FieldOfPlain(m, ',');
    }
  }

  /** A name between commas or ends is a field. */
  lemma FoundIsField(s: string, m: string, i: nat)
    requires Plain(m) && i + |m| <= |s| && s[i..i + |m|] == m
    requires (i > 0 ==> s[i - 1] == ',') && (i + |m| < |s| ==> s[i + |m|] == ',')
    ensures m in Fields(s, ',')
  {
    var rest := s[i..];
    RestLeads(s, m, i, rest);
    LeadingIsField(rest, m);
    if i > 0 {
      var a := s[..i - 1];
      CutAtComma(s, i, a, rest);
      OfSecond(a, rest, m);
    } else {
      assert s == rest;
    }
  }

  lemma RestLeads(s: string, m: string, i: nat, rest: string)
    requires i + |m| <= |s| && s[i..i + |m|] == m && (i + |m| < |s| ==> s[i + |m|] == ',') && rest == s[i..]
    ensures |m| <= |rest| && rest[..|m|] == m && (|rest| > |m| ==> rest[|m|] == ',')
  {
  }

  lemma CutAtComma(s: string, i: nat, a: string, rest: string)
    requires 0 < i <= |s| && s[i - 1] == ',' && a == s[..i - 1] && rest == s[i..]
    ensures s == a + [','] + rest
  {
  }

  /** A field is found: the place where it stands. */
  lemma {:induction false} FieldIsFound(s: string, m: string) returns (i: nat)
    requires m in Fields(s, ',')
    ensures i <= |s| - |m| && s[i..i + |m|] == m
    ensures (i == 0 || s[i - 1] == ',') && (i + |m| == |s| || s[i + |m|] == ',')
  {
    if s == "" {
      i := 0;
    } else if s[0] == ',' {
      if m == "" {
        i := 0;
      } else {
        i := FieldIsFound(s[1..], m);
        OneLater(s, s[1..], m, i);
        i := i + 1;
      }
    } else {
      var r := Fields(s[1..], ',');
      if m == [s[0]] + r[0] {
        i := FirstField(s[1..]);
        FirstLater(s, s[1..], r[0], i);
        i := 0;
      } else {
        assert m in r[1..];
        i := LaterField(s[1..], m);
        OneLater(s, s[1..], m, i);
        i := i + 1;
      }
    }
  }

  lemma {:induction false} FirstField(s: string) returns (n: nat)
    ensures n == |Fields(s, ',')[0]| <= |s| && s[..n] == Fields(s, ',')[0] && (n == |s| || s[n] == ',')
  {
    if s == "" || s[0] == ',' {
      n := 0;
    } else {
      n := FirstField(s[1..]);
      n := n + 1;
    }
  }

  lemma {:induction false} LaterField(s: string, m: string) returns (i: nat)
    requires m in Fields(s, ',')[1..]
    ensures 0 < i <= |s| - |m| && s[i..i + |m|] == m && s[i - 1] == ',' && (i + |m| == |s| || s[i + |m|] == ',')
  {
    var t := s[1..];
    if s[0] == ',' {
      assert Fields(s, ',')[1..] == Fields(t, ',');
      i := FieldIsFound(t, m);
    } else {
      assert Fields(s, ',')[1..] == Fields(t, ',')[1..];
      i := LaterField(t, m);
    }
    OneLater(s, t, m, i);
    i := i + 1;
  }

  lemma FirstLater(s: string, t: string, f: string, n: nat)
    requires s != "" && t == s[1..] && n == |f| <= |t| && t[..n] == f
    ensures s[0..n + 1] == [s[0]] + f
  {
  }

  lemma OneLater(s: string, t: string, m: string, i: nat)
    requires s != "" && t == s[1..] && i + |m| <= |t| && t[i..i + |m|] == m
    ensures s[i + 1..i + 1 + |m|] == m
  {
  }

  /** A place in the text with commas around it, and the same place in the text. */
  lemma Framed(s: string, m: string, i: nat)
    requires i + |m| <= |s|
    ensures FoundAt("," + s + ",", "," + m + ",", i) <==>
            s[i..i + |m|] == m && (i > 0 ==> s[i - 1] == ',') && (i + |m| < |s| ==> s[i + |m|] == ',')
  {
    var t, p := "," + s + ",", "," + m + ",";
    var w := t[i..i + |p|];
    assert w[0] == (if i == 0 then ',' else s[i - 1]);
    assert w[|m| + 1] == (if i + |m| == |s| then ',' else s[i + |m|]);
    var x, y := w[1..|m| + 1], s[i..i + |m|];
    forall k | 0 <= k < |x|
      ensures x[k] == y[k]
    {
      assert w[k + 1] == t[i + k + 1] == s[i + k];
    }
    assert x == y;
    assert w == [w[0]] + w[1..|m| + 1] + [w[|m| + 1]];
    assert p[1..|m| + 1] == m;
  }

  /** The instr test is membership. */
  lemma ContainsIsMember(s: string, m: string)
    requires Plain(m) && m != ""
    ensures Contains("," + s + ",", "," + m + ",") <==> m in Models(s)
  {
    var t, p := "," + s + ",", "," + m + ",";
    if Contains(t, p) {
      var i :| 0 <= i <= |t| && FoundAt(t, p, i);
      Framed(s, m, i);
      FoundIsField(s, m, i);
    }
    if m in Models(s) {
      var i := FieldIsFound(s, m);
      Framed(s, m, i);
    }
  }

  /** The upsert adds the name to the set, and nothing else; an empty name adds nothing. */
  lemma AddModelAdds(models: string, name: string)
    requires Plain(name)
    ensures Models(AddModel(models, name)) == Models(models) + (if name == "" then {} else {name})
  {
    if name != "" {
      ContainsIsMember(models, name);
      FieldOfPlain(name, ',');
      if name !in Models(models) && models != "" {
        FieldsOfTwo(models, name, ',');
      }
    }
  }

  /** No field has a separator in it. */
  lemma {:induction false} FieldsArePlain(s: string, f: string)
    requires f in Fields(s, ',')
    ensures Plain(f)
  {
    if s != "" {
      var rest := Fields(s[1..], ',');
      if s[0] != ',' && f == [s[0]] + rest[0] {
        FieldsArePlain(s[1..], rest[0]);
      } else if f != "" {
        assert f in rest;
        FieldsArePlain(s[1..], f);
      }
    }
  }

  /** The upsert adds a name to the set if and only if the name has no comma. */
  lemma AddModelAddsExactly(models: string, name: string)
    requires name != ""
    ensures Models(AddModel(models, name)) == Models(models) + {name} <==> Plain(name)
  {
    if Plain(name) {
      AddModelAdds(models, name);
    } else if name in Models(AddModel(models, name)) {
      FieldsArePlain(AddModel(models, name), name);
    }
  }

  /** With a comma in a name the column no longer stands for the set of names: one name counts as two. */
  lemma CommaBreaksTheSet()
    ensures Models(AddModel("", "a,b")) == {"a", "b"}
  {
    FieldsOfTwo("a", "b", ',');
    assert "a" + [','] + "b" == "a,b";
    FieldOfPlain("a", ',');
    FieldOfPlain("b", ',');
    assert !Contains(",,", ",a,b,");
  }
}
