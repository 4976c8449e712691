/**
 * Replay edits on the decoded tree as the source holds it: maps and slices that
 * point at their children, walked with a cursor and changed in place
 * (internal/replay/edit.go, ApplyEdits, applyOne, replace).
 */
module EditsInPlace {
  import opened Options
  import opened Edits

  type Ref = nat

  /** One decoded value: a scalar, or a container of references. */
  datatype Cell = Leaf(value: Json) | Fields(fields: map<string, Ref>) | Items(items: seq<Ref>)

  type Heap = map<Ref, Cell>

  function CellRef(cell: Cell, s: Step): Option<Ref> {
    match (cell, s)
    case (Fields(fields), Key(k)) => if k in fields then Some(fields[k]) else None
    case (Items(items), Index(i)) => if i < |items| then Some(items[i]) else None
    case _ => None
  }

  function ChildRef(h: Heap, r: Ref, s: Step): Option<Ref> { if r in h then CellRef(h[r], s) else None }

  /** The cell at r, with all that hangs from it, holds the value t. */
  ghost predicate Holds(h: Heap, r: Ref, t: Json)
    decreases t
  {
    r in h && match t
      case Obj(fields) => h[r].Fields? && h[r].fields.Keys == fields.Keys
        && forall k :: k in fields ==> Holds(h, h[r].fields[k], fields[k])
      case Arr(items) => h[r].Items? && |h[r].items| == |items|
        && forall i :: 0 <= i < |items| ==> Holds(h, h[r].items[i], items[i])
      case _ => h[r] == Leaf(t)
  }

  /** Where each cell hangs: its parent, the step to it, and its depth. */
  datatype Place = Place(parent: Ref, step: Step, depth: nat)

  /** Every child hangs where it is found, one level down: no cell is reached twice. */
  ghost predicate LinkedAt(h: Heap, at: map<Ref, Place>, r: Ref, s: Step) {
    r in h && r in at && ChildRef(h, r, s).Some? ==>
      var c := ChildRef(h, r, s).value;
      c in h && c in at && at[c] == Place(r, s, at[r].depth + 1)
  }

  ghost predicate Linked(h: Heap, at: map<Ref, Place>, next: Ref) {
    && (forall r :: r in h ==> r in at && r < next)
    && forall r, s :: LinkedAt(h, at, r, s)
  }

  /** h2 has the cells of h unchanged, and perhaps more. */
  ghost predicate Grows(h: Heap, at: map<Ref, Place>, h2: Heap, at2: map<Ref, Place>) {
    && (forall r :: r in h ==> r in h2 && h2[r] == h[r])
    && (forall r :: r in at ==> r in at2 && at2[r] == at[r])
  }

  lemma HoldsGrows(h: Heap, at: map<Ref, Place>, h2: Heap, at2: map<Ref, Place>, r: Ref, t: Json)
    requires Holds(h, r, t) && Grows(h, at, h2, at2)
    ensures Holds(h2, r, t)
    decreases t
  {
    match t
    case Obj(fields) =>
      forall k | k in fields
        ensures Holds(h2, h2[r].fields[k], fields[k])
      {
        HoldsGrows(h, at, h2, at2, h[r].fields[k], fields[k]);
      }
    case Arr(items) =>
      forall i | 0 <= i < |items|
        ensures Holds(h2, h2[r].items[i], items[i])
      {
        HoldsGrows(h, at, h2, at2, h[r].items[i], items[i]);
      }
    case _ =>
  }

  lemma GrowsOn(h: Heap, at: map<Ref, Place>, h2: Heap, at2: map<Ref, Place>, h3: Heap, at3: map<Ref, Place>)
    requires Grows(h, at, h2, at2) && Grows(h2, at2, h3, at3)
    ensures Grows(h, at, h3, at3)
  {
  }

  /** A place set aside for a cell that is not there yet. */
  lemma PlaceSetAside(h: Heap, at: map<Ref, Place>, next: Ref, r: Ref, place: Place)
    requires Linked(h, at, next) && r !in h && r !in at
    ensures Linked(h, at[r := place], next + 1) && Grows(h, at, h, at[r := place])
  {
    var at2 := at[r := place];
    forall q, s
      ensures LinkedAt(h, at2, q, s)
    {
      assert LinkedAt(h, at, q, s);
    }
  }

  /** The child a cell would have at a step hangs below its place. */
  ghost predicate ChildAt(h: Heap, at: map<Ref, Place>, r: Ref, cell: Cell, s: Step) {
    r in at && CellRef(cell, s).Some? ==>
      var c := CellRef(cell, s).value;
      c in h && c in at && at[c] == Place(r, s, at[r].depth + 1)
  }

  ghost predicate Children(h: Heap, at: map<Ref, Place>, r: Ref, cell: Cell) {
    r in at && forall s :: ChildAt(h, at, r, cell, s)
  }

  lemma CellAdded(h: Heap, at: map<Ref, Place>, next: Ref, r: Ref, cell: Cell)
    requires Linked(h, at, next) && r !in h && r < next && Children(h, at, r, cell)
    ensures Linked(h[r := cell], at, next) && Grows(h, at, h[r := cell], at)
  {
    var h2 := h[r := cell];
    forall q, s
      ensures LinkedAt(h2, at, q, s)
    {
      assert LinkedAt(h, at, q, s);
      assert ChildAt(h, at, r, cell, s);
    }
  }

  /** The new cells lie at or above old next. */
  ghost predicate Above(h: Heap, h2: Heap, from: Ref) { forall q :: q in h2 ==> q in h || from <= q }

  class Document {
    var cells: Heap
    var root: Ref
    var next: Ref
    ghost var at: map<Ref, Place>

    /** The value the tree holds. */
    ghost var tree: Json

    ghost predicate Wired()
      reads this
    {
      Linked(cells, at, next) && forall q :: q in at ==> q < next
    }

    ghost predicate Valid()
      reads this
    {
      Wired() && Holds(cells, root, tree)
    }

    /** The decoded body. */
    constructor (t: Json)
      ensures Valid() && tree == t
    {
      cells, next, root, at, tree := map[], 0, 0, map[], t;
      new;
      root := Build(t, Place(0, Index(0), 0));
    }

    /** The decoder's allocation of a value below a given place. */
    method Build(t: Json, ghost place: Place) returns (r: Ref)
      requires Wired()
      modifies this`cells, this`next, this`at
      ensures Wired() && Grows(old(cells), old(at), cells, at) && Above(old(cells), cells, old(next))
      ensures old(next) <= r < next && Holds(cells, r, t) && r in at && at[r] == place
      decreases t, 1
    {
      r := next;
      PlaceSetAside(cells, at, next, r, place);
      next, at := next + 1, at[r := place];
      ghost var h, a := cells, at;
      var cell;
      match t {
        case Obj(fields) => cell := BuildFields(t, r);
        case Arr(items) => cell := BuildItems(t, r);
        case _ => cell := Leaf(t);
      }
      CellAdded(cells, at, next, r, cell);
      GrowsOn(h, a, cells, at, cells[r := cell], at);
      HoldsCell(cells, at, r, cell, t);
      cells := cells[r := cell];
    }

    /** An object's members, each allocated below r. */
    method BuildFields(t: Json, r: Ref) returns (cell: Cell)
      requires t.Obj? && Wired() && r in at && r !in cells
      modifies this`cells, this`next, this`at
      ensures Wired() && Grows(old(cells), old(at), cells, at) && Above(old(cells), cells, old(next))
              && old(next) <= next
      ensures r !in cells && Children(cells, at, r, cell) && Fits(cells, cell, t)
      decreases t, 0
    {
      var fields := t.fields;
      var refs: map<string, Ref> := map[];
      var todo := fields.Keys;
      while todo != {}
        invariant Wired() && Grows(old(cells), old(at), cells, at) && Above(old(cells), cells, old(next))
                  && old(next) <= next
        invariant r in at && r !in cells && at[r] == old(at[r])
        invariant refs.Keys == fields.Keys - todo && todo <= fields.Keys
        invariant forall k :: k in refs ==> Member(cells, at, r, Key(k), refs[k], fields[k])
        decreases todo
      {
        var k :| k in todo;
        todo := todo - {k};
        ghost var h, a := cells, at;
        var c := Build(fields[k], Place(r, Key(k), at[r].depth + 1));
        forall j | j in refs
          ensures Member(cells, at, r, Key(j), refs[j], fields[j])
        {
          MemberGrows(h, a, cells, at, r, Key(j), refs[j], fields[j]);
        }
        refs := refs[k := c];
      }
      cell := Fields(refs);
      forall s
        ensures ChildAt(cells, at, r, cell, s)
      {
        assert s.Key? && s.key in refs ==> Member(cells, at, r, s, refs[s.key], fields[s.key]);
      }
    }

    /** An array's elements in order, each allocated below r. */
    method BuildItems(t: Json, r: Ref) returns (cell: Cell)
      requires t.Arr? && Wired() && r in at && r !in cells
      modifies this`cells, this`next, this`at
      ensures Wired() && Grows(old(cells), old(at), cells, at) && Above(old(cells), cells, old(next))
              && old(next) <= next
      ensures r !in cells && Children(cells, at, r, cell) && Fits(cells, cell, t)
      decreases t, 0
    {
      var items := t.items;
      var refs: seq<Ref> := [];
      while |refs| < |items|
        invariant Wired() && Grows(old(cells), old(at), cells, at) && Above(old(cells), cells, old(next))
                  && old(next) <= next
        invariant r in at && r !in cells && at[r] == old(at[r])
        invariant |refs| <= |items| && forall i :: 0 <= i < |refs| ==> Member(cells, at, r, Index(i), refs[i], items[i])
      {
        var i := |refs|;
        ghost var h, a := cells, at;
        var c := Build(items[i], Place(r, Index(i), at[r].depth + 1));
        forall j | 0 <= j < i
          ensures Member(cells, at, r, Index(j), refs[j], items[j])
        {
          MemberGrows(h, a, cells, at, r, Index(j), refs[j], items[j]);
        }
        refs := refs + [c];
      }
      cell := Items(refs);
      forall s
        ensures ChildAt(cells, at, r, cell, s)
      {
        assert s.Index? && s.index < |refs| ==> Member(cells, at, r, s, refs[s.index], items[s.index]);
      }
    }

    /** json.Marshal of the value at r. */
    method Encode(r: Ref, ghost t: Json) returns (j: Json)
      requires Holds(cells, r, t)
      ensures j == t
      decreases t
    {
      match cells[r]
      case Leaf(value) =>
        j := value;
      case Fields(refs) =>
        var fields: map<string, Json> := map[];
        var todo := refs.Keys;
        while todo != {}
          invariant todo <= refs.Keys && fields.Keys == refs.Keys - todo
          invariant forall k :: k in fields ==> fields[k] == t.fields[k]
          decreases todo
        {
          var k :| k in todo;
          todo := todo - {k};
          var member := Encode(refs[k], t.fields[k]);
          fields := fields[k := member];
        }
        assert fields == t.fields;
        j := Obj(fields);
      case Items(refs) =>
        var items: seq<Json> := [];
        while |items| < |refs|
          invariant |items| <= |refs| && items == t.items[..|items|]
        {
          var item := Encode(refs[|items|], t.items[|items|]);
          items := items + [item];
        }
        j := Arr(items);
    }

    /** replace: the new value decoded below the parent, the old one encoded, and the parent's reference changed. */
    method Replace(parent: Ref, s: Step, c: Ref, val: Json, ghost place: seq<Step>, ghost u: Json) returns (was: Json)
      requires Valid() && Leads(cells, root, place, parent) && Get(tree, place) == Some(u) && Holds(cells, parent, u)
      requires parent in cells && ChildRef(cells, parent, s) == Some(c) && Child(u, s).Some?
      modifies this
      ensures Valid() && was == Child(u, s).value && tree == Plug(old(tree), place, Put(u, s, val))
    {
      HoldsChild(cells, parent, u, s);
      was := Encode(c, Child(u, s).value);
      ghost var h, a := cells, at;
      LeadsUp(cells, at, next, root, place, parent);
      var kid := Build(val, Place(parent, s, at[parent].depth + 1));
      var cell := match (cells[parent], s)
        case (Fields(fields), Key(k)) => Fields(fields[k := kid])
        case (Items(items), Index(i)) => if i < |items| then Items(items[i := kid]) else Items(items)
        case (other, _) => other;
      Replaced(h, a, cells, at, next, root, tree, place, parent, s, cell, kid, u, val);
      cells := cells[parent := cell];
      tree := Plug(tree, place, Put(u, s, val));
    }

    /**
     * applyOne: a cursor walks from the root through what already exists and the
     * last part's child is replaced; an error anywhere leaves the tree as it was.
     */
    method ApplyOne(parts: seq<string>, val: Option<Json>) returns (was: Option<Json>)
      requires Valid() && parts != []
      modifies this
      ensures Valid()
      ensures var r := if val.None? then None else Edits.ApplyOne(old(tree), parts, val.value);
              if r.None? then was.None? && tree == old(tree) else was == Some(r.value.was) && tree == r.value.tree
    {
      var cur := root;
      ghost var u, place := tree, [];
      var i := 0;
      assert parts[0..] == parts;
      while true
        invariant 0 <= i < |parts| && tree == old(tree) && Valid()
        invariant Leads(cells, root, place, cur) && Get(tree, place) == Some(u) && cur in cells && Holds(cells, cur, u)
        invariant val.Some? ==>
            Edits.ApplyOne(tree, parts, val.value) == Lifted(tree, place, Edits.ApplyOne(u, parts[i..], val.value))
        decreases |parts| - i
      {
        var part, last := parts[i], i == |parts| - 1;
        assert parts[i..][0] == part && parts[i..][1..] == parts[i + 1..];
        var s := StepAt(cells[cur], part);
        SameStep(cells, cur, u, part);
        if val.Some? {
          ApplySteps(u, parts[i..], val.value);
        }
        if s.None? {
          return None;
        }
        var child := CellRef(cells[cur], s.value).value;
        if last {
          if val.None? {
            return None;
          }
          assert |parts[i..]| == 1;
          var replaced := Replace(cur, s.value, child, val.value, place, u);
          return Some(replaced);
        }
        HoldsChild(cells, cur, u, s.value);
        LeadsMore(cells, root, place, cur, s.value);
        if val.Some? {
          LiftMore(tree, place, s.value, u, Edits.ApplyOne(Child(u, s.value).value, parts[i + 1..], val.value));
        }
        PlugMore(tree, place, s.value, u, Null);
        u, place, cur, i := Child(u, s.value).value, place + [s.value], child, i + 1;
      }
    }
  }

  /**
   * Edits recorded in place as they apply. No edits leave the body as it is; any
   * failure yields no body at all; otherwise the body is the edited tree's text.
   */
  method ApplyEdits(text: Text, body: seq<char>, edits: array<Edit>) returns (out: Option<seq<char>>)
    requires Pathed(edits[..])
    modifies edits
    ensures old(edits[..]) == [] ==> out == Some(body)
    ensures old(edits[..]) != [] ==>
              var root := text.decode(body);
              var r := if root.None? then None else ApplyAll(root.value, old(edits[..]));
              && (out.Some? <==> r.Some?)
              && (r.Some? ==> out == Some(text.encode(r.value.0)) && edits[..] == r.value.1)
  {
    if edits.Length == 0 {
      return Some(body);
    }
    var root := text.decode(body);
    if root.None? {
      return None;
    }
    var doc := new Document(root.value);
    ghost var todo := edits[..];
    ghost var all := ApplyAll(root.value, todo);
    var i := 0;
    assert todo[0..] == todo;
    while i < edits.Length
      invariant 0 <= i <= edits.Length && edits[i..] == todo[i..] && Pathed(todo[i..])
      invariant doc.Valid() && fresh(doc) && MoreToDo(all, ApplyAll(doc.tree, todo[i..]), edits[..i])
    {
      ghost var rest := todo[i..];
      assert edits[i] == edits[i..][0] == rest[0] && rest[1..] == todo[i + 1..];
      MoreStep(all, doc.tree, rest, edits[..i]);
      var was := doc.ApplyOne(edits[i].parts, edits[i].val);
      if was.None? {
        return None;
      }
      ghost var done := edits[..i];
      edits[i] := edits[i].(was := was);
      assert edits[..i + 1] == done + [edits[i]];
      i := i + 1;
    }
    var tree := doc.Encode(doc.root, doc.tree);
    out := Some(text.encode(tree));
  }

  // ------------------------------------------------------- walking and updating

  /** What one part means at a cell. */
  function StepAt(cell: Cell, part: string): (s: Option<Step>)
    ensures s.Some? ==> CellRef(cell, s.value).Some?
  {
    match cell
    case Fields(fields) => if part == "" || part !in fields then None else Some(Key(part))
    case Items(items) =>
      var idx := Atoi(part);
      if idx.None? || idx.value < 0 || idx.value >= |items| then None else Some(Index(idx.value))
    case Leaf(_) => None
  }

  lemma SameStep(h: Heap, r: Ref, t: Json, part: string)
    requires Holds(h, r, t)
    ensures StepAt(h[r], part) == StepOf(t, part)
    ensures StepOf(t, part).Some? ==> Child(t, StepOf(t, part).value).Some?
  {
  }

  /** The result of an edit inside a place, seen from the root. */
  function Lifted(t: Json, place: seq<Step>, r: Option<Applied>): Option<Applied>
    requires Get(t, place).Some?
  {
    if r.None? then None else Some(Applied(Plug(t, place, r.value.tree), r.value.was))
  }

  lemma LiftMore(t: Json, place: seq<Step>, s: Step, u: Json, r: Option<Applied>)
    requires Get(t, place) == Some(u) && Child(u, s).Some?
    ensures Get(t, place + [s]).Some?
    ensures Lifted(t, place + [s], r)
            == Lifted(t, place, if r.None? then None else Some(Applied(Put(u, s, r.value.tree), r.value.was)))
  {
    PlugMore(t, place, s, u, if r.None? then Null else r.value.tree);
  }

  lemma HoldsChild(h: Heap, r: Ref, t: Json, s: Step)
    requires Holds(h, r, t) && ChildRef(h, r, s).Some? && Child(t, s).Some?
    ensures Holds(h, ChildRef(h, r, s).value, Child(t, s).value)
  {
  }

  /** The cell is the parent's with its reference at s changed. */
  predicate Points(was: Cell, s: Step, cell: Cell, kid: Ref) {
    match (was, s)
    case (Fields(fields), Key(k)) => cell == Fields(fields[k := kid])
    case (Items(items), Index(i)) => i < |items| && cell == Items(items[i := kid])
    case _ => false
  }

  lemma PointsRef(was: Cell, s: Step, cell: Cell, kid: Ref, q: Step)
    requires Points(was, s, cell, kid)
    ensures CellRef(cell, q) == if q == s then Some(kid) else CellRef(was, q)
  {
  }

  /** A parent pointed at a new cell that hangs below it. */
  lemma Repointed(h: Heap, at: map<Ref, Place>, next: Ref, r: Ref, s: Step, cell: Cell, kid: Ref)
    requires Linked(h, at, next) && r in h && Points(h[r], s, cell, kid)
    requires kid in h && kid in at && at[kid] == Place(r, s, at[r].depth + 1)
    ensures Linked(h[r := cell], at, next)
  {
    var h2 := h[r := cell];
    forall q, p
      ensures LinkedAt(h2, at, q, p)
    {
      assert LinkedAt(h, at, q, p);
      if q == r {
        PointsRef(h[r], s, cell, kid, p);
      }
    }
  }

  lemma ParentHolds(h: Heap, at: map<Ref, Place>, next: Ref, r: Ref, s: Step, cell: Cell, kid: Ref, u: Json, val: Json)
    requires Linked(h, at, next) && r in h && Points(h[r], s, cell, kid) && Holds(h, r, u) && Child(u, s).Some?
    requires kid in h && kid in at && at[kid] == Place(r, s, at[r].depth + 1) && Holds(h, kid, val)
    ensures Holds(h[r := cell], r, Put(u, s, val))
  {
    var h2 := h[r := cell];
    OffPathHolds(h, at, next, r, cell, kid, val);
    forall q | q != s && CellRef(cell, q).Some?
      ensures Child(u, q).Some? && Holds(h2, CellRef(cell, q).value, Child(u, q).value)
    {
      PointsRef(h[r], s, cell, kid, q);
      assert LinkedAt(h, at, r, q);
      OffPathHolds(h, at, next, r, cell, CellRef(cell, q).value, Child(u, q).value);
    }
    PointsHolds(h, h2, r, s, cell, kid, u, val);
  }

  lemma PointsHolds(h: Heap, h2: Heap, r: Ref, s: Step, cell: Cell, kid: Ref, u: Json, val: Json)
    requires r in h && Points(h[r], s, cell, kid) && Holds(h, r, u) && Child(u, s).Some?
    requires r in h2 && h2[r] == cell && Holds(h2, kid, val)
    requires forall q :: q != s && CellRef(cell, q).Some? ==>
               Child(u, q).Some? && Holds(h2, CellRef(cell, q).value, Child(u, q).value)
    ensures Holds(h2, r, Put(u, s, val))
  {
    match u
    case Obj(fields) =>
      forall k | k in fields[s.key := val]
        ensures Holds(h2, cell.fields[k], fields[s.key := val][k])
      {
        assert CellRef(cell, Key(k)) == Some(cell.fields[k]);
      }
    case Arr(items) =>
      forall i | 0 <= i < |items|
        ensures Holds(h2, cell.items[i], items[s.index := val][i])
      {
        assert CellRef(cell, Index(i)) == Some(cell.items[i]);
      }
    case _ =>
  }

  /** The cell n levels up. */
  ghost function Ancestor(at: map<Ref, Place>, r: Ref, n: nat): Ref
    decreases n
  {
    if n == 0 || r !in at then r else Ancestor(at, at[r].parent, n - 1)
  }

  lemma {:induction false} AncestorUp(at: map<Ref, Place>, r: Ref, n: nat)
    requires Ancestor(at, r, n) in at
    ensures Ancestor(at, r, n + 1) == at[Ancestor(at, r, n)].parent
    decreases n
  {
    if n > 0 && r in at {
      AncestorUp(at, at[r].parent, n - 1);
    }
  }

  /** Cell d is cur or lies on the way up from it. */
  ghost predicate OnPath(at: map<Ref, Place>, cur: Ref, d: Ref)
    requires cur in at && d in at
  {
    at[d].depth <= at[cur].depth && Ancestor(at, cur, at[cur].depth - at[d].depth) == d
  }

  lemma ChildOffPath(h: Heap, at: map<Ref, Place>, next: Ref, cur: Ref, d: Ref, s: Step)
    requires Linked(h, at, next) && cur in at && d in h && !OnPath(at, cur, d) && ChildRef(h, d, s).Some?
    ensures var e := ChildRef(h, d, s).value; e in h && e in at && !OnPath(at, cur, e)
  {
    assert LinkedAt(h, at, d, s);
    var e := ChildRef(h, d, s).value;
    if OnPath(at, cur, e) {
      AncestorUp(at, cur, at[cur].depth - at[e].depth);
    }
  }

  /** Changing cell cur changes no value that hangs off its path to the root. */
  lemma OffPathHolds(h: Heap, at: map<Ref, Place>, next: Ref, cur: Ref, cell: Cell, d: Ref, t: Json)
    requires Linked(h, at, next) && cur in at && Holds(h, d, t) && d in h && d in at && !OnPath(at, cur, d)
    ensures Holds(h[cur := cell], d, t)
    decreases t
  {
    var h2 := h[cur := cell];
    assert d != cur;
    match t
    case Obj(fields) =>
      forall k | k in fields
        ensures Holds(h2, h2[d].fields[k], fields[k])
      {
        ChildOffPath(h, at, next, cur, d, Key(k));
        OffPathHolds(h, at, next, cur, cell, h[d].fields[k], fields[k]);
      }
    case Arr(items) =>
      forall i | 0 <= i < |items|
        ensures Holds(h2, h2[d].items[i], items[i])
      {
        ChildOffPath(h, at, next, cur, d, Index(i));
        OffPathHolds(h, at, next, cur, cell, h[d].items[i], items[i]);
      }
    case _ =>
  }

  /** The steps lead from r to cur. */
  ghost predicate Leads(h: Heap, r: Ref, place: seq<Step>, cur: Ref)
    decreases |place|
  {
    if place == [] then r == cur
    else ChildRef(h, r, place[0]).Some? && Leads(h, ChildRef(h, r, place[0]).value, place[1..], cur)
  }

  lemma {:induction false} LeadsMore(h: Heap, r: Ref, place: seq<Step>, cur: Ref, s: Step)
    requires Leads(h, r, place, cur) && ChildRef(h, cur, s).Some?
    ensures Leads(h, r, place + [s], ChildRef(h, cur, s).value)
    decreases |place|
  {
    if place == [] {
      assert place + [s] == [s] && [s][1..] == [];
    } else {
      assert (place + [s])[1..] == place[1..] + [s];
      LeadsMore(h, ChildRef(h, r, place[0]).value, place[1..], cur, s);
    }
  }

  lemma {:induction false} LeadsGrows(h: Heap, at: map<Ref, Place>, h2: Heap, at2: map<Ref, Place>, r: Ref,
      place: seq<Step>, cur: Ref)
    requires Leads(h, r, place, cur) && Grows(h, at, h2, at2)
    ensures Leads(h2, r, place, cur)
    decreases |place|
  {
    if place != [] {
      LeadsGrows(h, at, h2, at2, ChildRef(h, r, place[0]).value, place[1..], cur);
    }
  }

  /** The start of a path is the ancestor of its end. */
  lemma {:induction false} LeadsUp(h: Heap, at: map<Ref, Place>, next: Ref, r: Ref, place: seq<Step>, cur: Ref)
    requires Linked(h, at, next) && r in h && Leads(h, r, place, cur)
    ensures cur in h && cur in at && r in at && at[cur].depth == at[r].depth + |place|
            && Ancestor(at, cur, |place|) == r
    decreases |place|
  {
    if place != [] {
      assert LinkedAt(h, at, r, place[0]);
      var c := ChildRef(h, r, place[0]).value;
      LeadsUp(h, at, next, c, place[1..], cur);
      AncestorUp(at, cur, |place| - 1);
    }
  }

  /** A tree with the value at a place replaced. */
  function Plug(t: Json, place: seq<Step>, u: Json): Json
    requires Get(t, place).Some?
    decreases |place|
  {
    if place == [] then u else Put(t, place[0], Plug(Child(t, place[0]).value, place[1..], u))
  }

  lemma {:induction false} PlugMore(t: Json, place: seq<Step>, s: Step, u: Json, x: Json)
    requires Get(t, place) == Some(u) && Child(u, s).Some?
    ensures Get(t, place + [s]) == Child(u, s)
    ensures Plug(t, place + [s], x) == Plug(t, place, Put(u, s, x))
    decreases |place|
  {
    if place == [] {
      assert place + [s] == [s] && [s][1..] == [];
    } else {
      assert (place + [s])[1..] == place[1..] + [s];
      PlugMore(Child(t, place[0]).value, place[1..], s, u, x);
    }
  }

  /** A sibling of a cell on the path is off it. */
  lemma SiblingOffPath(h: Heap, at: map<Ref, Place>, next: Ref, r: Ref, place: seq<Step>, cur: Ref, s: Step)
    requires Linked(h, at, next) && r in h && place != [] && Leads(h, r, place, cur) && s != place[0]
             && ChildRef(h, r, s).Some?
    ensures var d := ChildRef(h, r, s).value; cur in at && d in h && d in at && !OnPath(at, cur, d)
  {
    assert LinkedAt(h, at, r, s) && LinkedAt(h, at, r, place[0]);
    LeadsUp(h, at, next, r, place, cur);
    LeadsUp(h, at, next, ChildRef(h, r, place[0]).value, place[1..], cur);
  }

  /** Changing the cell at a place changes the value at that place and no other. */
  lemma {:induction false} UpdateHolds(h: Heap, at: map<Ref, Place>, next: Ref, r: Ref, t: Json, place: seq<Step>,
      cur: Ref, cell: Cell, u: Json)
    requires Linked(h, at, next) && r in h && Holds(h, r, t) && Leads(h, r, place, cur)
    requires Get(t, place).Some? && Holds(h[cur := cell], cur, u)
    ensures Holds(h[cur := cell], r, Plug(t, place, u))
    decreases |place|
  {
    if place != [] {
      var h2, s := h[cur := cell], place[0];
      var c, x := ChildRef(h, r, s).value, Child(t, s).value;
      LeadsUp(h, at, next, r, place, cur);
      assert r != cur;
      assert LinkedAt(h, at, r, s);
      UpdateHolds(h, at, next, c, x, place[1..], cur, cell, u);
      forall q | q != s && ChildRef(h, r, q).Some?
        ensures Child(t, q).Some? && Holds(h2, ChildRef(h, r, q).value, Child(t, q).value)
      {
        SiblingOffPath(h, at, next, r, place, cur, q);
        OffPathHolds(h, at, next, cur, cell, ChildRef(h, r, q).value, Child(t, q).value);
      }
      HoldsPut(h, h2, r, t, s, Plug(x, place[1..], u));
    }
  }

  /** The tree once the new value is allocated and its parent points at it. */
  lemma Replaced(h0: Heap, at0: map<Ref, Place>, h: Heap, at: map<Ref, Place>, next: Ref, root: Ref, t: Json,
                 place: seq<Step>, r: Ref, s: Step, cell: Cell, kid: Ref, u: Json, val: Json)
    requires Grows(h0, at0, h, at) && Linked(h, at, next)
    requires Holds(h0, root, t) && Leads(h0, root, place, r) && Get(t, place) == Some(u) && Holds(h0, r, u)
             && Child(u, s).Some?
    requires r in h && Points(h[r], s, cell, kid) && Holds(h, kid, val)
    requires kid in h && kid in at && at[kid] == Place(r, s, at[r].depth + 1)
    ensures Linked(h[r := cell], at, next) && Holds(h[r := cell], root, Plug(t, place, Put(u, s, val)))
  {
    HoldsGrows(h0, at0, h, at, root, t);
    HoldsGrows(h0, at0, h, at, r, u);
    LeadsGrows(h0, at0, h, at, root, place, r);
    Repointed(h, at, next, r, s, cell, kid);
    ParentHolds(h, at, next, r, s, cell, kid, u, val);
    UpdateHolds(h, at, next, root, t, place, r, cell, Put(u, s, val));
  }

  /** One child replaced, the others as they were. */
  lemma HoldsPut(h: Heap, h2: Heap, r: Ref, t: Json, s: Step, x: Json)
    requires Holds(h, r, t) && r in h2 && h2[r] == h[r] && Child(t, s).Some? && ChildRef(h, r, s).Some?
    requires Holds(h2, ChildRef(h, r, s).value, x)
    requires forall q :: q != s && ChildRef(h, r, q).Some? ==>
               Child(t, q).Some? && Holds(h2, ChildRef(h, r, q).value, Child(t, q).value)
    ensures Holds(h2, r, Put(t, s, x))
  {
    match t
    case Obj(fields) =>
      forall k | k in fields[s.key := x]
        ensures Holds(h2, h2[r].fields[k], fields[s.key := x][k])
      {
        assert ChildRef(h, r, Key(k)) == Some(h2[r].fields[k]);
      }
    case Arr(items) =>
      forall i | 0 <= i < |items|
        ensures Holds(h2, h2[r].items[i], items[s.index := x][i])
      {
        assert ChildRef(h, r, Index(i)) == Some(h2[r].items[i]);
      }
    case _ =>
  }

  /** A child of r: allocated, holding its value, and hanging below r at this step. */
  ghost predicate Member(h: Heap, at: map<Ref, Place>, r: Ref, s: Step, c: Ref, t: Json) {
    Holds(h, c, t) && c in h && c in at && r in at && at[c] == Place(r, s, at[r].depth + 1)
  }

  lemma MemberGrows(h: Heap, at: map<Ref, Place>, h2: Heap, at2: map<Ref, Place>, r: Ref, s: Step, c: Ref, t: Json)
    requires Member(h, at, r, s, c, t) && Grows(h, at, h2, at2)
    ensures Member(h2, at2, r, s, c, t)
  {
    HoldsGrows(h, at, h2, at2, c, t);
  }

  /** What hangs from this cell's references holds the value's parts. */
  ghost predicate Fits(h: Heap, cell: Cell, t: Json) {
    match t
    case Obj(fields) => cell.Fields? && cell.fields.Keys == fields.Keys
      && forall k :: k in fields ==> Holds(h, cell.fields[k], fields[k])
    case Arr(items) => cell.Items? && |cell.items| == |items|
      && forall i :: 0 <= i < |items| ==> Holds(h, cell.items[i], items[i])
    case _ => cell == Leaf(t)
  }

  lemma HoldsCell(h: Heap, at: map<Ref, Place>, r: Ref, cell: Cell, t: Json)
    requires r !in h && Fits(h, cell, t)
    ensures Holds(h[r := cell], r, t)
  {
    var h2 := h[r := cell];
    match t
    case Obj(fields) =>
      forall k | k in fields
        ensures Holds(h2, cell.fields[k], fields[k])
      {
        HoldsGrows(h, at, h2, at, cell.fields[k], fields[k]);
      }
    case Arr(items) =>
      forall i | 0 <= i < |items|
        ensures Holds(h2, cell.items[i], items[i])
      {
        HoldsGrows(h, at, h2, at, cell.items[i], items[i]);
      }
    case _ =>
  }
}
