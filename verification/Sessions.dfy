/**
 * Session rows: the running totals UpsertSession keeps by adding one call at a
 * time, and reconcileSession's rebuild after a purge (internal/store/store.go,
 * internal/session/session.go). Costs are exact integers (micro-dollars).
 */
module Sessions {
  import opened Options
  import opened ModelSets
  import opened Texts

  type Id = nat
  type Sid = string

  /** A stored call, reduced to what a session row is made of. None is SQL NULL. */
  datatype Request = Request(session: Option<Sid>, header: Option<string>, prefix: string, model: string,
                             input: int, output: int, cost: Option<int>, at: int)

  datatype Row = Row(prefix: Option<string>, first: int, last: int, count: int, input: int, output: int,
                     cost: int, priced: int, unpriced: int, models: string, warned: int)

  /** warnings: how many warning rows name a request. pending: stored calls not yet folded into their session. */
  datatype Tables = Tables(requests: map<Id, Request>, warnings: map<Id, nat>, sessions: map<Sid, Row>,
                           pending: set<Id>, next: Id)

  const NO_TABLES := Tables(map[], map[], map[], {}, 0)

  function Warned(t: Tables, id: Id): nat { if id in t.warnings then t.warnings[id] else 0 }

  // ------------------------------------------------- the reference: aggregation

  /** A folded call of a session. */
  predicate Member(t: Tables, sid: Sid, id: Id) {
    id in t.requests && t.requests[id].session == Some(sid) && id !in t.pending
  }

  datatype Column = Count | Input | Output | Cost | Priced | Unpriced | WarningCount

  function Value(t: Tables, id: Id, c: Column): int
    requires id in t.requests
  {
    var r := t.requests[id];
    match c
    case Count => 1
    case Input => r.input
    case Output => r.output
    case Cost => if r.cost.Some? then r.cost.value else 0
    case Priced => if r.cost.Some? then 1 else 0
    case Unpriced => if r.cost.Some? then 0 else 1
    case WarningCount => Warned(t, id)
  }

  /** SELECT SUM(column) over a session's folded calls with ids below n. */
  function Sum(t: Tables, sid: Sid, c: Column, n: nat): int {
    if n == 0 then 0 else Sum(t, sid, c, n - 1) + if Member(t, sid, n - 1) then Value(t, n - 1, c) else 0
  }

  /** SELECT DISTINCT model WHERE model != ''. */
  function ModelsOf(t: Tables, sid: Sid): set<string> {
    set id | id in t.requests && Member(t, sid, id) && t.requests[id].model != "" :: t.requests[id].model
  }

  ghost predicate IsMin(t: Tables, sid: Sid, at: int) {
    && (exists id :: Member(t, sid, id) && t.requests[id].at == at)
    && forall id :: Member(t, sid, id) ==> at <= t.requests[id].at
  }

  ghost predicate IsMax(t: Tables, sid: Sid, at: int) {
    && (exists id :: Member(t, sid, id) && t.requests[id].at == at)
    && forall id :: Member(t, sid, id) ==> t.requests[id].at <= at
  }

  function Cell(row: Row, c: Column): int {
    match c
    case Count => row.count
    case Input => row.input
    case Output => row.output
    case Cost => row.cost
    case Priced => row.priced
    case Unpriced => row.unpriced
    case WarningCount => row.warned
  }

  /** The row is the aggregate of the session's folded calls. */
  ghost predicate RowIs(t: Tables, sid: Sid, row: Row) {
    && (forall c :: Cell(row, c) == Sum(t, sid, c, t.next))
    && IsMin(t, sid, row.first) && IsMax(t, sid, row.last)
    && Models(row.models) == ModelsOf(t, sid)
  }

  /** The reference column by column: one more stored call of the session that is folded adds its own figures. */
  lemma SumsPlainly(t: Tables, sid: Sid, id: Id, r: Request)
    requires id in t.requests && t.requests[id] == r && r.session == Some(sid) && id !in t.pending
    ensures Sum(t, sid, Count, id + 1) == Sum(t, sid, Count, id) + 1
    ensures Sum(t, sid, Input, id + 1) == Sum(t, sid, Input, id) + r.input
    ensures Sum(t, sid, Output, id + 1) == Sum(t, sid, Output, id) + r.output
    ensures Sum(t, sid, Cost, id + 1) == Sum(t, sid, Cost, id) + if r.cost.Some? then r.cost.value else 0
    ensures Sum(t, sid, Priced, id + 1) == Sum(t, sid, Priced, id) + if r.cost.Some? then 1 else 0
    ensures Sum(t, sid, Unpriced, id + 1) == Sum(t, sid, Unpriced, id) + if r.cost.None? then 1 else 0
    ensures Sum(t, sid, WarningCount, id + 1)
            == Sum(t, sid, WarningCount, id) + if id in t.warnings then t.warnings[id] else 0
  {
  }

  /** Any other id adds nothing, and a row that agrees has each sum in its own column. */
  lemma RowPlainly(t: Tables, sid: Sid, row: Row, id: Id, c: Column)
    ensures !(id in t.requests && t.requests[id].session == Some(sid) && id !in t.pending) ==>
              Sum(t, sid, c, id + 1) == Sum(t, sid, c, id)
    ensures Sum(t, sid, c, 0) == 0
    ensures RowIs(t, sid, row) ==>
              && row.count == Sum(t, sid, Count, t.next) && row.input == Sum(t, sid, Input, t.next)
              && row.output == Sum(t, sid, Output, t.next) && row.cost == Sum(t, sid, Cost, t.next)
              && row.priced == Sum(t, sid, Priced, t.next) && row.unpriced == Sum(t, sid, Unpriced, t.next)
              && row.warned == Sum(t, sid, WarningCount, t.next)
  {
    if RowIs(t, sid, row) {
      assert Cell(row, Count) == row.count && Cell(row, Input) == row.input && Cell(row, Output) == row.output
          && Cell(row, Cost) == row.cost && Cell(row, Priced) == row.priced && Cell(row, Unpriced) == row.unpriced
          && Cell(row, WarningCount) == row.warned;
    }
  }

  ghost predicate HasMember(t: Tables, sid: Sid) { exists id :: Member(t, sid, id) }

  /** A session has a row exactly when it has a folded call, and then the row is their aggregate. */
  ghost predicate Agrees(t: Tables, sid: Sid) {
    && (sid in t.sessions <==> HasMember(t, sid))
    && (sid in t.sessions ==> RowIs(t, sid, t.sessions[sid]))
  }

  /** Ids come from one counter, and no model name has a comma. */
  predicate Fine(t: Tables) {
    && (forall id :: id in t.requests ==> id < t.next && Plain(t.requests[id].model))
    && (forall id :: id in t.warnings ==> id < t.next)
    && t.pending <= t.requests.Keys
  }

  ghost predicate AllAgree(t: Tables) { Fine(t) && forall sid :: Agrees(t, sid) }

  // ---------------------------------------------------------- the operations

  /** InsertRequest. */
  function Insert(t: Tables, r: Request): Tables {
    t.(requests := t.requests[t.next := r], pending := t.pending + (if r.session.Some? then {t.next} else {}),
        next := t.next + 1)
  }

  /** The warning rows of one call. */
  function Warn(t: Tables, id: Id, n: nat): Tables { t.(warnings := t.warnings[id := Warned(t, id) + n]) }

  /** What RecordCall hands to UpsertSession: the call's own contribution. */
  function Delta(r: Request, sid: Sid, warned: nat): Row {
    Row(if r.header == Some(sid) then None else Some(r.prefix), r.at, r.at, 1, r.input, r.output,
        if r.cost.Some? then r.cost.value else 0, if r.cost.Some? then 1 else 0,
        if r.cost.Some? then 0 else 1, r.model, warned)
  }

  function Min(a: int, b: int): int { if a <= b then a else b }
  function Max(a: int, b: int): int { if a <= b then b else a }

  /** ON CONFLICT DO UPDATE: every counter is existing + excluded, the prefix stays. */
  function Merge(row: Row, d: Row): Row {
    Row(row.prefix, Min(row.first, d.first), Max(row.last, d.last), row.count + d.count, row.input + d.input,
        row.output + d.output, row.cost + d.cost, row.priced + d.priced, row.unpriced + d.unpriced,
        AddModel(row.models, d.models), row.warned + d.warned)
  }

  function Upsert(sessions: map<Sid, Row>, sid: Sid, d: Row): map<Sid, Row> {
    sessions[sid := if sid in sessions then Merge(sessions[sid], d) else d]
  }

  /** RecordCall: the call in hand, with the number of its warnings, stored still or not. */
  function Record(t: Tables, id: Id, r: Request, warned: nat): Tables
    requires r.session.Some?
  {
    t.(sessions := Upsert(t.sessions, r.session.value, Delta(r, r.session.value, warned)), pending := t.pending - {id})
  }

  /** RecordCall of a stored call. */
  function Fold(t: Tables, id: Id, warned: nat): Tables
    requires id in t.requests && t.requests[id].session.Some?
  {
    Record(t, id, t.requests[id], warned)
  }

  // ------------------------------------------------------------ sums and frames

  /** At id, u has the same folded call as t. */
  predicate SameAt(t: Tables, u: Tables, sid: Sid, id: Id) {
    && (Member(t, sid, id) <==> Member(u, sid, id))
    && (Member(t, sid, id) ==> t.requests[id] == u.requests[id] && Warned(t, id) == Warned(u, id))
  }

  lemma {:induction false} SumFrame(t: Tables, u: Tables, sid: Sid, c: Column, n: nat)
    requires forall id: Id :: id < n ==> SameAt(t, u, sid, id)
    ensures Sum(t, sid, c, n) == Sum(u, sid, c, n)
  {
    if n > 0 {
      SumFrame(t, u, sid, c, n - 1);
      assert SameAt(t, u, sid, n - 1);
    }
  }

  lemma {:induction false} SumGrows(t: Tables, u: Tables, sid: Sid, c: Column, n: nat, k: Id)
    requires k < n && !Member(t, sid, k) && Member(u, sid, k)
    requires forall id :: id != k ==> SameAt(t, u, sid, id)
    ensures Sum(u, sid, c, n) == Sum(t, sid, c, n) + Value(u, k, c)
  {
    if n == k + 1 {
      SumFrame(t, u, sid, c, k);
    } else {
      SumGrows(t, u, sid, c, n - 1, k);
      assert SameAt(t, u, sid, n - 1);
    }
  }

  /** Where nothing of a session changed but the counter moved past ids it does not have, it still agrees. */
  lemma AgreesFrame(t: Tables, u: Tables, sid: Sid)
    requires Agrees(t, sid) && Fine(t) && t.next <= u.next <= t.next + 1
    requires forall id :: SameAt(t, u, sid, id)
    requires sid in t.sessions <==> sid in u.sessions
    requires sid in t.sessions ==> t.sessions[sid] == u.sessions[sid]
    ensures Agrees(u, sid)
  {
    assert HasMember(t, sid) <==> HasMember(u, sid) by {
      assert forall id :: SameAt(t, u, sid, id) ==> (Member(t, sid, id) <==> Member(u, sid, id));
    }
    if sid in t.sessions {
      RowFrame(t, u, sid, t.sessions[sid]);
    }
  }

  lemma RowFrame(t: Tables, u: Tables, sid: Sid, row: Row)
    requires RowIs(t, sid, row) && Fine(t) && t.next <= u.next <= t.next + 1
    requires forall id :: SameAt(t, u, sid, id)
    ensures RowIs(u, sid, row)
  {
    forall c
      ensures Cell(row, c) == Sum(u, sid, c, u.next)
    {
      SumFrame(t, u, sid, c, u.next);
      assert !Member(t, sid, t.next);
    }
    BoundsFrame(t, u, sid, row);
    ModelsFrame(t, u, sid);
  }

  lemma BoundsFrame(t: Tables, u: Tables, sid: Sid, row: Row)
    requires IsMin(t, sid, row.first) && IsMax(t, sid, row.last)
    requires forall id :: SameAt(t, u, sid, id)
    ensures IsMin(u, sid, row.first) && IsMax(u, sid, row.last)
  {
    var a :| Member(t, sid, a) && t.requests[a].at == row.first;
    var b :| Member(t, sid, b) && t.requests[b].at == row.last;
    assert SameAt(t, u, sid, a) && SameAt(t, u, sid, b);
    forall id | Member(u, sid, id)
      ensures row.first <= u.requests[id].at <= row.last
    {
      assert SameAt(t, u, sid, id);
    }
  }

  lemma ModelsFrame(t: Tables, u: Tables, sid: Sid)
    requires forall id :: SameAt(t, u, sid, id)
    ensures ModelsOf(t, sid) == ModelsOf(u, sid)
  {
    forall m
      ensures m in ModelsOf(t, sid) <==> m in ModelsOf(u, sid)
    {
      if m in ModelsOf(t, sid) {
        var id :| Member(t, sid, id) && t.requests[id].model == m && m != "";
        assert SameAt(t, u, sid, id);
      }
      if m in ModelsOf(u, sid) {
        var id :| Member(u, sid, id) && u.requests[id].model == m && m != "";
        assert SameAt(t, u, sid, id);
      }
    }
  }

  // --------------------------------------------------------- what a flush keeps

  /** Storing a call changes no session. */
  lemma InsertKeeps(t: Tables, r: Request)
    requires AllAgree(t) && Plain(r.model)
    ensures AllAgree(Insert(t, r))
  {
    var u := Insert(t, r);
    forall sid
      ensures Agrees(u, sid)
    {
      assert Agrees(t, sid);
      forall id
        ensures SameAt(t, u, sid, id)
      {
      }
      AgreesFrame(t, u, sid);
    }
  }

  /** Nor does writing warnings of a call that is not folded. */
  lemma WarnKeeps(t: Tables, id: Id, n: nat)
    requires AllAgree(t) && id in t.requests && (id in t.pending || t.requests[id].session.None?)
    ensures AllAgree(Warn(t, id, n))
  {
    var u := Warn(t, id, n);
    forall sid
      ensures Agrees(u, sid)
    {
      assert Agrees(t, sid);
      forall i
        ensures SameAt(t, u, sid, i)
      {
      }
      AgreesFrame(t, u, sid);
    }
  }

  lemma MinGrows(t: Tables, u: Tables, sid: Sid, k: Id, first: int)
    requires Member(u, sid, k) && !Member(t, sid, k) && forall id :: id != k ==> SameAt(t, u, sid, id)
    requires IsMin(t, sid, first)
    ensures IsMin(u, sid, Min(first, u.requests[k].at))
  {
    var a :| Member(t, sid, a) && t.requests[a].at == first;
    assert SameAt(t, u, sid, a);
    forall id | Member(u, sid, id)
      ensures Min(first, u.requests[k].at) <= u.requests[id].at
    {
      assert id != k ==> SameAt(t, u, sid, id);
    }
  }

  lemma MaxGrows(t: Tables, u: Tables, sid: Sid, k: Id, last: int)
    requires Member(u, sid, k) && !Member(t, sid, k) && forall id :: id != k ==> SameAt(t, u, sid, id)
    requires IsMax(t, sid, last)
    ensures IsMax(u, sid, Max(last, u.requests[k].at))
  {
    var a :| Member(t, sid, a) && t.requests[a].at == last;
    assert SameAt(t, u, sid, a);
    forall id | Member(u, sid, id)
      ensures u.requests[id].at <= Max(last, u.requests[k].at)
    {
      assert id != k ==> SameAt(t, u, sid, id);
    }
  }

  lemma ModelsGrow(t: Tables, u: Tables, sid: Sid, k: Id)
    requires Member(u, sid, k) && !Member(t, sid, k) && forall id :: id != k ==> SameAt(t, u, sid, id)
    ensures ModelsOf(u, sid) == ModelsOf(t, sid) + if u.requests[k].model == "" then {} else {u.requests[k].model}
  {
    var one := if u.requests[k].model == "" then {} else {u.requests[k].model};
    forall m
      ensures m in ModelsOf(u, sid) <==> m in ModelsOf(t, sid) + one
    {
      if m in ModelsOf(u, sid) {
        var id :| Member(u, sid, id) && u.requests[id].model == m && m != "";
        assert id != k ==> SameAt(t, u, sid, id);
      }
      if m in ModelsOf(t, sid) {
        var id :| Member(t, sid, id) && t.requests[id].model == m && m != "";
        assert SameAt(t, u, sid, id);
      }
      if m in one {
        assert Member(u, sid, k) && m != "";
      }
    }
  }

  /** Folding a call into a row that is the aggregate gives the aggregate with the call. */
  lemma MergeIsAggregate(t: Tables, u: Tables, sid: Sid, k: Id, row: Row)
    requires Member(u, sid, k) && !Member(t, sid, k) && forall id :: id != k ==> SameAt(t, u, sid, id)
    requires RowIs(t, sid, row) && u.next == t.next && k < u.next && Plain(u.requests[k].model)
    ensures RowIs(u, sid, Merge(row, Delta(u.requests[k], sid, Warned(u, k))))
  {
    var d := Delta(u.requests[k], sid, Warned(u, k));
    var v := Merge(row, d);
    forall c
      ensures Cell(v, c) == Sum(u, sid, c, u.next)
    {
      SumGrows(t, u, sid, c, u.next, k);
      assert Cell(v, c) == Cell(row, c) + Value(u, k, c);
    }
    MinGrows(t, u, sid, k, row.first);
    MaxGrows(t, u, sid, k, row.last);
    ModelsGrow(t, u, sid, k);
    AddModelAdds(row.models, d.models);
  }

  lemma {:induction false} NoMembersNoSum(t: Tables, sid: Sid, c: Column, n: nat)
    requires !HasMember(t, sid)
    ensures Sum(t, sid, c, n) == 0
  {
    if n > 0 {
      NoMembersNoSum(t, sid, c, n - 1);
      assert !Member(t, sid, n - 1);
    }
  }

  /** A session's first call makes its row. */
  lemma FirstIsAggregate(t: Tables, u: Tables, sid: Sid, k: Id)
    requires Member(u, sid, k) && !HasMember(t, sid) && forall id :: id != k ==> SameAt(t, u, sid, id)
    requires u.next == t.next && k < u.next && Plain(u.requests[k].model)
    ensures RowIs(u, sid, Delta(u.requests[k], sid, Warned(u, k)))
  {
    var d := Delta(u.requests[k], sid, Warned(u, k));
    assert !Member(t, sid, k);
    forall c
      ensures Cell(d, c) == Sum(u, sid, c, u.next)
    {
      SumGrows(t, u, sid, c, u.next, k);
      NoMembersNoSum(t, sid, c, u.next);
    }
    forall id | Member(u, sid, id)
      ensures id == k
    {
      assert id != k ==> SameAt(t, u, sid, id) && !Member(t, sid, id);
    }
    ModelsGrow(t, u, sid, k);
    NoModels(t, sid);
    if d.models != "" {
      FieldOfPlain(d.models, ',');
    }
  }

  lemma NoModels(t: Tables, sid: Sid)
    ensures HasMember(t, sid) || ModelsOf(t, sid) == {}
  {
    if ModelsOf(t, sid) != {} {
      var m :| m in ModelsOf(t, sid);
      var id :| Member(t, sid, id) && t.requests[id].model == m && m != "";
    }
  }

  /** Folding a stored call, once its warnings are written, keeps every row the aggregate of the folded calls. */
  lemma FoldKeeps(t: Tables, id: Id, warned: nat)
    requires AllAgree(t) && id in t.pending && t.requests[id].session.Some? && warned == Warned(t, id)
    ensures AllAgree(Fold(t, id, warned))
  {
    var u := Fold(t, id, warned);
    var mine := t.requests[id].session.value;
    forall sid
      ensures Agrees(u, sid)
    {
      assert Agrees(t, sid);
      forall i | i != id || sid != mine
        ensures SameAt(t, u, sid, i)
      {
      }
      if sid != mine {
        AgreesFrame(t, u, sid);
      } else {
        assert Member(u, sid, id);
        if sid in t.sessions {
          MergeIsAggregate(t, u, sid, id, t.sessions[sid]);
        } else {
          FirstIsAggregate(t, u, sid, id);
        }
      }
    }
  }

  // ------------------------------------------------------------- the rebuild

  /** SELECT MIN(started_at), over ids below n. */
  function FirstAt(t: Tables, sid: Sid, n: nat): Option<int> {
    if n == 0 then None
    else
      var m := FirstAt(t, sid, n - 1);
      if !Member(t, sid, n - 1) then m
      else Some(if m.None? then t.requests[n - 1].at else Min(m.value, t.requests[n - 1].at))
  }

  /** SELECT MAX(started_at), over ids below n. */
  function LastAt(t: Tables, sid: Sid, n: nat): Option<int> {
    if n == 0 then None
    else
      var m := LastAt(t, sid, n - 1);
      if !Member(t, sid, n - 1) then m
      else Some(if m.None? then t.requests[n - 1].at else Max(m.value, t.requests[n - 1].at))
  }

  /** SELECT DISTINCT model_resolved ... ORDER BY model_resolved, over ids below n. */
  function Names(t: Tables, sid: Sid, n: nat): seq<string> {
    if n == 0 then []
    else if Member(t, sid, n - 1) && t.requests[n - 1].model != ""
        then Place(t.requests[n - 1].model, Names(t, sid, n - 1))
    else Names(t, sid, n - 1)
  }

  /** What SQL sees: every stored call, folded or not. */
  function AllStored(t: Tables): Tables { t.(pending := {}) }

  /** reconcileSession: the row it leaves, if any; an UPDATE of a row that is not there does nothing. */
  function Rebuilt(t: Tables, sid: Sid): Option<Row> {
    var u := AllStored(t);
    if Sum(u, sid, Count, t.next) <= 0 || sid !in t.sessions then None
    else
      var first, last := FirstAt(u, sid, t.next), LastAt(u, sid, t.next);
      Some(Row(t.sessions[sid].prefix, if first.Some? then first.value else 0, if last.Some? then last.value else 0,
               Sum(u, sid, Count, t.next), Sum(u, sid, Input, t.next), Sum(u, sid, Output, t.next),
               Sum(u, sid, Cost, t.next), Sum(u, sid, Priced, t.next), Sum(u, sid, Unpriced, t.next),
               Join(Names(u, sid, t.next), ','), Sum(u, sid, WarningCount, t.next)))
  }

  /** The sessions that lose a call. */
  function Affected(t: Tables, ids: set<Id>): set<Sid> {
    set id | id in ids && id in t.requests && t.requests[id].session.Some? :: t.requests[id].session.value
  }

  function Remaining(t: Tables, ids: set<Id>): Tables {
    t.(requests := t.requests - ids, warnings := t.warnings - ids, pending := t.pending - ids)
  }

  /** The purge transaction: rows, their warnings, and the rebuild of every session that lost one. */
  function PurgeRows(t: Tables, ids: set<Id>): Tables {
    var left, hit := Remaining(t, ids), Affected(t, ids);
    left.(sessions := map sid | sid in t.sessions && (sid in hit ==> Rebuilt(left, sid).Some?)
                        :: if sid in hit then Rebuilt(left, sid).value else t.sessions[sid])
  }

  lemma {:induction false} NamesAre(t: Tables, sid: Sid, n: nat, name: string)
    ensures Ascending(Names(t, sid, n))
    ensures name in Names(t, sid, n) <==>
            name != "" && exists id: Id :: id < n && Member(t, sid, id) && t.requests[id].model == name
  {
    if n > 0 {
      NamesAre(t, sid, n - 1, name);
      if Member(t, sid, n - 1) && t.requests[n - 1].model != "" {
        PlaceAdds(t.requests[n - 1].model, Names(t, sid, n - 1));
      }
    }
  }

  lemma {:induction false} FirstIs(t: Tables, sid: Sid, n: nat)
    ensures FirstAt(t, sid, n).None? ==> forall id: Id :: id < n ==> !Member(t, sid, id)
    ensures FirstAt(t, sid, n).Some? ==>
              exists id :: Member(t, sid, id) && t.requests[id].at == FirstAt(t, sid, n).value
    ensures FirstAt(t, sid, n).Some? ==>
              forall id: Id :: id < n && Member(t, sid, id) ==> FirstAt(t, sid, n).value <= t.requests[id].at
  {
    if n > 0 {
      FirstIs(t, sid, n - 1);
    }
  }

  lemma {:induction false} LastIs(t: Tables, sid: Sid, n: nat)
    ensures LastAt(t, sid, n).None? ==> forall id: Id :: id < n ==> !Member(t, sid, id)
    ensures LastAt(t, sid, n).Some? ==> exists id :: Member(t, sid, id) && t.requests[id].at == LastAt(t, sid, n).value
    ensures LastAt(t, sid, n).Some? ==>
              forall id: Id :: id < n && Member(t, sid, id) ==> t.requests[id].at <= LastAt(t, sid, n).value
  {
    if n > 0 {
      LastIs(t, sid, n - 1);
    }
  }

  /** COUNT(*) is the number of folded calls. */
  lemma {:induction false} CountIsNumber(t: Tables, sid: Sid, n: nat)
    ensures Sum(t, sid, Count, n) == |set id: Id | id < n && Member(t, sid, id)|
  {
    var s := set id: Id | id < n && Member(t, sid, id);
    if n == 0 {
      assert s == {};
    } else {
      CountIsNumber(t, sid, n - 1);
      var r := set id: Id | id < n - 1 && Member(t, sid, id);
      if Member(t, sid, n - 1) {
        assert s == r + {n - 1};
      } else {
        assert s == r;
      }
    }
  }

  /**
   * With nothing pending, the rebuild of a session that has calls is their aggregate, and one
   * without calls loses its row.
   */
  lemma RebuiltIsAggregate(t: Tables, sid: Sid)
    requires Fine(t) && t.pending == {} && sid in t.sessions
    ensures Rebuilt(t, sid).Some? <==> HasMember(t, sid)
    ensures Rebuilt(t, sid).Some? ==> RowIs(t, sid, Rebuilt(t, sid).value)
  {
    assert AllStored(t) == t;
    CountIsNumber(t, sid, t.next);
    var s := set id: Id | id < t.next && Member(t, sid, id);
    if HasMember(t, sid) {
      var id :| Member(t, sid, id);
      assert id in s;
    }
    if Rebuilt(t, sid).Some? {
      assert |s| > 0;
      var id :| id in s;
      FirstIs(t, sid, t.next);
      LastIs(t, sid, t.next);
      NamesAreModels(t, sid);
      ModelsOfJoin(Names(t, sid, t.next));
    }
  }

  lemma NamesAreModels(t: Tables, sid: Sid)
    requires Fine(t)
    ensures (set n | n in Names(t, sid, t.next)) == ModelsOf(t, sid)
    ensures forall n :: n in Names(t, sid, t.next) ==> Plain(n) && n != ""
    ensures Ascending(Names(t, sid, t.next))
  {
    NamesAre(t, sid, t.next, "");
    forall n
      ensures n in Names(t, sid, t.next) <==> n in ModelsOf(t, sid)
      ensures n in Names(t, sid, t.next) ==> Plain(n) && n != ""
    {
      NamesAre(t, sid, t.next, n);
    }
  }

  /** A stored call of a session that loses a call and has a row, itself left by the purge and not yet folded. */
  predicate Waits(t: Tables, ids: set<Id>, id: Id) {
    && id in t.pending && id in t.requests && id !in ids && t.requests[id].session.Some?
    && t.requests[id].session.value in Affected(t, ids) && t.requests[id].session.value in t.sessions
  }

  predicate NoneWaits(t: Tables, ids: set<Id>) { forall id :: id in t.pending ==> !Waits(t, ids, id) }

  /** A session that loses no call, or has no row: nothing about it changes but calls that were never folded. */
  lemma PurgeElsewhere(t: Tables, ids: set<Id>, sid: Sid)
    requires AllAgree(t) && (sid !in Affected(t, ids) || sid !in t.sessions)
    ensures Agrees(PurgeRows(t, ids), sid)
  {
    var u := PurgeRows(t, ids);
    assert Agrees(t, sid);
    forall id
      ensures SameAt(t, u, sid, id)
    {
      assert Member(t, sid, id) ==> id !in ids;
    }
    AgreesFrame(t, u, sid);
  }

  /** With no call of the session waiting, the rebuild is what is left of it. */
  lemma PurgeRebuilds(t: Tables, ids: set<Id>, sid: Sid)
    requires AllAgree(t) && sid in Affected(t, ids) && sid in t.sessions
    requires forall id :: Waits(t, ids, id) ==> t.requests[id].session.value != sid
    ensures Agrees(PurgeRows(t, ids), sid)
  {
    var u, left := PurgeRows(t, ids), Remaining(t, ids);
    var all := AllStored(left);
    RebuiltIsAggregate(all, sid);
    assert AllStored(all) == all && Rebuilt(all, sid) == Rebuilt(left, sid);
    forall id
      ensures SameAt(all, u, sid, id)
    {
      assert id in left.pending && id in left.requests && left.requests[id].session == Some(sid) ==> Waits(t, ids, id);
    }
    assert HasMember(all, sid) <==> HasMember(u, sid) by {
      assert forall id :: SameAt(all, u, sid, id) ==> (Member(all, sid, id) <==> Member(u, sid, id));
    }
    if sid in u.sessions {
      RowFrame(all, u, sid, u.sessions[sid]);
    }
  }

  /** With a call waiting, the rebuild counts it too, and the row is no longer what is folded. */
  lemma PurgeCountsWaiting(t: Tables, ids: set<Id>, k: Id)
    requires Fine(t) && Waits(t, ids, k)
    ensures !Agrees(PurgeRows(t, ids), t.requests[k].session.value)
  {
    var sid := t.requests[k].session.value;
    var u, left := PurgeRows(t, ids), Remaining(t, ids);
    var all := AllStored(left);
    var counted := set id: Id | id < t.next && Member(all, sid, id);
    var folded := set id: Id | id < t.next && Member(u, sid, id);
    CountIsNumber(all, sid, t.next);
    CountIsNumber(u, sid, t.next);
    assert k in counted && k !in folded;
    assert folded <= counted - {k};
    SmallerSet(folded, counted - {k});
    assert Sum(all, sid, Count, t.next) == |counted| > |folded| == Sum(u, sid, Count, t.next);
    assert sid in u.sessions && Cell(u.sessions[sid], Count) == Sum(all, sid, Count, t.next);
  }

  /**
   * A purge keeps every row the aggregate of what is left if and only if no call of
   * a session it rebuilds is still waiting to be folded.
   */
  lemma PurgeKeeps(t: Tables, ids: set<Id>)
    requires AllAgree(t)
    ensures AllAgree(PurgeRows(t, ids)) <==> NoneWaits(t, ids)
    ensures PurgeRows(t, ids).pending == t.pending - ids
  {
    var u := PurgeRows(t, ids);
    if NoneWaits(t, ids) {
      forall sid
        ensures Agrees(u, sid)
      {
        if sid in Affected(t, ids) && sid in t.sessions {
          PurgeRebuilds(t, ids, sid);
        } else {
          PurgeElsewhere(t, ids, sid);
        }
      }
    } else {
      var k :| k in t.pending && Waits(t, ids, k);
      PurgeCountsWaiting(t, ids, k);
    }
  }

  /** What a session's rows say does not depend on the other sessions' rows. */
  lemma RowMoves(t: Tables, u: Tables, sid: Sid)
    requires Fine(t) && u == t.(sessions := u.sessions)
    ensures HasMember(t, sid) <==> HasMember(u, sid)
    ensures forall row :: RowIs(t, sid, row) ==> RowIs(u, sid, row)
  {
    forall id
      ensures SameAt(t, u, sid, id) && (Member(t, sid, id) <==> Member(u, sid, id))
    {
    }
    forall row | RowIs(t, sid, row)
      ensures RowIs(u, sid, row)
    {
      RowFrame(t, u, sid, row);
    }
  }
}
