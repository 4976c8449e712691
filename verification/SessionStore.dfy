/**
 * Flushes and purges of the session tables, and the store that performs them
 * (internal/store/store.go, internal/consumer/consumer.go finishCall).
 */
module SessionStore {
  import opened Options
  import opened ModelSets
  import opened Texts
  import opened Sessions

  /** A captured call once prepared: its row, and how many warnings its analyzers will raise. */
  datatype Call = Call(request: Request, warned: nat)

  predicate PlainCalls(calls: seq<Call>) { forall c :: c in calls ==> Plain(c.request.model) }

  // ---------------------------------------------------------------- one flush

  /** InsertRequests: the batch's rows, ids in order. */
  function InsertAll(t: Tables, calls: seq<Call>): Tables
    decreases |calls|
  {
    if calls == [] then t else InsertAll(Insert(t, calls[0].request), calls[1..])
  }

  /**
   * finishCall: the warning rows, which a request that is gone refuses, then the
   * fold of the call in hand, whether its row is there or not.
   */
  function Finish(t: Tables, id: Id, call: Call): Tables {
    var u := if call.warned == 0 || id !in t.requests then t else Warn(t, id, call.warned);
    if call.request.session.Some? then Record(u, id, call.request, call.warned) else u
  }

  function FinishAll(t: Tables, calls: seq<Call>, id: Id): Tables
    decreases |calls|
  {
    if calls == [] then t else FinishAll(Finish(t, id, calls[0]), calls[1..], id + 1)
  }

  function FlushCalls(t: Tables, calls: seq<Call>): Tables { FinishAll(InsertAll(t, calls), calls, t.next) }

  /** At an id stands a call's row; only a call with no session may be gone. */
  predicate RowAtId(requests: map<Id, Request>, call: Call, id: Id) {
    && (id in requests ==> requests[id] == call.request)
    && (call.request.session.Some? ==> id in requests)
  }

  /** The batch's rows stand at the ids from first on. */
  predicate RowsAt(requests: map<Id, Request>, calls: seq<Call>, first: Id)
    decreases |calls|
  {
    calls == [] || (RowAtId(requests, calls[0], first) && RowsAt(requests, calls[1..], first + 1))
  }

  lemma {:induction false} RowsAtMore(requests: map<Id, Request>, calls: seq<Call>, first: Id, call: Call)
    requires RowsAt(requests, calls, first)
    ensures RowsAt(requests[first + |calls| := call.request], calls + [call], first)
    decreases |calls|
  {
    if calls == [] {
      assert calls + [call] == [call] && RowsAt(requests, [call][1..], first + 1);
    } else {
      RowsAtMore(requests, calls[1..], first + 1, call);
      assert (calls + [call])[1..] == calls[1..] + [call];
    }
  }

  /** The batch's rows stand at the ids from first on, still to be folded; beside them only others are. */
  ghost predicate Waiting(t: Tables, calls: seq<Call>, first: Id, others: set<Id>) {
    && RowsAt(t.requests, calls, first)
    && (forall id :: id in t.pending <==>
          id in others || (first <= id < first + |calls| && id in t.requests && t.requests[id].session.Some?))
    && (forall id :: id in others ==> id < first)
    && (forall id :: id in t.warnings ==> id < first)
  }

  lemma {:induction false} InsertAllWaits(t: Tables, done: seq<Call>, calls: seq<Call>, first: Id, others: set<Id>)
    requires AllAgree(t) && PlainCalls(calls) && Waiting(t, done, first, others) && t.next == first + |done|
    ensures AllAgree(InsertAll(t, calls)) && Waiting(InsertAll(t, calls), done + calls, first, others)
    ensures InsertAll(t, calls).next == first + |done| + |calls|
    decreases |calls|
  {
    if calls == [] {
      assert done + calls == done;
    } else {
      var u := Insert(t, calls[0].request);
      assert calls[0] in calls;
      InsertKeeps(t, calls[0].request);
      InsertWaits(t, done, calls[0], first, others);
      InsertAllWaits(u, done + [calls[0]], calls[1..], first, others);
      assert done + calls == done + [calls[0]] + calls[1..];
    }
  }

  lemma InsertWaits(t: Tables, done: seq<Call>, call: Call, first: Id, others: set<Id>)
    requires Fine(t) && Waiting(t, done, first, others) && t.next == first + |done|
    ensures Waiting(Insert(t, call.request), done + [call], first, others)
  {
    assert t.next !in t.requests;
    RowsAtMore(t.requests, done, first, call);
  }

  /** Finishing the batch one by one folds them all, each into a row that stays the aggregate. */
  lemma {:induction false} FinishAllKeeps(t: Tables, calls: seq<Call>, id: Id, others: set<Id>)
    requires AllAgree(t) && Waiting(t, calls, id, others)
    ensures AllAgree(FinishAll(t, calls, id)) && FinishAll(t, calls, id).pending == others
    ensures FinishAll(t, calls, id).requests == t.requests && FinishAll(t, calls, id).next == t.next
    decreases |calls|
  {
    if calls == [] {
      assert t.pending == others;
    } else {
      FinishKeeps(t, calls, id, others);
      FinishAllKeeps(Finish(t, id, calls[0]), calls[1..], id + 1, others);
    }
  }

  lemma FinishKeeps(t: Tables, calls: seq<Call>, id: Id, others: set<Id>)
    requires AllAgree(t) && Waiting(t, calls, id, others) && calls != []
    ensures var u := Finish(t, id, calls[0]);
            AllAgree(u) && Waiting(u, calls[1..], id + 1, others) && u.requests == t.requests && u.next == t.next
  {
    var call := calls[0];
    if id in t.requests {
      if call.warned > 0 {
        WarnKeeps(t, id, call.warned);
      }
      var u := if call.warned == 0 then t else Warn(t, id, call.warned);
      if u.requests[id].session.Some? {
        FoldKeeps(u, id, call.warned);
      }
    }
  }

  /** A flush leaves every session row the aggregate of the session's stored calls. */
  lemma FlushKeeps(t: Tables, calls: seq<Call>)
    requires AllAgree(t) && t.pending == {} && PlainCalls(calls)
    ensures AllAgree(FlushCalls(t, calls)) && FlushCalls(t, calls).pending == {}
  {
    InsertAllWaits(t, [], calls, t.next, {});
    assert [] + calls == calls;
    FinishAllKeeps(InsertAll(t, calls), calls, t.next, {});
  }

  lemma {:induction false} InsertAllAt(t: Tables, calls: seq<Call>, id: Id)
    requires forall k :: k in t.requests ==> k < t.next
    ensures var u := InsertAll(t, calls);
            && u.warnings == t.warnings && u.next == t.next + |calls|
            && (id in u.requests <==> id in t.requests || t.next <= id < u.next)
            && (id in t.requests ==> u.requests[id] == t.requests[id])
            && (t.next <= id < u.next ==> u.requests[id] == calls[id - t.next].request)
    decreases |calls|
  {
    if calls != [] {
      InsertAllAt(Insert(t, calls[0].request), calls[1..], id);
    }
  }

  lemma {:induction false} FinishAllWarns(t: Tables, calls: seq<Call>, first: Id, id: Id)
    requires forall k :: first <= k < first + |calls| ==> k in t.requests
    ensures var u := FinishAll(t, calls, first);
            && u.requests == t.requests && u.next == t.next
            && Warned(u, id) == Warned(t, id) + if first <= id < first + |calls| then calls[id - first].warned else 0
    decreases |calls|
  {
    if calls != [] {
      FinishAllWarns(Finish(t, first, calls[0]), calls[1..], first + 1, id);
    }
  }

  /**
   * A flush stores every call at the next free ids, in order, with as many warnings
   * as it raised, and touches no earlier row and none of its warnings.
   */
  lemma FlushStores(t: Tables, calls: seq<Call>, id: Id)
    requires forall k :: k in t.requests || k in t.warnings ==> k < t.next
    ensures var u := FlushCalls(t, calls);
            && u.next == t.next + |calls|
            && (id in u.requests <==> id in t.requests || t.next <= id < t.next + |calls|)
            && (id in t.requests ==> u.requests[id] == t.requests[id] && Warned(u, id) == Warned(t, id))
            && (t.next <= id < t.next + |calls| ==>
                  && u.requests[id] == calls[id - t.next].request
                  && (if id in u.warnings then u.warnings[id] else 0) == calls[id - t.next].warned)
  {
    var u := InsertAll(t, calls);
    forall k | t.next <= k < t.next + |calls|
      ensures k in u.requests
    {
      InsertAllAt(t, calls, k);
    }
    InsertAllAt(t, calls, id);
    FinishAllWarns(u, calls, t.next, id);
  }

  // ------------------------------------------------------------------ runs

  /** The tables with a flush under way: its calls still to be finished, and the first one's id. */
  datatype Flight = Flight(tables: Tables, todo: seq<Call>, first: Id)

  const NO_FLIGHT := Flight(NO_TABLES, [], 0)

  /** A flush's rows committed, the next of its calls finished, or a purge, at whatever moment. */
  datatype Op = Store(calls: seq<Call>) | FinishNext | Purge(ids: set<Id>)

  /** One flush at a time, plain names, and purges harmless where they fall. */
  predicate Allowed(f: Flight, op: Op) {
    match op
    case Store(calls) => f.todo == [] && PlainCalls(calls)
    case FinishNext => f.todo != []
    case Purge(ids) => Harmless(f.tables, ids)
  }

  function Perform(f: Flight, op: Op): Flight
    requires Allowed(f, op)
  {
    match op
    case Store(calls) => Flight(InsertAll(f.tables, calls), calls, f.tables.next)
    case FinishNext => Flight(Finish(f.tables, f.first, f.todo[0]), f.todo[1..], f.first + 1)
    case Purge(ids) => f.(tables := PurgeRows(f.tables, ids))
  }

  predicate Runs(f: Flight, ops: seq<Op>)
    decreases |ops|
  {
    ops == [] || (Allowed(f, ops[0]) && Runs(Perform(f, ops[0]), ops[1..]))
  }

  function Run(f: Flight, ops: seq<Op>): Flight
    requires Runs(f, ops)
    decreases |ops|
  {
    if ops == [] then f else Run(Perform(f, ops[0]), ops[1..])
  }

  /** Every row is the aggregate of the folded calls, and what is not folded is the flush under way. */
  ghost predicate InFlight(f: Flight) {
    AllAgree(f.tables) && Waiting(f.tables, f.todo, f.first, {})
  }

  lemma OpKeeps(f: Flight, op: Op)
    requires InFlight(f) && Allowed(f, op)
    ensures InFlight(Perform(f, op))
  {
    match op
    case Store(calls) =>
      InsertAllWaits(f.tables, [], calls, f.tables.next, {});
      assert [] + calls == calls;
    case FinishNext => FinishKeeps(f.tables, f.todo, f.first, {});
    case Purge(ids) => HarmlessWaits(f.tables, f.todo, f.first, ids);
  }

  lemma {:induction false} RunKeeps(f: Flight, ops: seq<Op>)
    requires InFlight(f) && Runs(f, ops)
    ensures InFlight(Run(f, ops))
    decreases |ops|
  {
    if ops != [] {
      OpKeeps(f, ops[0]);
      RunKeeps(Perform(f, ops[0]), ops[1..]);
    }
  }

  /** Whatever runs, no warning names a request that is gone. */
  lemma {:induction false} RunLeavesNoOrphans(f: Flight, ops: seq<Op>)
    requires Runs(f, ops) && forall id :: id in f.tables.warnings ==> id in f.tables.requests
    ensures forall id :: id in Run(f, ops).tables.warnings ==> id in Run(f, ops).tables.requests
    decreases |ops|
  {
    if ops != [] {
      if ops[0].Store? {
        InsertAllAdds(f.tables, ops[0].calls);
      }
      RunLeavesNoOrphans(Perform(f, ops[0]), ops[1..]);
    }
  }

  lemma {:induction false} InsertAllAdds(t: Tables, calls: seq<Call>)
    ensures t.requests.Keys <= InsertAll(t, calls).requests.Keys && InsertAll(t, calls).warnings == t.warnings
    decreases |calls|
  {
    if calls != [] {
      InsertAllAdds(Insert(t, calls[0].request), calls[1..]);
    }
  }

  /** The steps that finish a flush's calls. */
  function Finishes(n: nat): seq<Op> { if n == 0 then [] else [FinishNext] + Finishes(n - 1) }

  lemma {:induction false} FinishesAll(f: Flight)
    ensures Runs(f, Finishes(|f.todo|))
    ensures Run(f, Finishes(|f.todo|)) == Flight(FinishAll(f.tables, f.todo, f.first), [], f.first + |f.todo|)
    decreases |f.todo|
  {
    if f.todo != [] {
      assert Finishes(|f.todo|)[1..] == Finishes(|f.todo| - 1);
      FinishesAll(Perform(f, FinishNext));
    }
  }

  /** A whole flush is the run that commits its rows and finishes its calls. */
  lemma FlushIsARun(f: Flight, calls: seq<Call>)
    requires f.todo == [] && PlainCalls(calls)
    ensures var ops := [Store(calls)] + Finishes(|calls|);
            Runs(f, ops) && Run(f, ops) == Flight(FlushCalls(f.tables, calls), [], f.tables.next + |calls|)
  {
    var g := Perform(f, Store(calls));
    FinishesAll(g);
    assert ([Store(calls)] + Finishes(|calls|))[1..] == Finishes(|calls|);
  }

  /** The stored calls of a session. */
  function CallsOf(t: Tables, sid: Sid): set<Id> { set id | id in t.requests && t.requests[id].session == Some(sid) }

  /**
   * After any run of flushes, each step by step, and of any number of purges, at any
   * moment where they are harmless: with no flush under way a session has a row
   * exactly when it has stored calls; the row counts them, and each column is their
   * sum, first and last call time, and set of model names.
   */
  lemma RowsAgree(ops: seq<Op>, sid: Sid)
    requires Runs(NO_FLIGHT, ops) && Run(NO_FLIGHT, ops).todo == []
    ensures var t := Run(NO_FLIGHT, ops).tables;
            && (sid in t.sessions <==> CallsOf(t, sid) != {})
            && (sid in t.sessions ==>
                  && t.sessions[sid].count == |CallsOf(t, sid)|
                  && RowIs(t, sid, t.sessions[sid]))
  {
    EmptyAgrees();
    RunKeeps(NO_FLIGHT, ops);
    var t := Run(NO_FLIGHT, ops).tables;
    assert t.pending == {};
    assert Agrees(t, sid);
    if id :| Member(t, sid, id) {
      assert id in CallsOf(t, sid);
    }
    if id :| id in CallsOf(t, sid) {
      assert Member(t, sid, id);
    }
    if sid in t.sessions {
      CountIsNumber(t, sid, t.next);
      assert CallsOf(t, sid) == set id: Id | id < t.next && Member(t, sid, id);
      assert Cell(t.sessions[sid], Count) == Sum(t, sid, Count, t.next);
    }
  }

  lemma EmptyAgrees()
    ensures AllAgree(NO_TABLES)
  {
    forall sid
      ensures Agrees(NO_TABLES, sid)
    {
      assert !HasMember(NO_TABLES, sid);
    }
  }

  // ------------------------------------------------------ the order of folding

  function FoldAll(t: Tables, ids: seq<Id>): Tables
    requires forall id :: id in ids ==> id in t.requests && t.requests[id].session.Some?
    decreases |ids|
  {
    if ids == [] then t else FoldAll(Fold(t, ids[0], Warned(t, ids[0])), ids[1..])
  }

  function Elements(ids: seq<Id>): set<Id> { set id | id in ids }

  predicate Foldable(t: Tables, ids: seq<Id>) {
    && (forall id :: id in ids ==> id in t.pending && id in t.requests && t.requests[id].session.Some?)
    && (forall i, j :: 0 <= i < j < |ids| ==> ids[i] != ids[j])
  }

  lemma {:induction false} FoldAllKeeps(t: Tables, ids: seq<Id>)
    requires AllAgree(t) && Foldable(t, ids)
    ensures AllAgree(FoldAll(t, ids))
    ensures FoldAll(t, ids) == t.(sessions := FoldAll(t, ids).sessions, pending := t.pending - Elements(ids))
    decreases |ids|
  {
    if ids == [] {
      assert t.pending - Elements(ids) == t.pending;
    } else {
      var u := Fold(t, ids[0], Warned(t, ids[0]));
      assert ids[0] in ids;
      FoldKeeps(t, ids[0], Warned(t, ids[0]));
      assert Foldable(u, ids[1..]) by {
        forall id | id in ids[1..]
          ensures id in u.pending
        {
          assert id in ids;
        }
      }
      FoldAllKeeps(u, ids[1..]);
      assert Elements(ids) == {ids[0]} + Elements(ids[1..]);
      assert t.pending - Elements(ids) == u.pending - Elements(ids[1..]);
    }
  }

  /** The same totals: all but the order the model names are written in, and the prefix the first call set. */
  predicate SameTotals(a: Row, b: Row) {
    a == b.(prefix := a.prefix, models := a.models) && Models(a.models) == Models(b.models)
  }

  lemma RowUnique(t: Tables, u: Tables, sid: Sid, a: Row, b: Row)
    requires RowIs(t, sid, a) && RowIs(u, sid, b) && u == t.(sessions := u.sessions) && Fine(t)
    ensures SameTotals(a, b)
  {
    assert t == u.(sessions := t.sessions) && Fine(u);
    RowMoves(u, t, sid);
    assert RowIs(t, sid, b);
    forall c
      ensures Cell(a, c) == Cell(b, c)
    {
    }
    assert Cell(a, Count) == Cell(b, Count) && Cell(a, Input) == Cell(b, Input) && Cell(a, Output) == Cell(b, Output)
        && Cell(a, Cost) == Cell(b, Cost) && Cell(a, Priced) == Cell(b, Priced)
            && Cell(a, Unpriced) == Cell(b, Unpriced)
        && Cell(a, WarningCount) == Cell(b, WarningCount);
  }

  /** Folding the same stored calls in any two orders gives the same sessions with the same totals. */
  lemma FoldOrderDoesNotMatter(t: Tables, a: seq<Id>, b: seq<Id>, sid: Sid)
    requires AllAgree(t) && Foldable(t, a) && Foldable(t, b) && Elements(a) == Elements(b)
    ensures sid in FoldAll(t, a).sessions <==> sid in FoldAll(t, b).sessions
    ensures sid in FoldAll(t, a).sessions ==>
              var one, two := FoldAll(t, a).sessions[sid], FoldAll(t, b).sessions[sid];
              && one.first == two.first && one.last == two.last && one.count == two.count
              && one.input == two.input && one.output == two.output && one.cost == two.cost
              && one.priced == two.priced && one.unpriced == two.unpriced && one.warned == two.warned
              && Models(one.models) == Models(two.models)
  {
    FoldAllKeeps(t, a);
    FoldAllKeeps(t, b);
    var u, v := FoldAll(t, a), FoldAll(t, b);
    assert Agrees(u, sid) && Agrees(v, sid);
    assert u.pending == v.pending;
    RowMoves(u, v, sid);
    if sid in u.sessions {
      RowUnique(u, v, sid, u.sessions[sid], v.sessions[sid]);
    }
  }

  // ------------------------------------------------- a purge inside a flush

  /** How many calls of the batch are of a session. */
  function Belonging(calls: seq<Call>, sid: Sid): nat {
    if calls == [] then 0
    else (if calls[0].request.session == Some(sid) then 1 else 0) + Belonging(calls[1..], sid)
  }

  function CountOf(t: Tables, sid: Sid): int { if sid in t.sessions then t.sessions[sid].count else 0 }

  /** Each fold of a call counts it in its session, stored still or not. */
  lemma {:induction false} FinishAllCounts(t: Tables, calls: seq<Call>, id: Id, sid: Sid)
    ensures CountOf(FinishAll(t, calls, id), sid) == CountOf(t, sid) + Belonging(calls, sid)
    ensures FinishAll(t, calls, id).requests == t.requests && FinishAll(t, calls, id).next == t.next
    decreases |calls|
  {
    if calls != [] {
      var u := Finish(t, id, calls[0]);
      assert CountOf(u, sid) == CountOf(t, sid) + if calls[0].request.session == Some(sid) then 1 else 0;
      FinishAllCounts(u, calls[1..], id + 1, sid);
    }
  }

  /** The ids of a session's calls in a batch that stands from first on. */
  function StandAt(requests: map<Id, Request>, first: Id, n: nat, sid: Sid): set<Id> {
    set id: Id | first <= id < first + n && id in requests && requests[id].session == Some(sid)
  }

  lemma {:induction false} StandingCalls(requests: map<Id, Request>, calls: seq<Call>, first: Id, sid: Sid)
    requires RowsAt(requests, calls, first)
    ensures |StandAt(requests, first, |calls|, sid)| == Belonging(calls, sid)
    decreases |calls|
  {
    var all := StandAt(requests, first, |calls|, sid);
    if calls == [] {
      assert all == {};
    } else {
      var rest := StandAt(requests, first + 1, |calls| - 1, sid);
      StandingCalls(requests, calls[1..], first + 1, sid);
      assert all == rest + if calls[0].request.session == Some(sid) then {first} else {};
    }
  }

  /** What a rebuild counts is what is stored. */
  lemma PurgeCounts(t: Tables, ids: set<Id>, sid: Sid)
    requires Fine(t) && sid in Affected(t, ids) && sid in t.sessions
    ensures CountOf(PurgeRows(t, ids), sid) == |CallsOf(PurgeRows(t, ids), sid)|
  {
    var u, all := PurgeRows(t, ids), AllStored(Remaining(t, ids));
    CountIsNumber(all, sid, t.next);
    assert CallsOf(u, sid) == set id: Id | id < t.next && Member(all, sid, id);
  }

  /**
   * A session without a row has no stored calls but waiting ones, and a purge that takes one leaves
   * fewer than will be folded.
   */
  lemma PurgeLeavesFewer(t: Tables, calls: seq<Call>, first: Id, ids: set<Id>, sid: Sid)
    requires AllAgree(t) && Waiting(t, calls, first, {}) && sid in Affected(t, ids) && sid !in t.sessions
    ensures |CallsOf(PurgeRows(t, ids), sid)| < Belonging(calls, sid)
  {
    var u, all := PurgeRows(t, ids), StandAt(t.requests, first, |calls|, sid);
    StandingCalls(t.requests, calls, first, sid);
    assert Agrees(t, sid);
    var j :| j in ids && j in t.requests && t.requests[j].session == Some(sid);
    forall id | id in t.requests && t.requests[id].session == Some(sid)
      ensures id in all
    {
      assert !Member(t, sid, id);
    }
    assert CallsOf(u, sid) <= all - {j};
    SmallerSet(CallsOf(u, sid), all - {j});
  }

  /** More counted than stored: the row is no aggregate. */
  lemma CountedTooOften(t: Tables, sid: Sid)
    requires Fine(t) && CountOf(t, sid) > |CallsOf(t, sid)|
    ensures !Agrees(t, sid)
  {
    CountIsNumber(t, sid, t.next);
    var folded := set id: Id | id < t.next && Member(t, sid, id);
    assert folded <= CallsOf(t, sid);
    SmallerSet(folded, CallsOf(t, sid));
    if sid in t.sessions {
      assert Cell(t.sessions[sid], Count) > Sum(t, sid, Count, t.next);
    }
  }

  lemma {:induction false} RowsAtLess(requests: map<Id, Request>, calls: seq<Call>, first: Id, ids: set<Id>)
    requires RowsAt(requests, calls, first)
    requires forall id :: id in ids && id in requests && first <= id < first + |calls| ==> requests[id].session.None?
    ensures RowsAt(requests - ids, calls, first)
    decreases |calls|
  {
    if calls != [] {
      RowsAtLess(requests, calls[1..], first + 1, ids);
    }
  }

  /** No waiting call is of a session that loses one. */
  predicate Harmless(t: Tables, ids: set<Id>) {
    forall id :: id in t.pending && id in t.requests && t.requests[id].session.Some? ==>
        t.requests[id].session.value !in Affected(t, ids)
  }

  lemma HarmlessWaits(t: Tables, calls: seq<Call>, first: Id, ids: set<Id>)
    requires AllAgree(t) && Waiting(t, calls, first, {}) && Harmless(t, ids)
    ensures AllAgree(PurgeRows(t, ids)) && Waiting(PurgeRows(t, ids), calls, first, {})
  {
    PurgeKeeps(t, ids);
    forall id | id in ids && id in t.requests && t.requests[id].session.Some?
      ensures id !in t.pending
    {
      assert t.requests[id].session.value in Affected(t, ids);
    }
    RowsAtLess(t.requests, calls, first, ids);
    assert t.pending - ids == t.pending;
  }

  lemma HarmfulParts(t: Tables, calls: seq<Call>, first: Id, ids: set<Id>, k: Id)
    requires AllAgree(t) && Waiting(t, calls, first, {}) && k in t.pending && k in t.requests
    requires t.requests[k].session.Some? && t.requests[k].session.value in Affected(t, ids)
    ensures var v := FinishAll(PurgeRows(t, ids), calls, first);
            CountOf(v, t.requests[k].session.value) > |CallsOf(v, t.requests[k].session.value)|
  {
    var sid, u := t.requests[k].session.value, PurgeRows(t, ids);
    FinishAllCounts(u, calls, first, sid);
    StandingCalls(t.requests, calls, first, sid);
    assert k in StandAt(t.requests, first, |calls|, sid);
    if sid in t.sessions {
      PurgeCounts(t, ids, sid);
    } else {
      PurgeLeavesFewer(t, calls, first, ids, sid);
    }
  }

  /**
   * A purge while calls of a flush wait to be folded, and then the folds: every row
   * is the aggregate of what is stored if and only if no waiting call, purged
   * itself or not, is of a session that loses a call.
   */
  lemma PurgeInsideAFlush(t: Tables, calls: seq<Call>, first: Id, ids: set<Id>)
    requires AllAgree(t) && Waiting(t, calls, first, {})
    ensures AllAgree(FinishAll(PurgeRows(t, ids), calls, first)) <==> Harmless(t, ids)
    ensures Harmless(t, ids) ==> FinishAll(PurgeRows(t, ids), calls, first).pending == {}
  {
    var v := FinishAll(PurgeRows(t, ids), calls, first);
    if Harmless(t, ids) {
      HarmlessWaits(t, calls, first, ids);
      FinishAllKeeps(PurgeRows(t, ids), calls, first, {});
    } else {
      var k :| k in t.pending && k in t.requests && t.requests[k].session.Some?
          && t.requests[k].session.value in Affected(t, ids);
      HarmfulParts(t, calls, first, ids, k);
      if Fine(v) {
        CountedTooOften(v, t.requests[k].session.value);
      }
    }
  }

  lemma {:induction false} FinishSome(t: Tables, done: seq<Call>, rest: seq<Call>, id: Id)
    requires AllAgree(t) && Waiting(t, done + rest, id, {})
    ensures AllAgree(FinishAll(t, done, id)) && Waiting(FinishAll(t, done, id), rest, id + |done|, {})
    decreases |done|
  {
    if done == [] {
      assert done + rest == rest;
    } else {
      assert (done + rest)[1..] == done[1..] + rest && (done + rest)[0] == done[0];
      FinishKeeps(t, done + rest, id, {});
      FinishSome(Finish(t, id, done[0]), done[1..], rest, id + 1);
    }
  }

  /** A flush's tables when its first k calls have been folded. */
  function HalfFlushed(t: Tables, calls: seq<Call>, k: nat): Tables
    requires k <= |calls|
  {
    FinishAll(InsertAll(t, calls), calls[..k], t.next)
  }

  lemma HalfWaits(t: Tables, calls: seq<Call>, k: nat)
    requires AllAgree(t) && t.pending == {} && PlainCalls(calls) && k <= |calls|
    ensures AllAgree(HalfFlushed(t, calls, k)) && Waiting(HalfFlushed(t, calls, k), calls[k..], t.next + k, {})
  {
    InsertAllWaits(t, [], calls, t.next, {});
    assert [] + calls == calls && calls[..k] + calls[k..] == calls;
    FinishSome(InsertAll(t, calls), calls[..k], calls[k..], t.next);
  }

  lemma HalfInFlight(t: Tables, calls: seq<Call>, k: nat, f: Flight)
    requires AllAgree(t) && t.pending == {} && PlainCalls(calls) && k <= |calls|
    requires f == Flight(HalfFlushed(t, calls, k), calls[k..], t.next + k)
    ensures InFlight(f)
  {
    HalfWaits(t, calls, k);
  }

  lemma FlightAroundAPurge(f: Flight, ids: set<Id>, done: Tables)
    requires done == FinishAll(PurgeRows(f.tables, ids), f.todo, f.first)
    ensures InFlight(f) ==> (AllAgree(done) <==> Harmless(f.tables, ids))
    ensures InFlight(f) && Harmless(f.tables, ids) ==> done.pending == {}
  {
    if InFlight(f) {
      PurgeInsideAFlush(f.tables, f.todo, f.first, ids);
    }
  }

  /**
   * A whole flush with a purge after k of its folds leaves every row an aggregate exactly when the
   * purge is harmless there.
   */
  lemma FlushAroundAPurge(t: Tables, calls: seq<Call>, k: nat, ids: set<Id>, f: Flight, done: Tables)
    requires AllAgree(t) && t.pending == {} && PlainCalls(calls) && k <= |calls|
    requires f == Flight(HalfFlushed(t, calls, k), calls[k..], t.next + k)
    requires done == FinishAll(PurgeRows(f.tables, ids), f.todo, f.first)
    ensures AllAgree(done) <==> Harmless(f.tables, ids)
    ensures Harmless(f.tables, ids) ==> done.pending == {}
  {
    HalfInFlight(t, calls, k, f);
    FlightAroundAPurge(f, ids, done);
  }

  /** A purge between a flush's row commit and its folds counts the waiting call twice. */
  lemma PurgeMidFlushCountsTwice(r: Request)
    requires r.session == Some("s") && Plain(r.model)
    ensures var t := Tables(map[0 := r, 1 := r], map[], map["s" := Delta(r, "s", 0)], {1}, 2);
            var u := Fold(PurgeRows(t, {0}), 1, 0);
            AllAgree(t) && CallsOf(u, "s") == {1} && u.sessions["s"].count == 2
  {
    var t := Tables(map[0 := r, 1 := r], map[], map["s" := Delta(r, "s", 0)], {1}, 2);
    var bare := Tables(map[0 := r, 1 := r], map[], map[], {0, 1}, 2);
    assert AllAgree(bare) by {
      forall sid
        ensures Agrees(bare, sid)
      {
        assert !HasMember(bare, sid);
      }
    }
    FoldKeeps(bare, 0, 0);
    assert Fold(bare, 0, 0) == t;
    var left := Remaining(t, {0});
    assert 0 in t.requests && "s" in Affected(t, {0});
    var all := AllStored(left);
    assert !Member(all, "s", 0) && Member(all, "s", 1);
    assert Sum(all, "s", Count, 0) == 0;
    assert Sum(all, "s", Count, 1) == 0;
    assert Sum(all, "s", Count, 2) == 1;
  }

  // ------------------------------------------------------------------ the store

  lemma {:induction false} ExtremesFrame(t: Tables, u: Tables, sid: Sid, n: nat)
    requires forall id: Id :: id < n ==> SameAt(t, u, sid, id)
    ensures FirstAt(t, sid, n) == FirstAt(u, sid, n) && LastAt(t, sid, n) == LastAt(u, sid, n)
            && Names(t, sid, n) == Names(u, sid, n)
  {
    if n > 0 {
      ExtremesFrame(t, u, sid, n - 1);
      assert SameAt(t, u, sid, n - 1);
    }
  }

  /** The rebuild of one session reads no other session's row. */
  lemma RebuiltFrame(t: Tables, u: Tables, sid: Sid)
    requires u == t.(sessions := u.sessions) && (sid in t.sessions <==> sid in u.sessions)
    requires sid in t.sessions ==> t.sessions[sid] == u.sessions[sid]
    ensures Rebuilt(t, sid) == Rebuilt(u, sid)
  {
    var a, b := AllStored(t), AllStored(u);
    forall id: Id
      ensures SameAt(a, b, sid, id)
    {
    }
    forall c
      ensures Sum(a, sid, c, t.next) == Sum(b, sid, c, t.next)
    {
      SumFrame(a, b, sid, c, t.next);
    }
    ExtremesFrame(a, b, sid, t.next);
  }

  /** The row of a session, if it has one. */
  function RowAt(sessions: map<Sid, Row>, sid: Sid): Option<Row> {
    if sid in sessions then Some(sessions[sid]) else None
  }

  class SessionTables {
    var requests: map<Id, Request>
    var warnings: map<Id, nat>
    var sessions: map<Sid, Row>
    var next: Id
    ghost var pending: set<Id>

    ghost function Now(): Tables
      reads this
    {
      Tables(requests, warnings, sessions, pending, next)
    }

    /** Every session row is the aggregate of the session's folded calls. */
    ghost predicate Valid()
      reads this
    {
      AllAgree(Now())
    }

    constructor ()
      ensures Valid() && Now() == NO_TABLES
    {
      requests, warnings, sessions, next, pending := map[], map[], map[], 0, {};
      EmptyAgrees();
    }

    /** One transaction; the rows get consecutive ids. */
    method InsertRequests(calls: seq<Call>) returns (first: Id)
      modifies this`requests, this`next, this`pending
      ensures first == old(next) && Now() == InsertAll(old(Now()), calls)
    {
      first := next;
      var i := 0;
      while i < |calls|
        invariant 0 <= i <= |calls| && InsertAll(Now(), calls[i..]) == InsertAll(old(Now()), calls)
      {
        var r := calls[i].request;
        ghost var t := Now();
        requests := requests[next := r];
        if r.session.Some? {
          pending := pending + {next};
        }
        next := next + 1;
        assert Now() == Insert(t, r) && calls[i..][1..] == calls[i + 1..];
        i := i + 1;
      }
    }

    method InsertWarnings(id: Id, n: nat)
      modifies this`warnings
      ensures Now() == Warn(old(Now()), id, n)
    {
      warnings := warnings[id := n + if id in warnings then warnings[id] else 0];
    }

    /** INSERT, or on conflict add column by column. */
    method UpsertSession(sid: Sid, d: Row)
      modifies this`sessions
      ensures sessions == Upsert(old(sessions), sid, d)
    {
      if sid !in sessions {
        sessions := sessions[sid := d];
        return;
      }
      var row := sessions[sid];
      var models := row.models;
      if d.models != "" && !Contains("," + models + ",", "," + d.models + ",") {
        models := if models == "" then d.models else models + "," + d.models;
      }
      sessions := sessions[sid := row.(
        first := if d.first < row.first then d.first else row.first,
        last := if d.last > row.last then d.last else row.last,
        count := row.count + d.count, input := row.input + d.input, output := row.output + d.output,
        cost := row.cost + d.cost, priced := row.priced + d.priced, unpriced := row.unpriced + d.unpriced,
        models := models, warned := row.warned + d.warned)];
    }

    /** A call folded into its session. */
    method RecordCall(sid: Sid, ghost id: Id, r: Request, warned: nat)
      requires r.session == Some(sid)
      modifies this`sessions, this`pending
      ensures Now() == Record(old(Now()), id, r, warned)
      ensures sid in sessions && forall other :: other != sid ==> RowAt(sessions, other) == RowAt(old(sessions), other)
      ensures var row, was := sessions[sid], RowAt(old(sessions), sid);
              if was.None?
                then row == Row(if r.header == Some(sid) then None else Some(r.prefix), r.at, r.at, 1,
                                r.input, r.output, if r.cost.Some? then r.cost.value else 0,
                                if r.cost.Some? then 1 else 0, if r.cost.Some? then 0 else 1, r.model, warned)
                else && row.prefix == was.value.prefix && row.count == was.value.count + 1
                     && row.input == was.value.input + r.input && row.output == was.value.output + r.output
                     && row.cost == was.value.cost + (if r.cost.Some? then r.cost.value else 0)
                     && row.priced == was.value.priced + (if r.cost.Some? then 1 else 0)
                     && row.unpriced == was.value.unpriced + (if r.cost.Some? then 0 else 1)
                     && row.warned == was.value.warned + warned
                     && row.first == (if r.at < was.value.first then r.at else was.value.first)
                     && row.last == (if r.at > was.value.last then r.at else was.value.last)
    {
      var prefix := if r.header.None? || r.header.value != sid then Some(r.prefix) else None;
      var priced, cost := 0, 0;
      if r.cost.Some? {
        priced, cost := 1, r.cost.value;
      }
      UpsertSession(sid, Row(prefix, r.at, r.at, 1, r.input, r.output, cost, priced, 1 - priced, r.model, warned));
      pending := pending - {id};
    }

    /** The second half of one call: its warning rows, then its fold. */
    method FinishCall(call: Call, id: Id)
      modifies this`warnings, this`sessions, this`pending
      ensures Now() == Finish(old(Now()), id, call)
    {
      if call.warned > 0 && id in requests {
        InsertWarnings(id, call.warned);
      }
      if call.request.session.Some? {
        RecordCall(call.request.session.value, id, call.request, call.warned);
      }
    }

    /** The batch's second halves, one call after another. */
    method FinishCalls(calls: seq<Call>, first: Id)
      requires Valid() && Waiting(Now(), calls, first, {})
      modifies this`warnings, this`sessions, this`pending
      ensures Now() == FinishAll(old(Now()), calls, first)
    {
      var i := 0;
      while i < |calls|
        invariant 0 <= i <= |calls| && Valid() && Waiting(Now(), calls[i..], first + i, {})
        invariant FinishAll(Now(), calls[i..], first + i) == FinishAll(old(Now()), calls, first)
      {
        ghost var rest := calls[i..];
        FinishKeeps(Now(), rest, first + i, {});
        FinishCall(calls[i], first + i);
        assert rest[1..] == calls[i + 1..];
        i := i + 1;
      }
    }

    /** A flush: one transaction of rows, then each call's warnings and fold. */
    method Flush(calls: seq<Call>)
      requires Valid() && pending == {} && PlainCalls(calls)
      modifies this
      ensures Valid() && pending == {} && Now() == FlushCalls(old(Now()), calls)
    {
      FlushKeeps(Now(), calls);
      InsertAllWaits(Now(), [], calls, next, {});
      assert [] + calls == calls;
      var first := InsertRequests(calls);
      FinishCalls(calls, first);
    }

    /** reconcileSession: the row rebuilt from what is stored, or deleted. */
    method ReconcileSession(sid: Sid)
      modifies this`sessions
      ensures RowAt(sessions, sid) == Rebuilt(old(Now()), sid)
      ensures forall other :: other != sid ==> RowAt(sessions, other) == RowAt(old(sessions), other)
    {
      ghost var t := Now();
      var stored := Tables(requests, warnings, sessions, {}, next);
      var count := Sum(stored, sid, Count, next);
      CountIsNumber(stored, sid, next);
      if count == 0 {
        sessions := sessions - {sid};
        return;
      }
      var first, last := FirstAt(stored, sid, next), LastAt(stored, sid, next);
      var models := Join(Names(stored, sid, next), ',');
      if sid in sessions {
        sessions := sessions[sid := sessions[sid].(
          first := if first.Some? then first.value else 0, last := if last.Some? then last.value else 0, count := count,
          input := Sum(stored, sid, Input, next), output := Sum(stored, sid, Output, next),
          cost := Sum(stored, sid, Cost, next), priced := Sum(stored, sid, Priced, next),
          unpriced := Sum(stored, sid, Unpriced, next),
          models := models, warned := Sum(stored, sid, WarningCount, next))];
      }
    }

    /** Each affected session in turn, in any order. */
    method ReconcileAll(hit: set<Sid>)
      modifies this`sessions
      ensures forall sid :: RowAt(sessions, sid) == if sid in hit then Rebuilt(old(Now()), sid)
              else RowAt(old(sessions), sid)
    {
      ghost var left := Now();
      var todo := hit;
      while todo != {}
        invariant todo <= hit
        invariant forall sid :: RowAt(sessions, sid) == if sid in hit - todo then Rebuilt(left, sid)
                  else RowAt(left.sessions, sid)
        decreases todo
      {
        var sid :| sid in todo;
        assert RowAt(sessions, sid) == RowAt(left.sessions, sid);
        RebuiltFrame(left, Now(), sid);
        ReconcileSession(sid);
        todo := todo - {sid};
      }
    }

    /**
     * purgeWhere: the matching rows and their warnings deleted, and each session
     * that lost one rebuilt. The rows are aggregates after it if and only if no call
     * of a rebuilt session was waiting to be folded.
     */
    method PurgeWhere(where: (Id, Request) -> bool) returns (deleted: nat, reconciled: nat)
      requires Valid()
      modifies this`requests, this`warnings, this`sessions, this`pending
      ensures var ids := old(set id | id in requests && where(id, requests[id]));
              Now() == PurgeRows(old(Now()), ids) && deleted == |ids| && (Valid() <==> NoneWaits(old(Now()), ids))
      ensures forall id :: id in requests <==> id in old(requests) && !where(id, old(requests)[id])
      ensures forall id :: id in requests ==> requests[id] == old(requests)[id]
      ensures forall id :: id in warnings <==>
                id in old(warnings) && !(id in old(requests) && where(id, old(requests)[id]))
      ensures forall id :: id in warnings ==> warnings[id] == old(warnings)[id]
      ensures var hit := old(set id | id in requests && where(id, requests[id]) && requests[id].session.Some?
                               :: requests[id].session.value);
              && reconciled == |hit|
              && (forall sid :: sid in sessions ==>
                    sid in old(sessions) && sessions[sid].prefix == old(sessions)[sid].prefix)
              && (forall sid :: sid in old(sessions) && sid !in hit ==>
                    sid in sessions && sessions[sid] == old(sessions)[sid])
    {
      var ids := set id | id in requests && where(id, requests[id]);
      var hit := Affected(Tables(requests, warnings, sessions, {}, next), ids);
      ghost var t := Now();
      PurgeKeeps(t, ids);
      requests, warnings, pending := requests - ids, warnings - ids, pending - ids;
      ghost var left := Now();
      ReconcileAll(hit);
      SameRows(t, left, sessions, ids);
      deleted, reconciled := |ids|, |hit|;
      PurgedPlainly(t, Now(), where, hit);
    }
  }

  /** What a purge does to rows, warnings and other sessions, said of each alone. */
  lemma PurgedPlainly(t: Tables, u: Tables, where: (Id, Request) -> bool, hit: set<Sid>)
    requires Fine(t) && u == PurgeRows(t, set id | id in t.requests && where(id, t.requests[id]))
    requires hit == Affected(t, set id | id in t.requests && where(id, t.requests[id]))
    ensures forall id :: id in u.requests <==> id in t.requests && !where(id, t.requests[id])
    ensures forall id :: id in u.requests ==> u.requests[id] == t.requests[id]
    ensures forall id :: id in u.warnings <==> id in t.warnings && !(id in t.requests && where(id, t.requests[id]))
    ensures forall id :: id in u.warnings ==> u.warnings[id] == t.warnings[id]
    ensures hit == set id | id in t.requests && where(id, t.requests[id]) && t.requests[id].session.Some?
                     :: t.requests[id].session.value
    ensures forall sid :: sid in u.sessions ==> sid in t.sessions && u.sessions[sid].prefix == t.sessions[sid].prefix
    ensures forall sid :: sid in t.sessions && sid !in hit ==> sid in u.sessions && u.sessions[sid] == t.sessions[sid]
  {
  }

  lemma SameRows(t: Tables, left: Tables, sessions: map<Sid, Row>, ids: set<Id>)
    requires left == Remaining(t, ids)
    requires forall sid :: RowAt(sessions, sid) == if sid in Affected(t, ids) then Rebuilt(left, sid)
             else RowAt(left.sessions, sid)
    ensures sessions == PurgeRows(t, ids).sessions
  {
    var u := PurgeRows(t, ids).sessions;
    forall sid
      ensures (sid in sessions <==> sid in u) && (sid in u ==> sessions[sid] == u[sid])
    {
      assert RowAt(sessions, sid) == if sid in Affected(t, ids) then Rebuilt(left, sid) else RowAt(left.sessions, sid);
    }
  }
}
