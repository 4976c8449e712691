/**
 * The consumer's store writes: one grouped transaction, a row-by-row fallback,
 * and the counters (internal/consumer/consumer.go). The store may fail or panic
 * at any write; a write that does not succeed leaves no row.
 */
module Consumer {
  datatype Outcome = Ok | Failed | Panicked

  /** What will happen to one call: in the first half, at its own insert, and in the second half. */
  datatype Fate = Fate(prepared: bool, insert: Outcome, warned: Outcome, finished: Outcome)

  datatype Job<C> = Job(call: C, fate: Fate)

  /**
   * The grouped write: not offered by the store, committed, or stopped (by an error
   * or a panic, which is turned into one) before a row, or at the commit.
   */
  datatype Group = NotOffered | Commits | StopsAt(row: nat)

  // ------------------------------------------------------------------ reference

  function Prepared<C>(jobs: seq<Job<C>>): seq<Job<C>> {
    if jobs == [] then []
    else (if jobs[0].fate.prepared then [jobs[0]] else []) + Prepared(jobs[1..])
  }

  /** The rows that land one by one. */
  function Single<C>(pend: seq<Job<C>>): seq<Job<C>> {
    if pend == [] then []
    else (if pend[0].fate.insert.Ok? then [pend[0]] else []) + Single(pend[1..])
  }

  function Landed<C>(pend: seq<Job<C>>, group: Group): seq<Job<C>> {
    if group.Commits? then pend else Single(pend)
  }

  function Calls<C>(jobs: seq<Job<C>>): seq<C> {
    if jobs == [] then [] else [jobs[0].call] + Calls(jobs[1..])
  }

  /** What the second half of one call adds to the failure count: a failed warnings write, and a panic. */
  function Mishaps(fate: Fate): nat {
    (if fate.warned.Failed? then 1 else 0) + (if fate.warned.Panicked? || fate.finished.Panicked? then 1 else 0)
  }

  function AllMishaps<C>(jobs: seq<Job<C>>): nat {
    if jobs == [] then 0 else Mishaps(jobs[0].fate) + AllMishaps(jobs[1..])
  }

  lemma {:induction false} CallsConcat<C>(a: seq<Job<C>>, b: seq<Job<C>>)
    ensures Calls(a + b) == Calls(a) + Calls(b)
    ensures AllMishaps(a + b) == AllMishaps(a) + AllMishaps(b)
  {
    if a == [] {
      assert a + b == b;
    } else {
      assert (a + b)[1..] == a[1..] + b;
      CallsConcat(a[1..], b);
    }
  }

  lemma OneCall<C>(job: Job<C>)
    ensures Calls([job]) == [job.call] && AllMishaps([job]) == Mishaps(job.fate)
    ensures Single([job]) == if job.fate.insert.Ok? then [job] else []
  {
    assert [job][1..] == [];
  }

  lemma Assoc<T>(a: seq<T>, b: seq<T>, c: seq<T>)
    ensures (a + b) + c == a + (b + c)
  {
  }

  lemma {:induction false} SingleConcat<C>(a: seq<Job<C>>, b: seq<Job<C>>)
    ensures Single(a + b) == Single(a) + Single(b)
  {
    if a == [] {
      assert a + b == b;
    } else {
      var t := a[1..];
      assert (a + b)[1..] == t + b;
      SingleConcat(t, b);
      var first := if a[0].fate.insert.Ok? then [a[0]] else [];
      Assoc(first, Single(t), Single(b));
    }
  }

  lemma {:induction false} AllLand<C>(pend: seq<Job<C>>)
    requires forall j :: j in pend ==> j.fate.insert.Ok?
    ensures Single(pend) == pend
  {
    if pend != [] {
      assert pend[0] in pend;
      AllLand(pend[1..]);
    }
  }

  /** One bad row costs only itself: whether or not the group was tried, every other row of the batch lands. */
  lemma OneBadRow<C>(a: seq<Job<C>>, bad: Job<C>, b: seq<Job<C>>, group: Group)
    requires !bad.fate.insert.Ok? && !group.Commits?
    requires (forall j :: j in a ==> j.fate.insert.Ok?) && (forall j :: j in b ==> j.fate.insert.Ok?)
    ensures Landed(a + [bad] + b, group) == a + b
  {
    OneCall(bad);
    AllLand(a);
    AllLand(b);
    SingleConcat(a, [bad]);
    assert a + [] == a;
    SingleConcat(a + [bad], b);
  }

  /** A call's id is set exactly when its row landed, and names the row, past the first rows, that holds the call. */
  predicate Named<C(==)>(rows: seq<C>, id: nat, job: Job<C>, first: nat, group: Group) {
    && (id != 0 <==> group.Commits? || job.fate.insert.Ok?)
    && (id != 0 ==> first < id <= |rows| && rows[id - 1] == job.call)
  }

  /** What an id says of its call, and a row of the id that names it. */
  lemma NamedPlainly<C>(rows: seq<C>, id: nat, job: Job<C>, first: nat, group: Group)
    requires Named(rows, id, job, first, group)
    ensures id != 0 <==> group == Commits || job.fate.insert == Ok
    ensures id != 0 ==> first < id <= |rows| && rows[id - 1] == job.call
  {
  }

  // ------------------------------------------------------------------ the consumer

  /** What lands of the calls from the i-th on. */
  function LandedFrom<C>(pend: seq<Job<C>>, group: Group, i: nat): seq<Job<C>>
    requires i <= |pend|
    decreases |pend| - i
  {
    if i == |pend| then []
    else (if group.Commits? || pend[i].fate.insert.Ok? then [pend[i]] else []) + LandedFrom(pend, group, i + 1)
  }

  lemma {:induction false} LandedFromIs<C>(pend: seq<Job<C>>, group: Group, i: nat)
    requires i <= |pend|
    ensures LandedFrom(pend, group, i) == Landed(pend[i..], group)
    decreases |pend| - i
  {
    if i < |pend| {
      var rest := pend[i..];
      assert rest[0] == pend[i] && rest[1..] == pend[i + 1..];
      LandedFromIs(pend, group, i + 1);
      assert group.Commits? ==> rest == [pend[i]] + pend[i + 1..];
    }
  }

  /** What landed of the first i calls, as far as the whole batch goes. */
  ghost predicate LandedSo<C>(pend: seq<Job<C>>, group: Group, i: nat, done: seq<Job<C>>) {
    i <= |pend| && done + LandedFrom(pend, group, i) == Landed(pend, group)
  }

  lemma NoneLanded<C>(pend: seq<Job<C>>, group: Group)
    ensures LandedSo(pend, group, 0, [])
  {
    LandedFromIs(pend, group, 0);
    assert pend[0..] == pend && [] + LandedFrom(pend, group, 0) == LandedFrom(pend, group, 0);
  }

  /** One call's turn. */
  lemma LandedMore<C>(pend: seq<Job<C>>, group: Group, i: nat, done: seq<Job<C>>, more: seq<Job<C>>)
    requires i < |pend| && LandedSo(pend, group, i, done)
    requires more == if group.Commits? || pend[i].fate.insert.Ok? then done + [pend[i]] else done
    ensures LandedSo(pend, group, i + 1, more)
    ensures if group.Commits? || pend[i].fate.insert.Ok?
            then |more| == |done| + 1 && Calls(more) == Calls(done) + [pend[i].call]
                && AllMishaps(more) == AllMishaps(done) + Mishaps(pend[i].fate)
            else more == done
  {
    LandedStep(pend, group, i);
    var rest := LandedFrom(pend, group, i + 1);
    if group.Commits? || pend[i].fate.insert.Ok? {
      Assoc(done, [pend[i]], rest);
      CallsConcat(done, [pend[i]]);
      OneCall(pend[i]);
    }
  }

  lemma LandedStep<C>(pend: seq<Job<C>>, group: Group, i: nat)
    requires i < |pend|
    ensures var rest := LandedFrom(pend, group, i + 1);
            LandedFrom(pend, group, i) == if group.Commits? || pend[i].fate.insert.Ok? then [pend[i]] + rest else rest
  {
    var rest := LandedFrom(pend, group, i + 1);
    assert [] + rest == rest;
  }

  lemma AllLanded<C>(pend: seq<Job<C>>, group: Group, done: seq<Job<C>>)
    requires LandedSo(pend, group, |pend|, done)
    ensures done == Landed(pend, group)
  {
    assert done + [] == done;
  }

  class Consumer<C(!new)> {
    /** The requests table: row k has id k + 1. */
    var rows: seq<C>
    var processed: nat
    var failed: nat
    var flushes: nat
    /** The calls whose second half ran, in order. */
    ghost var finished: seq<C>

    constructor ()
      ensures Valid() && rows == [] && failed == 0 && flushes == 0
    {
      rows, processed, failed, flushes, finished := [], 0, 0, 0, [];
    }

    /** One transaction; ids are assigned as rows go in, whether or not it commits. */
    method InsertGrouped(pend: seq<Job<C>>, ids: array<nat>, group: Group) returns (ok: bool)
      requires ids.Length == |pend| && !group.NotOffered?
      modifies this`rows, ids
      ensures ok <==> group.Commits?
      ensures ok ==> rows == old(rows) + Calls(pend) && forall i :: 0 <= i < |pend| ==> ids[i] == |old(rows)| + i + 1
      ensures !ok ==> rows == old(rows)
    {
      var tx := rows;
      var i := 0;
      while i < |pend|
        invariant 0 <= i <= |pend| && rows == old(rows) && tx == old(rows) + Calls(pend[..i]) && |tx| == |old(rows)| + i
        invariant forall k :: 0 <= k < i ==> ids[k] == |old(rows)| + k + 1
      {
        if group == StopsAt(i) {
          return false;
        }
        tx := tx + [pend[i].call];
        ids[i] := |tx|;
        CallsConcat(pend[..i], [pend[i]]);
        assert pend[..i + 1] == pend[..i] + [pend[i]];
        i := i + 1;
      }
      if group.StopsAt? {
        return false;
      }
      assert pend[..i] == pend;
      rows := tx;
      ok := true;
    }

    /** One row on its own, with its own containment. */
    method InsertOne(job: Job<C>, ids: array<nat>, i: nat)
      requires i < ids.Length
      modifies this`rows, this`processed, this`failed, ids
      ensures forall k :: 0 <= k < ids.Length && k != i ==> ids[k] == old(ids[k])
      ensures if job.fate.insert.Ok?
              then rows == old(rows) + [job.call] && ids[i] == |rows|
              else rows == old(rows) && ids[i] == old(ids[i])
      ensures if job.fate.insert.Ok?
              then processed == old(processed) + 1 && failed == old(failed)
              else processed == old(processed) && failed == old(failed) + 1
    {
      if job.fate.insert.Ok? {
        rows := rows + [job.call];
        ids[i] := |rows|;
        processed := processed + 1;
      } else {
        failed := failed + 1;
      }
    }

    /**
     * Every prepared call becomes exactly one row or one failure: the rows are those
     * that landed, in order; an id is set exactly for them and names their row.
     */
    method InsertBatch(pend: seq<Job<C>>, ids: array<nat>, group: Group)
      requires ids.Length == |pend| && forall i :: 0 <= i < |pend| ==> ids[i] == 0
      modifies this`rows, this`processed, this`failed, ids
      ensures rows == old(rows) + Calls(Landed(pend, group))
      ensures processed == old(processed) + |Landed(pend, group)|
      ensures failed == old(failed) + |pend| - |Landed(pend, group)|
      ensures forall i :: 0 <= i < |pend| ==> Named(rows, ids[i], pend[i], |old(rows)|, group)
      ensures forall i, j :: 0 <= i < j < |pend| && ids[i] != 0 && ids[j] != 0 ==> ids[i] < ids[j]
    {
      if |pend| == 0 {
        return;
      }
      if !group.NotOffered? {
        var ok := InsertGrouped(pend, ids, group);
        if ok {
          processed := processed + |pend|;
          CallsLength(pend);
          forall i | 0 <= i < |pend|
            ensures Named(rows, ids[i], pend[i], |old(rows)|, group)
          {
            CallAt(pend, i);
          }
          return;
        }
        ClearIds(ids);
      }
      InsertEach(pend, ids, group);
    }

    method ClearIds(ids: array<nat>)
      modifies ids
      ensures forall i :: 0 <= i < ids.Length ==> ids[i] == 0
    {
      var i := 0;
      while i < ids.Length
        invariant 0 <= i <= ids.Length && forall k :: 0 <= k < i ==> ids[k] == 0
      {
        ids[i] := 0;
        i := i + 1;
      }
    }

    /** The fallback loop. */
    method InsertEach(pend: seq<Job<C>>, ids: array<nat>, ghost group: Group)
      requires ids.Length == |pend| && !group.Commits? && forall i :: 0 <= i < |pend| ==> ids[i] == 0
      modifies this`rows, this`processed, this`failed, ids
      ensures rows == old(rows) + Calls(Single(pend))
      ensures processed == old(processed) + |Single(pend)| && failed == old(failed) + |pend| - |Single(pend)|
      ensures forall i :: 0 <= i < |pend| ==> Named(rows, ids[i], pend[i], |old(rows)|, group)
      ensures forall i, j :: 0 <= i < j < |pend| && ids[i] != 0 && ids[j] != 0 ==> ids[i] < ids[j]
    {
      NoneLanded(pend, group);
      ghost var done: seq<Job<C>> := [];
      var i := 0;
      while i < |pend|
        invariant 0 <= i <= |pend| && LandedSo(pend, group, i, done) && rows == old(rows) + Calls(done)
        invariant processed == old(processed) + |done| && failed == old(failed) + i - |done|
        invariant forall k :: 0 <= k < i ==> Named(rows, ids[k], pend[k], |old(rows)|, group)
        invariant forall k :: i <= k < |pend| ==> ids[k] == 0
        invariant forall j, k :: 0 <= j < k < i && ids[j] != 0 && ids[k] != 0 ==> ids[j] < ids[k]
      {
        ghost var was, wasIds := rows, ids[..];
        assert forall k :: 0 <= k < i ==> Named(was, wasIds[k], pend[k], |old(rows)|, group);
        InsertOne(pend[i], ids, i);
        ghost var more := if pend[i].fate.insert.Ok? then done + [pend[i]] else done;
        LandedMore(pend, group, i, done, more);
        forall k | 0 <= k < i
          ensures Named(rows, ids[k], pend[k], |old(rows)|, group)
        {
          assert ids[k] == wasIds[k] && Named(was, wasIds[k], pend[k], |old(rows)|, group);
        }
        done, i := more, i + 1;
      }
      AllLanded(pend, group, done);
    }

    /**
     * The second half of a stored call: a failed warnings write is counted and the fold still runs;
     * a panic is counted and ends it.
     */
    method FinishCall(job: Job<C>)
      modifies this`failed, this`finished
      ensures failed == old(failed) + Mishaps(job.fate) && finished == old(finished) + [job.call]
      ensures job.fate.warned.Panicked? ==> failed == old(failed) + 1
      ensures job.fate.warned.Failed? ==> failed == old(failed) + if job.fate.finished.Panicked? then 2 else 1
      ensures job.fate.warned.Ok? ==> failed == old(failed) + if job.fate.finished.Panicked? then 1 else 0
    {
      finished := finished + [job.call];
      if job.fate.warned.Panicked? {
        failed := failed + 1;
        return;
      }
      if job.fate.warned.Failed? {
        failed := failed + 1;
      }
      if job.fate.finished.Panicked? {
        failed := failed + 1;
      }
    }

    /** Every call stored so far was counted processed and had its second half run, once. */
    ghost predicate Valid()
      reads this
    {
      processed == |rows| && finished == rows
    }

    /**
     * One flush: calls whose first half panics are counted and dropped, the rest are
     * stored, and the second half runs for exactly the stored ones.
     */
    method FlushBatch(jobs: seq<Job<C>>, group: Group)
      requires Valid()
      modifies this
      ensures Valid() && flushes == old(flushes) + 1
      ensures processed == |rows| && finished == rows
      ensures var landed := Landed(Prepared(jobs), group);
              && rows == old(rows) + Calls(landed)
              && failed == old(failed) + |jobs| - |landed| + AllMishaps(landed)
    {
      flushes := flushes + 1;
      var pend := [];
      var i := 0;
      while i < |jobs|
        invariant 0 <= i <= |jobs| && pend == Prepared(jobs[..i]) && |pend| <= i
        invariant failed == old(failed) + i - |pend|
        invariant rows == old(rows) && processed == old(processed) && finished == old(finished)
                  && flushes == old(flushes) + 1
      {
        PreparedConcat(jobs[..i], [jobs[i]]);
        assert jobs[..i + 1] == jobs[..i] + [jobs[i]];
        if jobs[i].fate.prepared {
          pend := pend + [jobs[i]];
        } else {
          failed := failed + 1;
        }
        i := i + 1;
      }
      assert jobs[..i] == jobs;
      var ids := new nat[|pend|](_ => 0);
      InsertBatch(pend, ids, group);
      CallsLength(Landed(pend, group));
      FinishStored(pend, ids, group, |old(rows)|);
    }

    /** The loop over the batch that skips calls without an id. */
    method FinishStored(pend: seq<Job<C>>, ids: array<nat>, ghost group: Group, ghost first: nat)
      requires ids.Length == |pend| && forall i :: 0 <= i < |pend| ==> Named(rows, ids[i], pend[i], first, group)
      modifies this`failed, this`finished
      ensures finished == old(finished) + Calls(Landed(pend, group))
      ensures failed == old(failed) + AllMishaps(Landed(pend, group))
    {
      NoneLanded(pend, group);
      ghost var done: seq<Job<C>> := [];
      var i := 0;
      while i < |pend|
        invariant 0 <= i <= |pend| && LandedSo(pend, group, i, done)
        invariant finished == old(finished) + Calls(done) && failed == old(failed) + AllMishaps(done)
      {
        ghost var lands := group.Commits? || pend[i].fate.insert.Ok?;
        assert Named(rows, ids[i], pend[i], first, group) && (lands <==> ids[i] != 0);
        ghost var more := if lands then done + [pend[i]] else done;
        LandedMore(pend, group, i, done, more);
        if ids[i] != 0 {
          FinishCall(pend[i]);
        }
        done, i := more, i + 1;
      }
      AllLanded(pend, group, done);
    }
  }

  /** Whether a call of the flush ends as a row. */
  predicate Lands(fate: Fate, group: Group) { fate.prepared && (group.Commits? || fate.insert.Ok?) }

  /** How often a job stands in a list. */
  ghost function Times<C>(jobs: seq<Job<C>>, job: Job<C>): nat {
    if jobs == [] then 0 else (if jobs[0] == job then 1 else 0) + Times(jobs[1..], job)
  }

  lemma {:induction false} TimesConcat<C>(a: seq<Job<C>>, b: seq<Job<C>>, job: Job<C>)
    ensures Times(a + b, job) == Times(a, job) + Times(b, job)
  {
    if a == [] {
      assert a + b == b;
    } else {
      assert (a + b)[1..] == a[1..] + b;
      TimesConcat(a[1..], b, job);
    }
  }

  /** Each call of the flush ends as exactly one row if it lands, and as none if it does not. */
  lemma {:induction false} LandsOnce<C>(jobs: seq<Job<C>>, group: Group, job: Job<C>)
    ensures Times(Landed(Prepared(jobs), group), job) 
            == if job.fate.prepared && (group == Commits || job.fate.insert == Ok) then Times(jobs, job) else 0
  {
    if jobs != [] {
      var head, rest := if jobs[0].fate.prepared then [jobs[0]] else [], Prepared(jobs[1..]);
      LandsOnce(jobs[1..], group, job);
      LandedConcat(head, rest, group);
      TimesConcat(Landed(head, group), Landed(rest, group), job);
      OneLands(jobs[0], group, job);
    }
  }

  lemma OneLands<C>(one: Job<C>, group: Group, job: Job<C>)
    ensures Times(Landed(if one.fate.prepared then [one] else [], group), job)
            == if one == job && Lands(job.fate, group) then 1 else 0
  {
    OneCall(one);
    assert [one][1..] == [];
  }

  lemma LandedConcat<C>(a: seq<Job<C>>, b: seq<Job<C>>, group: Group)
    ensures Landed(a + b, group) == Landed(a, group) + Landed(b, group)
  {
    SingleConcat(a, b);
  }

  lemma {:induction false} PreparedConcat<C>(a: seq<Job<C>>, b: seq<Job<C>>)
    ensures Prepared(a + b) == Prepared(a) + Prepared(b)
  {
    if a == [] {
      assert a + b == b;
    } else {
      var t := a[1..];
      assert (a + b)[1..] == t + b;
      PreparedConcat(t, b);
      var first := if a[0].fate.prepared then [a[0]] else [];
      Assoc(first, Prepared(t), Prepared(b));
    }
  }

  lemma {:induction false} CallsLength<C>(jobs: seq<Job<C>>)
    ensures |Calls(jobs)| == |jobs|
  {
    if jobs != [] {
      CallsLength(jobs[1..]);
    }
  }

  lemma {:induction false} CallAt<C>(jobs: seq<Job<C>>, i: nat)
    requires i < |jobs|
    ensures i < |Calls(jobs)| && Calls(jobs)[i] == jobs[i].call
  {
    if i > 0 {
      CallAt(jobs[1..], i - 1);
    }
  }
}
