/**
 * The store's own archive operations (internal/store/archiver.go and the archive
 * half of purgeWhere), each a loop of commits. life is the number of commits the
 * process still lives to make: every operation may be cut short after any of them.
 */
module ArchiveStore {
  import opened Options
  import opened Archive

  const ARCHIVE_BATCH := 32

  function ArchivableIds(s: Store, before: int): set<Id> {
    set id | id in s.hot && Archivable(s, before, id)
  }

  /** Rows of the restore's range that have a marker. */
  function Listable(s: Store, since: int, until: int): set<Id> {
    set id | id in s.hot && id in s.markers && since <= s.hot[id].at < until
  }

  /** The day row a marker names is there. */
  predicate HasDayRow(s: Store, id: Id) {
    id in s.markers && (s.markers[id], id) in s.rows
  }

  /** The days some rows fall on. */
  function DaysOf(rows: map<Id, Row>): set<Day> { set id | id in rows :: DayOf(rows[id].at) }

  function RowsOf(s: Store, ids: set<Id>): map<Id, Row> { map id | id in ids && id in s.hot :: s.hot[id] }

  /** Key k is where one of these rows goes in the day files. */
  predicate Holds(rows: map<Id, Row>, k: (Day, Id)) { k.1 in rows && k.0 == DayOf(rows[k.1].at) }

  /** At key k, after is before with these rows put in. */
  predicate PutAt(c: Codec, before: map<(Day, Id), Stored>, after: map<(Day, Id), Stored>, rows: map<Id, Row>,
                  k: (Day, Id)) {
    && (k in after <==> k in before || Holds(rows, k))
    && (k in after ==> after[k] == if Holds(rows, k) then Encode(c, rows[k.1]) else before[k])
  }

  /** The day rows after are those before with exactly these rows put in. */
  ghost predicate Put(c: Codec, before: map<(Day, Id), Stored>, after: map<(Day, Id), Stored>, rows: map<Id, Row>) {
    forall k :: PutAt(c, before, after, rows, k)
  }

  /** Row id after a move of these rows: emptied and marked if it is one of them, else as before. */
  predicate MovedAt(s: Store, t: Store, rows: map<Id, Row>, id: Id) {
    && (id in t.hot <==> id in s.hot)
    && (id in s.hot ==> t.hot[id] == if id in rows then s.hot[id].(req := None, resp := None) else s.hot[id])
    && (id in t.markers <==> id in s.markers || id in rows)
    && (id in t.markers ==> t.markers[id] == if id in rows then DayOf(rows[id].at) else s.markers[id])
  }

  ghost predicate Moved(s: Store, t: Store, rows: map<Id, Row>) {
    forall id :: MovedAt(s, t, rows, id)
  }

  /** Store t is s once exactly these rows have been archived: put in their day files, marked, and emptied. */
  ghost predicate Archived(c: Codec, s: Store, t: Store, rows: map<Id, Row>) {
    Moved(s, t, rows) && t.files == s.files + DaysOf(rows) && Put(c, s.rows, t.rows, rows)
  }

  lemma DaysOfMore(a: map<Id, Row>, b: map<Id, Row>)
    requires a.Keys !! b.Keys
    ensures DaysOf(a + b) == DaysOf(a) + DaysOf(b)
  {
    forall d | d in DaysOf(a)
      ensures d in DaysOf(a + b)
    {
      var id :| id in a && DayOf(a[id].at) == d;
      assert id in a + b;
    }
    forall d | d in DaysOf(b)
      ensures d in DaysOf(a + b)
    {
      var id :| id in b && DayOf(b[id].at) == d;
      assert id in a + b;
    }
  }

  lemma HoldsMore(a: map<Id, Row>, b: map<Id, Row>, k: (Day, Id))
    requires a.Keys !! b.Keys
    ensures Holds(a + b, k) <==> Holds(a, k) || Holds(b, k)
    ensures Holds(a, k) ==> (a + b)[k.1] == a[k.1] && !Holds(b, k)
    ensures Holds(b, k) ==> (a + b)[k.1] == b[k.1] && !Holds(a, k)
  {
  }

  lemma PutMore(c: Codec, x: map<(Day, Id), Stored>, y: map<(Day, Id), Stored>, z: map<(Day, Id), Stored>,
                a: map<Id, Row>, b: map<Id, Row>)
    requires a.Keys !! b.Keys && Put(c, x, y, a) && Put(c, y, z, b)
    ensures Put(c, x, z, a + b)
  {
    forall k
      ensures PutAt(c, x, z, a + b, k)
    {
      HoldsMore(a, b, k);
      assert PutAt(c, x, y, a, k) && PutAt(c, y, z, b, k);
    }
  }

  lemma PutNone(c: Codec, x: map<(Day, Id), Stored>)
    ensures Put(c, x, x, map[])
  {
    forall k
      ensures PutAt(c, x, x, map[], k)
    {
    }
  }

  /** Writing one day's transaction is putting its rows in. */
  lemma OneDay(c: Codec, s: Store, rows: map<Id, Row>, day: Day)
    requires rows != map[] && forall id :: id in rows ==> DayOf(rows[id].at) == day
    ensures Put(c, s.rows, Archive.WriteDay(c, s, rows, day).rows, rows) && DaysOf(rows) == {day}
  {
    var id :| id in rows;
    assert DayOf(rows[id].at) in DaysOf(rows);
    forall k
      ensures PutAt(c, s.rows, Archive.WriteDay(c, s, rows, day).rows, rows, k)
    {
    }
  }

  lemma NoneArchived(c: Codec, s: Store)
    ensures Archived(c, s, s, map[])
  {
    PutNone(c, s.rows);
    forall id
      ensures MovedAt(s, s, map[], id)
    {
    }
  }

  lemma CommitMoves(s: Store, batch: map<Id, Row>)
    ensures Moved(s, HotCommit(s, batch), batch)
  {
    forall id
      ensures MovedAt(s, HotCommit(s, batch), batch, id)
    {
    }
  }

  lemma MovedMore(s: Store, t: Store, u: Store, a: map<Id, Row>, b: map<Id, Row>)
    requires a.Keys !! b.Keys && Moved(s, t, a) && Moved(t, u, b)
    ensures Moved(s, u, a + b)
  {
    forall id
      ensures MovedAt(s, u, a + b, id)
    {
      assert MovedAt(s, t, a, id) && MovedAt(t, u, b, id);
    }
  }

  /** Archiving more of what is left adds up. */
  lemma ArchivedMore(c: Codec, s: Store, t: Store, u: Store, a: map<Id, Row>, b: map<Id, Row>)
    requires a.Keys !! b.Keys && Archived(c, s, t, a) && Archived(c, t, u, b)
    ensures Archived(c, s, u, a + b)
  {
    DaysOfMore(a, b);
    PutMore(c, s.rows, t.rows, u.rows, a, b);
    MovedMore(s, t, u, a, b);
  }

  /** What is left to archive after some of it has been. */
  lemma ArchivableLeft(c: Codec, s: Store, t: Store, rows: map<Id, Row>, before: int)
    requires Archived(c, s, t, rows) && rows.Keys <= ArchivableIds(s, before)
    ensures ArchivableIds(t, before) == ArchivableIds(s, before) - rows.Keys
    ensures forall id :: id in ArchivableIds(t, before) ==> t.hot[id] == s.hot[id]
  {
    forall id
      ensures id in ArchivableIds(t, before) <==> id in ArchivableIds(s, before) && id !in rows
      ensures id in ArchivableIds(t, before) ==> t.hot[id] == s.hot[id]
    {
      assert MovedAt(s, t, rows, id);
    }
  }

  /** Some of the archivable rows of s have been archived, and nothing else has happened. */
  ghost predicate PartArchived(c: Codec, s: Store, t: Store, moved: map<Id, Row>, before: int) {
    && moved.Keys <= ArchivableIds(s, before)
    && (forall id :: id in moved ==> moved[id] == s.hot[id])
    && Archived(c, s, t, moved)
  }

  /** A batch has no more days than rows. */
  lemma {:induction false} FewDays(rows: map<Id, Row>)
    ensures |DaysOf(rows)| <= |rows|
    decreases |rows|
  {
    if rows == map[] {
      assert DaysOf(rows) == {};
    } else {
      var id :| id in rows;
      var rest := rows - {id};
      FewDays(rest);
      forall d | d in DaysOf(rows)
        ensures d in DaysOf(rest) + {DayOf(rows[id].at)}
      {
        var i :| i in rows && DayOf(rows[i].at) == d;
        assert i != id ==> i in rest;
      }
      SmallerSet(DaysOf(rows), DaysOf(rest) + {DayOf(rows[id].at)});
    }
  }

  lemma SmallerMap(rows: map<Id, Row>, ids: set<Id>)
    requires rows.Keys <= ids
    ensures |rows| <= |ids|
  {
    SmallerSet(rows.Keys, ids);
    assert |rows| == |rows.Keys|;
  }

  /** The next batch is of rows not yet moved. */
  lemma BatchFits(c: Codec, s: Store, t: Store, moved: map<Id, Row>, batch: map<Id, Row>, before: int)
    requires PartArchived(c, s, t, moved, before)
    requires batch.Keys <= ArchivableIds(t, before) && forall id :: id in batch ==> batch[id] == t.hot[id]
    ensures moved.Keys !! batch.Keys && |moved + batch| == |moved| + |batch| <= |ArchivableIds(s, before)|
    ensures (moved + batch).Keys <= ArchivableIds(s, before)
            && forall id :: id in moved + batch ==> (moved + batch)[id] == s.hot[id]
    ensures |DaysOf(batch)| <= |batch|
  {
    ArchivableLeft(c, s, t, moved, before);
    FewDays(batch);
    var both := moved + batch;
    assert both.Keys == moved.Keys + batch.Keys;
    assert |both| == |both.Keys| && |moved| == |moved.Keys| && |batch| == |batch.Keys|;
    SmallerMap(both, ArchivableIds(s, before));
  }

  lemma BatchMoved(c: Codec, s: Store, t: Store, u: Store, moved: map<Id, Row>, batch: map<Id, Row>, before: int)
    requires PartArchived(c, s, t, moved, before) && Archived(c, t, u, batch) && moved.Keys !! batch.Keys
    requires (moved + batch).Keys <= ArchivableIds(s, before)
             && forall id :: id in moved + batch ==> (moved + batch)[id] == s.hot[id]
    ensures PartArchived(c, s, u, moved + batch, before)
  {
    ArchivedMore(c, s, t, u, moved, batch);
  }

  /** With nothing left to archive, exactly the rows counted at the start have been. */
  lemma NothingLeft(c: Codec, s: Store, t: Store, moved: map<Id, Row>, before: int)
    requires PartArchived(c, s, t, moved, before) && ArchivableIds(t, before) == {}
    ensures moved == RowsOf(s, ArchivableIds(s, before))
  {
    ArchivableLeft(c, s, t, moved, before);
  }

  /** Day row k is the one a marker names. */
  predicate Live(s: Store, k: (Day, Id)) { k.1 in s.markers && s.markers[k.1] == k.0 }

  /** Row id after some rows gave up their markers: nothing else about it changed, save the bodies of those rows. */
  predicate UnmarkedAt(s: Store, t: Store, ids: set<Id>, id: Id) {
    && (id in t.hot <==> id in s.hot)
    && (id in s.hot ==> t.hot[id].at == s.hot[id].at && (id !in ids ==> t.hot[id] == s.hot[id]))
    && (id in t.markers <==> id in s.markers && id !in ids)
    && (id in t.markers ==> t.markers[id] == s.markers[id])
  }

  /** Day row k after the day rows that the markers of some rows name were deleted. */
  predicate DroppedAt(s: Store, t: Store, ids: set<Id>, k: (Day, Id)) {
    && (k in t.rows <==> k in s.rows && !(k.1 in ids && Live(s, k)))
    && (k in t.rows ==> t.rows[k] == s.rows[k])
  }

  /** Store t is s once exactly these rows have been restored: unmarked, their day rows gone, nothing else touched. */
  ghost predicate Restored(s: Store, t: Store, ids: set<Id>) {
    t.files == s.files && (forall id :: UnmarkedAt(s, t, ids, id)) && (forall k :: DroppedAt(s, t, ids, k))
  }

  lemma NoneRestored(s: Store)
    ensures Restored(s, s, {})
  {
    forall id
      ensures UnmarkedAt(s, s, {}, id)
    {
    }
    forall k
      ensures DroppedAt(s, s, {}, k)
    {
    }
  }

  lemma RestoredMore(s: Store, t: Store, u: Store, a: set<Id>, b: set<Id>)
    requires a !! b && Restored(s, t, a) && Restored(t, u, b)
    ensures Restored(s, u, a + b)
  {
    forall id
      ensures UnmarkedAt(s, u, a + b, id)
    {
      assert UnmarkedAt(s, t, a, id) && UnmarkedAt(t, u, b, id);
    }
    forall k
      ensures DroppedAt(s, u, a + b, k)
    {
      assert DroppedAt(s, t, a, k) && DroppedAt(t, u, b, k);
      assert UnmarkedAt(s, t, a, k.1);
    }
  }

  /** The three commits of one restored row. */
  function RestoreSteps(s: Store, id: Id, day: Day, req: Option<Blob>, resp: Option<Blob>): Store {
    DeleteMarker(DeleteDayRows(RestoreHot(s, id, req, resp), day, {id}), id)
  }

  lemma StepsRestore(s: Store, id: Id, day: Day, req: Option<Blob>, resp: Option<Blob>)
    requires id in s.hot && Live(s, (day, id))
    ensures Restored(s, RestoreSteps(s, id, day, req, resp), {id})
  {
    var t := RestoreSteps(s, id, day, req, resp);
    forall i
      ensures UnmarkedAt(s, t, {id}, i)
    {
    }
    forall k
      ensures DroppedAt(s, t, {id}, k)
    {
    }
  }

  /** The earliest of some rows. */
  method Earliest(hot: map<Id, Row>, ids: set<Id>) returns (first: Id)
    requires ids != {} && ids <= hot.Keys
    ensures first in ids && forall id :: id in ids ==> hot[first].at <= hot[id].at
  {
    first :| first in ids;
    var left := ids - {first};
    while left != {}
      invariant left <= ids && first in ids
      invariant forall id :: id in ids - left ==> hot[first].at <= hot[id].at
      decreases left
    {
      var id :| id in left;
      left := left - {id};
      if hot[id].at < hot[first].at {
        first := id;
      }
    }
  }

  /** ORDER BY started_at LIMIT 32. */
  method SelectBatch(s: Store, before: int) returns (batch: map<Id, Row>)
    ensures batch.Keys <= ArchivableIds(s, before) && forall id :: id in batch ==> batch[id] == s.hot[id]
    ensures |batch| <= 32
    ensures |batch| == 32 || batch.Keys == ArchivableIds(s, before)
    ensures forall id, other :: id in batch && other in ArchivableIds(s, before) && other !in batch ==>
            s.hot[id].at <= s.hot[other].at
  {
    batch := map[];
    var all := ArchivableIds(s, before);
    var left := all;
    while left != {} && |batch| < ARCHIVE_BATCH
      invariant batch.Keys + left == all && batch.Keys !! left
      invariant forall id :: id in batch ==> batch[id] == s.hot[id]
      invariant |batch| <= ARCHIVE_BATCH
      invariant forall id, other :: id in batch && other in left ==> s.hot[id].at <= s.hot[other].at
      decreases left
    {
      var id := Earliest(s.hot, left);
      batch := batch[id := s.hot[id]];
      left := left - {id};
    }
  }

  lemma SelectReaches(c: Codec, w: World, batch: map<Id, Row>, before: int)
    requires Reachable(c, w) && w.archiver.Idle? && batch.Keys <= ArchivableIds(w.store, before)
    requires forall id :: id in batch ==> batch[id] == w.store.hot[id]
    ensures Reachable(c, w.(archiver := Moving(batch, {})))
  {
    forall id | id in batch
      ensures Archivable(w.store, before, id)
    {
      assert id in batch.Keys;
    }
    StepReaches(c, w, Select(batch, before));
  }

  lemma StopReaches(c: Codec, w: World)
    requires Reachable(c, w)
    ensures Reachable(c, w.(archiver := Idle))
  {
    StepReaches(c, w, StopArchiver);
  }

  lemma WriteReaches(c: Codec, w: World, batch: map<Id, Row>, day: Day)
    requires Reachable(c, w) && w.archiver.Moving? && batch == OnDay(w.archiver.batch, day) && batch != map[]
    ensures var s := Archive.WriteDay(c, w.store, batch, day);
            && Reachable(c, w.(store := s, archiver := Moving(w.archiver.batch, w.archiver.written + {day})))
            && Put(c, w.store.rows, s.rows, batch)
  {
    StepReaches(c, w, Write(day));
    OneDay(c, w.store, batch, day);
  }

  lemma CommitReaches(c: Codec, w: World)
    requires Reachable(c, w) && w.archiver.Moving? && DaysOf(w.archiver.batch) <= w.archiver.written
    ensures Reachable(c, w.(store := HotCommit(w.store, w.archiver.batch), archiver := Idle))
  {
    forall id | id in w.archiver.batch
      ensures DayOf(w.archiver.batch[id].at) in w.archiver.written
    {
      assert DayOf(w.archiver.batch[id].at) in DaysOf(w.archiver.batch);
    }
    StepReaches(c, w, Commit);
  }

  lemma SameMove(s: Store, t: Store, u: Store, rows: map<Id, Row>)
    requires Moved(t, u, rows) && s.hot == t.hot && s.markers == t.markers
    ensures Moved(s, u, rows)
  {
    forall id
      ensures MovedAt(s, u, rows, id)
    {
      assert MovedAt(t, u, rows, id);
    }
  }

  lemma ListReaches(c: Codec, w: World, todo: seq<(Id, Day)>)
    requires Reachable(c, w) && w.restorer.Resting? && Distinct(todo)
    requires forall p :: p in todo ==> p.0 in w.store.hot && Live(w.store, (p.1, p.0))
    ensures Reachable(c, w.(restorer := Listed(todo)))
  {
    StepReaches(c, w, List(todo));
  }

  lemma RestReaches(c: Codec, w: World)
    requires Reachable(c, w)
    ensures Reachable(c, w.(restorer := Resting))
  {
    StepReaches(c, w, StopRestorer);
  }

  lemma LoadReaches(c: Codec, w: World, todo: seq<(Id, Day)>)
    requires Reachable(c, w) && w.restorer == Listed(todo) && todo != []
    requires (todo[0].1, todo[0].0) in w.store.rows && Load(c, w.store.rows[(todo[0].1, todo[0].0)]).Some?
    ensures var (req, resp) := Load(c, w.store.rows[(todo[0].1, todo[0].0)]).value;
            Reachable(c, w.(restorer := Have(todo[1..], todo[0].0, todo[0].1, req, resp)))
  {
    StepReaches(c, w, LoadNext);
  }

  lemma PutBackReaches(c: Codec, w: World, todo: seq<(Id, Day)>, id: Id, day: Day, req: Option<Blob>,
                       resp: Option<Blob>)
    requires Reachable(c, w) && w.restorer == Have(todo, id, day, req, resp)
    ensures Reachable(c, w.(store := RestoreHot(w.store, id, req, resp), restorer := HotDone(todo, id, day)))
  {
    StepReaches(c, w, PutBack);
  }

  lemma DropDayRowReaches(c: Codec, w: World, todo: seq<(Id, Day)>, id: Id, day: Day)
    requires Reachable(c, w) && w.restorer == HotDone(todo, id, day)
    ensures Reachable(c, w.(store := DeleteDayRows(w.store, day, {id}), restorer := DayDone(todo, id)))
  {
    StepReaches(c, w, DropDayRow);
  }

  lemma DropMarkerReaches(c: Codec, w: World, todo: seq<(Id, Day)>, id: Id)
    requires Reachable(c, w) && w.restorer == DayDone(todo, id)
    ensures Reachable(c, w.(store := DeleteMarker(w.store, id), restorer := Listed(todo)))
  {
    StepReaches(c, w, DropMarker);
  }

  /** Where the tables are those of a run, every live row reads as it was inserted. */
  lemma LiveRowsRead(c: Codec, w: World, id: Id)
    requires RoundTrips(c) && Reachable(c, w) && id in w.store.hot
    ensures id in w.original && Read(c, w.store, id).Found? && Same(Read(c, w.store, id).row, w.original[id])
  {
    ReachableInv(c, w);
    SafeReads(c, w, id);
  }

  /** A day row a live row's marker names can be loaded. */
  lemma LiveLoads(c: Codec, w: World, id: Id)
    requires RoundTrips(c) && Reachable(c, w) && id in w.store.hot && HasDayRow(w.store, id)
    ensures Load(c, w.store.rows[(w.store.markers[id], id)]).Some?
  {
    ReachableInv(c, w);
    assert RowSafe(c, w.store, id, w.original[id]);
    LoadsBack(c, w.original[id]);
  }

  /** An unmarked live row is hot, as it was inserted. */
  lemma UnmarkedIsHot(c: Codec, w: World, id: Id)
    requires RoundTrips(c) && Reachable(c, w) && id in w.store.hot && id !in w.store.markers
    ensures id in w.original && Same(w.store.hot[id], w.original[id])
  {
    ReachableInv(c, w);
    assert RowSafe(c, w.store, id, w.original[id]);
  }

  lemma AllBack(s: Store, all: set<Id>, todo: seq<(Id, Day)>, back: set<Id>)
    requires back <= all <= s.markers.Keys && forall id :: id in all ==> (id, s.markers[id]) in todo
    requires forall j :: 0 <= j < |todo| ==> todo[j].0 in back
    ensures back == all
  {
    forall id | id in all
      ensures id in back
    {
      var j :| 0 <= j < |todo| && todo[j] == (id, s.markers[id]);
    }
  }

  lemma NowHot(c: Codec, s: Store, w: World, ids: set<Id>, since: int, until: int)
    requires RoundTrips(c) && Reachable(c, w) && Restored(s, w.store, ids) && ids == Listable(s, since, until)
    ensures Listable(w.store, since, until) == {}
    ensures forall id :: id in ids ==> id in w.store.hot && id in w.original && Same(w.store.hot[id], w.original[id])
  {
    forall id
      ensures id in ids ==> id in w.store.hot && id in w.original && Same(w.store.hot[id], w.original[id])
      ensures id !in Listable(w.store, since, until)
    {
      assert UnmarkedAt(s, w.store, ids, id);
      if id in ids {
        UnmarkedIsHot(c, w, id);
      }
    }
  }

  /** What an archive pass does to each row, said of the row alone. */
  lemma ArchivedPlainly(c: Codec, s: Store, t: Store, before: int)
    requires Archived(c, s, t, RowsOf(s, ArchivableIds(s, before)))
    ensures forall id :: id in s.hot ==>
              && id in t.hot && t.hot[id].at == s.hot[id].at
              && if s.hot[id].at < before && (s.hot[id].req.Some? || s.hot[id].resp.Some?) && id !in s.markers
                 then t.hot[id] == s.hot[id].(req := None, resp := None)
                      && id in t.markers && t.markers[id] == s.hot[id].at / DAY_NS
                      && (t.markers[id], id) in t.rows
                      && t.rows[(t.markers[id], id)]
                         == Stored(c.enc(Bytes(s.hot[id].req)), c.enc(Bytes(s.hot[id].resp)))
                 else t.hot[id] == s.hot[id] && (id in t.markers <==> id in s.markers)
  {
    forall id | id in s.hot
      ensures id in t.hot && t.hot[id].at == s.hot[id].at
      ensures if s.hot[id].at < before && (s.hot[id].req.Some? || s.hot[id].resp.Some?) && id !in s.markers
              then t.hot[id] == s.hot[id].(req := None, resp := None)
                   && id in t.markers && t.markers[id] == s.hot[id].at / DAY_NS
                   && (t.markers[id], id) in t.rows
                   && t.rows[(t.markers[id], id)] == Stored(c.enc(Bytes(s.hot[id].req)), c.enc(Bytes(s.hot[id].resp)))
              else t.hot[id] == s.hot[id] && (id in t.markers <==> id in s.markers)
    {
      assert MovedAt(s, t, RowsOf(s, ArchivableIds(s, before)), id);
      assert PutAt(c, s.rows, t.rows, RowsOf(s, ArchivableIds(s, before)), (DayOf(s.hot[id].at), id));
    }
  }

  /** Day rows of other rows, or on other days, stay as they are. */
  lemma ArchivedElsewhere(c: Codec, s: Store, t: Store, before: int)
    requires Archived(c, s, t, RowsOf(s, ArchivableIds(s, before)))
    ensures forall k :: k in s.rows && !(k.1 in s.hot && s.hot[k.1].at < before && s.hot[k.1].at / DAY_NS == k.0) ==>
              k in t.rows && t.rows[k] == s.rows[k]
    ensures forall id :: id !in s.hot ==> (id in t.markers <==> id in s.markers)
    ensures forall id :: id in s.markers ==> id in t.markers && t.markers[id] == s.markers[id]
  {
    var moved := RowsOf(s, ArchivableIds(s, before));
    forall k | k in s.rows && !(k.1 in s.hot && s.hot[k.1].at < before && s.hot[k.1].at / DAY_NS == k.0)
      ensures k in t.rows && t.rows[k] == s.rows[k]
    {
      assert PutAt(c, s.rows, t.rows, moved, k);
    }
    forall id
      ensures id !in s.hot ==> (id in t.markers <==> id in s.markers)
      ensures id in s.markers ==> id in t.markers && t.markers[id] == s.markers[id]
    {
      assert MovedAt(s, t, moved, id);
    }
  }

  /** The day rows and markers a completed restore leaves: all but those of the rows in its range. */
  lemma RestoredElsewhere(s: Store, t: Store, since: int, until: int)
    requires Restored(s, t, Listable(s, since, until))
    ensures forall k :: k in t.rows <==>
              k in s.rows && !(k.1 in s.hot && since <= s.hot[k.1].at < until
                               && k.1 in s.markers && s.markers[k.1] == k.0)
    ensures forall k :: k in t.rows ==> t.rows[k] == s.rows[k]
    ensures forall id :: id in t.markers <==> id in s.markers && !(id in s.hot && since <= s.hot[id].at < until)
    ensures forall id :: id in t.markers ==> t.markers[id] == s.markers[id]
  {
    forall k
      ensures k in t.rows <==>
                k in s.rows && !(k.1 in s.hot && since <= s.hot[k.1].at < until
                                 && k.1 in s.markers && s.markers[k.1] == k.0)
      ensures k in t.rows ==> t.rows[k] == s.rows[k]
    {
      assert DroppedAt(s, t, Listable(s, since, until), k);
    }
    forall id
      ensures id in t.markers <==> id in s.markers && !(id in s.hot && since <= s.hot[id].at < until)
      ensures id in t.markers ==> t.markers[id] == s.markers[id]
    {
      assert UnmarkedAt(s, t, Listable(s, since, until), id);
    }
  }

  /** What a completed restore does to each row's marker and day row, said of the row alone. */
  lemma RestoredPlainly(s: Store, t: Store, since: int, until: int)
    requires Restored(s, t, Listable(s, since, until))
    ensures forall id :: id in s.hot ==>
              && id in t.hot && t.hot[id].at == s.hot[id].at
              && if id in s.markers && since <= s.hot[id].at < until
                 then id in Listable(s, since, until) && id !in t.markers && (s.markers[id], id) !in t.rows
                 else t.hot[id] == s.hot[id] && (id in t.markers <==> id in s.markers)
  {
    forall id | id in s.hot
      ensures id in t.hot && t.hot[id].at == s.hot[id].at
      ensures if id in s.markers && since <= s.hot[id].at < until
              then id in Listable(s, since, until) && id !in t.markers && (s.markers[id], id) !in t.rows
              else t.hot[id] == s.hot[id] && (id in t.markers <==> id in s.markers)
    {
      assert UnmarkedAt(s, t, Listable(s, since, until), id);
      if id in s.markers {
        assert DroppedAt(s, t, Listable(s, since, until), (s.markers[id], id));
      }
    }
  }

  /**
   * After a restore that stopped between the two deletions, the row is in the range of every later
   * restore that covers it, which cannot complete.
   */
  lemma StoppedRestoreBlocks(c: Codec, row: Row, since: int, until: int)
    requires RoundTrips(c) && HasBody(row) && since <= row.at < until
    ensures Runs(c, OneArchived(c, row), RestoreMost(row) + [StopRestorer])
    ensures var w := After(c, OneArchived(c, row), RestoreMost(row) + [StopRestorer]);
            && Reachable(c, w) && w.archiver.Idle? && w.restorer.Resting?
            && 0 in Listable(w.store, since, until) && !HasDayRow(w.store, 0)
  {
    StoppedRestoreLeavesAMarker(c, row);
  }

  /**
   * Where every marker of the range names a day row, it still does after an archive pass: the
   * restore after it completes.
   */
  lemma ArchivedHasDayRows(c: Codec, s: Store, t: Store, before: int, id: Id)
    requires Archived(c, s, t, RowsOf(s, ArchivableIds(s, before))) && id in t.hot && id in t.markers
    ensures HasDayRow(t, id) || (id in s.markers && !HasDayRow(s, id))
  {
    var rows := RowsOf(s, ArchivableIds(s, before));
    assert MovedAt(s, t, rows, id) && PutAt(c, s.rows, t.rows, rows, (t.markers[id], id));
  }

  /**
   * An archive pass and then a completed restore of a range: every row of the
   * range is hot as first inserted, with neither marker nor the day row it names.
   */
  lemma ArchiveThenRestore(c: Codec, w: World, v: World, u: World, before: int, since: int, until: int, id: Id)
    requires RoundTrips(c) && Reachable(c, u)
    requires Archived(c, w.store, v.store, RowsOf(w.store, ArchivableIds(w.store, before)))
    requires Restored(v.store, u.store, Listable(v.store, since, until))
    requires id in w.store.hot && since <= w.store.hot[id].at < until
    ensures id in u.store.hot && id !in u.store.markers && id in u.original && Same(u.store.hot[id], u.original[id])
    ensures id in v.store.markers ==> (v.store.markers[id], id) !in u.store.rows
  {
    var rows, ids := RowsOf(w.store, ArchivableIds(w.store, before)), Listable(v.store, since, until);
    assert MovedAt(w.store, v.store, rows, id) && UnmarkedAt(v.store, u.store, ids, id);
    UnmarkedIsHot(c, u, id);
    if id in v.store.markers {
      assert DroppedAt(v.store, u.store, ids, (v.store.markers[id], id));
    }
  }

  // ------------------------------------------------------------- collecting

  /** Day row k after a GC pass has done these days: kept as it was, or gone because no marker names it. */
  predicate CollectedAt(s: Store, t: Store, days: set<Day>, k: (Day, Id)) {
    && (k in t.rows <==> k in s.rows && (k.0 in days ==> Live(s, k)))
    && (k in t.rows ==> t.rows[k] == s.rows[k])
  }

  /** Day file d after a GC pass has done these days: gone if it was done and no marker names it. */
  predicate FileAt(s: Store, t: Store, days: set<Day>, d: Day) {
    d in t.files <==> d in s.files && (d in days ==> d in s.markers.Values)
  }

  /** Store t is s after a GC pass has done these days. */
  ghost predicate Collected(s: Store, t: Store, days: set<Day>) {
    && t.hot == s.hot && t.markers == s.markers
    && (forall d :: FileAt(s, t, days, d))
    && (forall k :: CollectedAt(s, t, days, k))
  }

  lemma MarkedDay(s: Store, day: Day)
    ensures MarkedIn(s.markers, day) != {} <==> day in s.markers.Values
  {
    if day in s.markers.Values {
      var id :| id in s.markers && s.markers[id] == day;
      assert id in MarkedIn(s.markers, day);
    }
  }

  /** A day's turn, known standing for the day having had a marker when the pass began. */
  lemma CollectDay(s: Store, t: Store, days: set<Day>, day: Day)
    requires Collected(s, t, days) && day in s.files && day !in days
    ensures Collected(s, GcDay(t, day, day in s.markers.Values), days + {day})
  {
    var u := GcDay(t, day, day in s.markers.Values);
    MarkedDay(s, day);
    assert FileAt(s, t, days, day);
    forall d
      ensures FileAt(s, u, days + {day}, d)
    {
      assert FileAt(s, t, days, d);
    }
    forall k
      ensures CollectedAt(s, u, days + {day}, k)
    {
      assert CollectedAt(s, t, days, k);
    }
  }

  lemma NoneCollected(s: Store)
    ensures Collected(s, s, {})
  {
    forall d
      ensures FileAt(s, s, {}, d)
    {
    }
    forall k
      ensures CollectedAt(s, s, {}, k)
    {
    }
  }

  /** A GC pass, however far it got, changes no read of a row whose marker's file exists. */
  lemma CollectedReads(c: Codec, s: Store, t: Store, days: set<Day>, id: Id)
    requires Collected(s, t, days)
    ensures Read(c, t, id) == Read(c, s, id)
  {
    if id in s.hot && id in s.markers {
      var k := (s.markers[id], id);
      assert k.0 in s.markers.Values;
      assert CollectedAt(s, t, days, k);
      assert FileAt(s, t, days, s.markers[id]);
    }
  }

  lemma GcReaches(c: Codec, w: World, day: Day, known: bool)
    requires Reachable(c, w) && w.archiver.Idle?
    ensures Reachable(c, w.(store := GcDay(w.store, day, known)))
  {
    StepReaches(c, w, Gc(day, known));
  }

  // ---------------------------------------------------------------- purging

  /** The rows a WHERE clause picks. */
  function Matching(s: Store, where: (Id, Row) -> bool): set<Id> { set id | id in s.hot && where(id, s.hot[id]) }

  /** The day rows the markers of some rows name. */
  function Targets(s: Store, ids: set<Id>): set<(Day, Id)> {
    set id | id in ids && id in s.markers :: (s.markers[id], id)
  }

  /** archiveTargets: the days the markers of some rows name. */
  function Named(s: Store, ids: set<Id>): map<Id, Day> { map id | id in ids && id in s.markers :: s.markers[id] }

  /** Row id after a purge of these rows. */
  predicate PurgedAt(s: Store, t: Store, ids: set<Id>, id: Id) {
    && (id in t.hot <==> id in s.hot && id !in ids)
    && (id in t.hot ==> t.hot[id] == s.hot[id])
    && (id in t.markers <==> id in s.markers && id !in ids)
    && (id in t.markers ==> t.markers[id] == s.markers[id])
  }

  /** Day row k after a purge of these rows has done these days. */
  predicate SweptAt(s: Store, t: Store, ids: set<Id>, days: set<Day>, k: (Day, Id)) {
    && (k in t.rows <==> k in s.rows && !(k.1 in ids && Live(s, k) && k.0 in days))
    && (k in t.rows ==> t.rows[k] == s.rows[k])
  }

  /** Store t is s after a purge of these rows has committed and has then done these days. */
  ghost predicate Purged(s: Store, t: Store, ids: set<Id>, days: set<Day>) {
    t.files == s.files && (forall id :: PurgedAt(s, t, ids, id)) && (forall k :: SweptAt(s, t, ids, days, k))
  }

  /** Day row k after a purge of these rows is through: gone if a purged row's marker named it, else as before. */
  predicate GoneAt(s: Store, t: Store, ids: set<Id>, k: (Day, Id)) {
    && (k in t.rows <==> k in s.rows && !(k.1 in ids && Live(s, k)))
    && (k in t.rows ==> t.rows[k] == s.rows[k])
  }

  /** Store t is s without these rows, their markers, and the day rows those markers named. */
  ghost predicate Swept(s: Store, t: Store, ids: set<Id>) {
    t.files == s.files && (forall id :: PurgedAt(s, t, ids, id)) && (forall k :: GoneAt(s, t, ids, k))
  }

  lemma AllSwept(s: Store, t: Store, ids: set<Id>)
    requires Purged(s, t, ids, Named(s, ids).Values)
    ensures Swept(s, t, ids)
  {
    var names := Named(s, ids);
    forall k
      ensures GoneAt(s, t, ids, k)
    {
      assert SweptAt(s, t, ids, names.Values, k);
      if k.1 in ids && Live(s, k) {
        assert k.1 in names && names[k.1] == k.0;
      }
    }
  }

  lemma PurgeCommits(s: Store, ids: set<Id>)
    requires ids <= s.hot.Keys
    ensures Purged(s, PurgeRows(s, ids), ids, {})
  {
    var t := PurgeRows(s, ids);
    forall id
      ensures PurgedAt(s, t, ids, id)
    {
    }
    forall k
      ensures SweptAt(s, t, ids, {}, k)
    {
    }
  }

  lemma SweepDay(s: Store, t: Store, ids: set<Id>, days: set<Day>, day: Day)
    requires Purged(s, t, ids, days)
    ensures Purged(s, DeleteDayRows(t, day, MarkedIn(Named(s, ids), day)), ids, days + {day})
  {
    var u := DeleteDayRows(t, day, MarkedIn(Named(s, ids), day));
    forall id
      ensures PurgedAt(s, u, ids, id)
    {
      assert PurgedAt(s, t, ids, id);
    }
    forall k
      ensures SweptAt(s, u, ids, days + {day}, k)
    {
      assert SweptAt(s, t, ids, days, k);
    }
  }

  /** A purge, however far it got, changes no other row's read, and removes the purged rows' reads. */
  lemma PurgedReads(c: Codec, s: Store, t: Store, ids: set<Id>, days: set<Day>, id: Id)
    requires Purged(s, t, ids, days)
    ensures Read(c, t, id) == if id in ids then NotFound else Read(c, s, id)
  {
    assert PurgedAt(s, t, ids, id);
    if id in s.markers {
      assert SweptAt(s, t, ids, days, (s.markers[id], id));
    }
  }

  lemma PurgeReaches(c: Codec, w: World, ids: set<Id>)
    requires Reachable(c, w) && ids <= w.store.hot.Keys
    ensures Reachable(c, w.(store := PurgeRows(w.store, ids), doomed := w.doomed + Targets(w.store, ids)))
  {
    StepReaches(c, w, Purge(ids));
  }

  lemma PurgeDayReaches(c: Codec, w: World, day: Day, ids: set<Id>)
    requires Reachable(c, w) && forall id :: id in ids ==> (day, id) in w.doomed
    ensures Reachable(c, w.(store := DeleteDayRows(w.store, day, ids)))
  {
    StepReaches(c, w, PurgeDay(day, ids));
  }

  /** How a restore ended. */
  datatype RestoreEnd = Completed | MissingRow(id: Id) | CutShort

  class BodyStore {
    const codec: Codec
    var hot: map<Id, Row>
    var markers: map<Id, Day>
    var files: set<Day>
    var rows: map<(Day, Id), Stored>
    var next: Id
    ghost var archiver: Archiver
    ghost var restorer: Restorer
    ghost var doomed: set<(Day, Id)>
    ghost var original: map<Id, Row>

    function Tables(): Store
      reads this
    {
      Store(hot, markers, files, rows)
    }

    ghost function Now(): World
      reads this
    {
      World(Tables(), archiver, restorer, doomed, next, original)
    }

    /** The tables are those of some run of the protocol. */
    ghost predicate Open()
      reads this
    {
      RoundTrips(codec) && Reachable(codec, Now())
    }

    /** So they are, with no archiver or restorer under way. */
    ghost predicate Valid()
      reads this
    {
      Open() && archiver.Idle? && restorer.Resting?
    }

    constructor (codec: Codec)
      requires RoundTrips(codec)
      ensures Valid() && Now() == EMPTY && this.codec == codec
    {
      EmptyReachable(codec);
      this.codec := codec;
      hot, markers, files, rows, next := map[], map[], {}, map[], 0;
      archiver, restorer, doomed, original := Idle, Resting, {}, map[];
    }

    method InsertRequest(row: Row) returns (id: Id)
      requires Valid()
      modifies this
      ensures Valid() && Now() == Do(codec, old(Now()), Insert(row)) && id == old(next)
    {
      StepReaches(codec, Now(), Insert(row));
      id := next;
      hot := hot[next := row];
      original := original[next := row];
      next := next + 1;
    }

    /** The hot row with its day-file bodies laid over it: what was inserted, up to nil against empty. */
    method GetRequest(id: Id) returns (r: ReadResult)
      requires Open()
      ensures r == Read(codec, Tables(), id)
      ensures id in hot ==> r.Found? && id in original && Same(r.row, original[id])
    {
      if id !in hot {
        return NotFound;
      }
      ReachableInv(codec, Now());
      SafeReads(codec, Now(), id);
      var row := hot[id];
      if id in markers {
        var day := markers[id];
        if day !in files {
          return Failed;
        }
        if (day, id) in rows {
          var stored := rows[(day, id)];
          if |stored.req| > 0 {
            var plain := codec.dec(stored.req);
            if plain.None? {
              return Failed;
            }
            row := row.(req := plain);
          }
          if |stored.resp| > 0 {
            var plain := codec.dec(stored.resp);
            if plain.None? {
              return Failed;
            }
            row := row.(resp := plain);
          }
        }
      }
      r := Found(row);
    }

    /** One day's rows of a batch, in that day's own transaction. */
    method WriteDay(day: Day, batch: map<Id, Row>)
      requires Reachable(codec, Now()) && archiver.Moving?
      requires batch == OnDay(archiver.batch, day) && batch != map[]
      modifies this`files, this`rows, this`archiver
      ensures Reachable(codec, Now()) && archiver == Moving(old(archiver).batch, old(archiver).written + {day})
      ensures files == old(files) + {day} && Put(codec, old(rows), rows, batch)
    {
      WriteReaches(codec, Now(), batch, day);
      files := files + {day};
      rows := rows + Encoded(codec, batch, day);
      archiver := Moving(archiver.batch, archiver.written + {day});
    }

    /** The hot transaction of a batch. */
    method CommitBatch(batch: map<Id, Row>)
      requires Reachable(codec, Now()) && archiver.Moving? && archiver.batch == batch
               && DaysOf(batch) <= archiver.written
      modifies this`hot, this`markers, this`archiver
      ensures Reachable(codec, Now()) && archiver.Idle?
      ensures hot.Keys == old(hot).Keys
      ensures Moved(old(Tables()), Tables(), batch)
    {
      CommitReaches(codec, Now());
      CommitMoves(Tables(), batch);
      markers := markers + map id | id in batch :: DayOf(batch[id].at);
      hot := map id | id in hot :: if id in batch then hot[id].(req := None, resp := None) else hot[id];
      archiver := Idle;
    }

    /** One more day of a batch, the pending days still to come with it. */
    method WriteNext(batch: map<Id, Row>, day: Day, ghost pending: set<Day>, ghost start: Store)
      requires Reachable(codec, Now()) && archiver.Moving? && archiver.batch == batch
      requires pending <= DaysOf(batch) && day in pending && archiver.written == DaysOf(batch) - pending
      requires files == start.files + archiver.written && Put(codec, start.rows, rows, OffDays(batch, pending))
      modifies this`files, this`rows, this`archiver
      ensures Reachable(codec, Now()) && archiver.Moving? && archiver.batch == batch
      ensures archiver.written == DaysOf(batch) - (pending - {day})
      ensures files == start.files + archiver.written && Put(codec, start.rows, rows, OffDays(batch, pending - {day}))
    {
      SomeOnDay(batch, day);
      ghost var now := rows;
      WriteDay(day, OnDay(batch, day));
      OneDayLess(batch, pending, day);
      PutMore(codec, start.rows, now, rows, OffDays(batch, pending), OnDay(batch, day));
    }

    /** The day transactions of one batch; ok exactly when the process lives through them all. */
    method WriteDays(batch: map<Id, Row>, life: nat) returns (left: nat, ok: bool)
      requires Reachable(codec, Now()) && archiver == Moving(batch, {})
      modifies this`files, this`rows, this`archiver
      ensures Reachable(codec, Now()) && archiver.Moving? && archiver.batch == batch
      ensures if ok then left + |DaysOf(batch)| == life else life < |DaysOf(batch)|
      ensures ok ==> DaysOf(batch) <= archiver.written
      ensures ok ==> files == old(files) + DaysOf(batch) && Put(codec, old(rows), rows, batch)
    {
      left := life;
      ghost var start := Tables();
      var all := DaysOf(batch);
      var pending := all;
      PutNone(codec, start.rows);
      NoDays(batch);
      while pending != {}
        invariant Reachable(codec, Now()) && archiver.Moving? && archiver.batch == batch
        invariant pending <= all && archiver.written == all - pending && left + |all| == life + |pending|
        invariant files == start.files + archiver.written && Put(codec, start.rows, rows, OffDays(batch, pending))
        decreases pending
      {
        ghost var some := SomeMember(pending);
        if left == 0 {
          return 0, false;
        }
        left := left - 1;
        var day :| day in pending;
        WriteNext(batch, day, pending, start);
        pending := pending - {day};
      }
      ok := true;
    }

    /** One batch: its day transactions, then its hot transaction; ok exactly when the process lives through them. */
    method ArchiveBatch(batch: map<Id, Row>, before: int, life: nat) returns (left: nat, ok: bool)
      requires Valid() && batch.Keys <= ArchivableIds(Tables(), before)
      requires forall id :: id in batch ==> batch[id] == hot[id]
      modifies this`hot, this`markers, this`files, this`rows, this`archiver
      ensures Valid()
      ensures hot.Keys == old(hot).Keys
      ensures if ok then left + |DaysOf(batch)| + 1 == life else life <= |DaysOf(batch)|
      ensures ok ==> Archived(codec, old(Tables()), Tables(), batch)
    {
      SelectReaches(codec, Now(), batch, before);
      archiver := Moving(batch, {});
      left, ok := WriteDays(batch, life);
      if !ok || left == 0 {
        StopReaches(codec, Now());
        archiver := Idle;
        return 0, false;
      }
      left := left - 1;
      ghost var was := Tables();
      CommitBatch(batch);
      SameMove(old(Tables()), was, Tables(), batch);
    }

    /** One turn of the archive loop: the next batch moved whole, nothing left to move, or too short a life. */
    method NextBatch(before: int, life: nat, ghost start: Store, ghost moved: map<Id, Row>)
      returns (left: nat, more: bool, ok: bool, ghost sum: map<Id, Row>)
      requires Valid() && PartArchived(codec, start, Tables(), moved, before)
      modifies this`hot, this`markers, this`files, this`rows, this`archiver
      ensures Valid()
      ensures hot.Keys == old(hot).Keys
      ensures ok ==> PartArchived(codec, start, Tables(), sum, before) && |sum| <= |ArchivableIds(start, before)|
      ensures ok && more ==> |moved| < |sum| && life <= left + 2 * (|sum| - |moved|)
      ensures ok && !more ==> sum == moved == RowsOf(start, ArchivableIds(start, before)) && left == life
      ensures ok && !more ==> ArchivableIds(Tables(), before) == {}
      ensures !ok ==> life < 2 * (|ArchivableIds(start, before)| - |moved|)
    {
      sum := moved;
      var batch := SelectBatch(Tables(), before);
      ghost var now := Tables();
      BatchFits(codec, start, now, moved, batch, before);
      if batch == map[] {
        NothingLeft(codec, start, now, moved, before);
        return life, false, true, moved;
      }
      left, ok := ArchiveBatch(batch, before, life);
      if !ok {
        return left, true, false, moved;
      }
      BatchMoved(codec, start, now, Tables(), moved, batch, before);
      more, sum := true, moved + batch;
    }

    /**
     * Batches until nothing older than the boundary is left. Cut short anywhere,
     * no live row is lost, and as the tables are those of a protocol run each of
     * them still reads as inserted (LiveRowsRead);
     * completed, exactly the rows counted before have been moved. Two commits for
     * each of them are always enough to complete.
     */
    method ArchiveOlderThan(before: int, life: nat) returns (done: bool)
      requires Valid()
      modifies this`hot, this`markers, this`files, this`rows, this`archiver
      ensures Valid()
      ensures hot.Keys == old(hot).Keys
      ensures !done ==> life < 2 * |old(ArchivableIds(Tables(), before))|
      ensures done ==> ArchivableIds(Tables(), before) == {}
      ensures done ==> Archived(codec, old(Tables()), Tables(),
              RowsOf(old(Tables()), old(ArchivableIds(Tables(), before))))
      ensures done ==> forall id :: id in hot && hot[id].at < before && (hot[id].req.Some? || hot[id].resp.Some?) ==>
                         id in markers
      ensures done ==> forall id :: id in hot ==>
                var was := old(hot)[id];
                if was.at < before && (was.req.Some? || was.resp.Some?) && id !in old(markers)
                  then hot[id] == was.(req := None, resp := None) && id in markers && markers[id] == was.at / DAY_NS
                       && (markers[id], id) in rows
                       && rows[(markers[id], id)] == Stored(codec.enc(Bytes(was.req)), codec.enc(Bytes(was.resp)))
                  else hot[id] == was && (id in markers <==> id in old(markers))
    {
      ghost var start := Tables();
      ghost var moved: map<Id, Row> := map[];
      var left: nat := life;
      var more := true;
      NoneArchived(codec, start);
      while more
        invariant Valid() && PartArchived(codec, start, Tables(), moved, before) && hot.Keys == old(hot).Keys
        invariant life <= left + 2 * |moved|
        invariant !more ==> ArchivableIds(Tables(), before) == {}
        invariant !more ==> moved == RowsOf(start, ArchivableIds(start, before))
        decreases more, |ArchivableIds(start, before)| - |moved|
      {
        var ok;
        left, more, ok, moved := NextBatch(before, left, start, moved);
        if !ok {
          return false;
        }
      }
      done := true;
      ArchivedPlainly(codec, start, Tables(), before);
    }

    /** The rows of the restore's range that have a marker, in any order. */
    method ListRange(since: int, until: int) returns (todo: seq<(Id, Day)>)
      ensures Distinct(todo) && |todo| == |Listable(Tables(), since, until)|
      ensures forall p :: p in todo ==> p.0 in Listable(Tables(), since, until) && Live(Tables(), (p.1, p.0))
      ensures forall id :: id in Listable(Tables(), since, until) ==> (id, markers[id]) in todo
    {
      var all := Listable(Tables(), since, until);
      var left := all;
      todo := [];
      while left != {}
        invariant left <= all && Distinct(todo) && |todo| + |left| == |all|
        invariant forall p :: p in todo ==> p.0 in all && p.0 !in left && Live(Tables(), (p.1, p.0))
        invariant forall id :: id in all && id !in left ==> (id, markers[id]) in todo
        decreases left
      {
        var id :| id in left;
        left := left - {id};
        todo := todo + [(id, markers[id])];
      }
    }

    /** The hot commit of a restored row. */
    method PutBack(ghost todo: seq<(Id, Day)>, id: Id, ghost day: Day, req: Option<Blob>, resp: Option<Blob>)
      requires Reachable(codec, Now()) && restorer == Have(todo, id, day, req, resp) && id in hot
      modifies this`hot, this`restorer
      ensures Reachable(codec, Now()) && restorer == HotDone(todo, id, day)
      ensures hot.Keys == old(hot).Keys
      ensures Tables() == RestoreHot(old(Tables()), id, req, resp)
    {
      PutBackReaches(codec, Now(), todo, id, day, req, resp);
      hot := hot[id := hot[id].(req := req, resp := resp)];
      restorer := HotDone(todo, id, day);
    }

    /** The day row's deletion. */
    method DropDayRow(ghost todo: seq<(Id, Day)>, id: Id, day: Day)
      requires Reachable(codec, Now()) && restorer == HotDone(todo, id, day)
      modifies this`rows, this`restorer
      ensures Reachable(codec, Now()) && restorer == DayDone(todo, id)
      ensures Tables() == DeleteDayRows(old(Tables()), day, {id})
    {
      DropDayRowReaches(codec, Now(), todo, id, day);
      rows := Without(rows, day, {id});
      restorer := DayDone(todo, id);
    }

    /** The marker's deletion. */
    method DropMarker(ghost todo: seq<(Id, Day)>, id: Id)
      requires Reachable(codec, Now()) && restorer == DayDone(todo, id)
      modifies this`markers, this`restorer
      ensures Reachable(codec, Now()) && restorer == Listed(todo)
      ensures Tables() == DeleteMarker(old(Tables()), id)
    {
      DropMarkerReaches(codec, Now(), todo, id);
      markers := markers - {id};
      restorer := Listed(todo);
    }

    /**
     * One row's turn: load, put back hot, delete the day row, delete the marker; put says the hot
     * commit was reached.
     */
    method RestoreOne(id: Id, day: Day, life: nat) returns (left: nat, put: bool, end: RestoreEnd)
      requires RoundTrips(codec) && Reachable(codec, Now()) && restorer.Listed? && restorer.todo != []
      requires restorer.todo[0] == (id, day) && id in hot && Live(Tables(), (day, id))
      modifies this`hot, this`rows, this`markers, this`restorer
      ensures Reachable(codec, Now())
      ensures hot.Keys == old(hot).Keys
      ensures end.Completed? ==> put && restorer == Listed(old(restorer.todo)[1..])
      ensures end.Completed? ==> left == life - 3 && (day, id) in old(rows)
      ensures end.Completed? ==> Restored(old(Tables()), Tables(), {id})
      ensures end.MissingRow? ==> end.id == id && !put && (day, id) !in old(rows) && Tables() == old(Tables())
      ensures end.CutShort? ==> life < 3 && (put <==> life > 0)
    {
      left, put := life, false;
      if (day, id) !in rows {
        return left, false, MissingRow(id);
      }
      ghost var was := Tables();
      ghost var todo := restorer.todo;
      LiveLoads(codec, Now(), id);
      var loaded := Load(codec, rows[(day, id)]);
      var (req, resp) := loaded.value;
      LoadReaches(codec, Now(), todo);
      restorer := Have(todo[1..], id, day, req, resp);
      if left == 0 {
        return 0, false, CutShort;
      }
      PutBack(todo[1..], id, day, req, resp);
      left, put := left - 1, true;
      if left == 0 {
        return 0, put, CutShort;
      }
      DropDayRow(todo[1..], id, day);
      left := left - 1;
      if left == 0 {
        return 0, put, CutShort;
      }
      DropMarker(todo[1..], id);
      left, end := left - 1, Completed;
      StepsRestore(was, id, day, req, resp);
    }

    /** The restore loop over its list; all is the set of rows listed, each of them marked. */
    method RestoreAll(todo: seq<(Id, Day)>, life: nat, ghost all: set<Id>) returns (n: nat, end: RestoreEnd)
      requires RoundTrips(codec) && Reachable(codec, Now()) && restorer == Listed(todo) && Distinct(todo)
      requires forall p :: p in todo ==> p.0 in all && p.0 in hot && Live(Tables(), (p.1, p.0))
      requires all <= markers.Keys && forall id :: id in all ==> (id, markers[id]) in todo
      modifies this`hot, this`rows, this`markers, this`restorer
      ensures Reachable(codec, Now())
      ensures hot.Keys == old(hot).Keys
      ensures end.Completed? ==> n == |todo| && 3 * n <= life && Restored(old(Tables()), Tables(), all)
      ensures end.Completed? ==> forall id :: id in all ==> HasDayRow(old(Tables()), id)
      ensures end.MissingRow? ==> n < |todo| && 3 * n <= life && end.id in all && !HasDayRow(old(Tables()), end.id)
      ensures end.CutShort? ==> life < 3 * |todo| && n == (life + 2) / 3
    {
      ghost var start := Tables();
      n, end := 0, Completed;
      ghost var back: set<Id> := {};
      var left: nat := life;
      var i := 0;
      NoneRestored(start);
      while i < |todo|
        invariant 0 <= i <= |todo| && n == i && left + 3 * i == life && end.Completed? && hot.Keys == old(hot).Keys
        invariant Reachable(codec, Now()) && restorer == Listed(todo[i..])
        invariant back <= all && forall j :: 0 <= j < |todo| ==> (todo[j].0 in back <==> j < i)
        invariant Restored(start, Tables(), back) && forall id :: id in back ==> HasDayRow(start, id)
      {
        var (id, day) := todo[i];
        assert todo[i] in todo && id !in back;
        assert UnmarkedAt(start, Tables(), back, id) && DroppedAt(start, Tables(), back, (day, id));
        ghost var was := Tables();
        var put;
        left, put, end := RestoreOne(id, day, left);
        if put {
          n := n + 1;
        }
        if !end.Completed? {
          return;
        }
        RestoredMore(start, was, Tables(), back, {id});
        back := back + {id};
        i := i + 1;
      }
      AllBack(start, all, todo, back);
    }

    /**
     * Every listed row, three commits each. Completed, exactly the listed rows
     * have their bodies hot as first inserted and have neither marker nor day row.
     * It completes exactly when every listed marker's day row is there and the
     * process lives; otherwise it names a row whose day row is missing, or was cut
     * short, and no live row is lost. The count is of the rows put back hot.
     */
    method RestoreBetween(since: int, until: int, life: nat) returns (n: nat, end: RestoreEnd)
      requires Valid()
      modifies this`hot, this`rows, this`markers, this`restorer
      ensures Valid()
      ensures hot.Keys == old(hot).Keys
      ensures end.Completed? <==>
                var ids := old(Listable(Tables(), since, until));
                3 * |ids| <= life && forall id :: id in ids ==> HasDayRow(old(Tables()), id)
      ensures end.Completed? ==>
                var ids := old(Listable(Tables(), since, until));
                && n == |ids| && Restored(old(Tables()), Tables(), ids) && Listable(Tables(), since, until) == {}
                && forall id :: id in ids ==> id in hot && id in original && Same(hot[id], original[id])
      ensures end.Completed? ==> forall id :: id in hot ==>
                var was := old(hot)[id];
                if id in old(markers) && since <= was.at < until
                  then id !in markers && (old(markers)[id], id) !in rows && hot[id].at == was.at
                       && id in original && Bytes(hot[id].req) == Bytes(original[id].req)
                       && Bytes(hot[id].resp) == Bytes(original[id].resp)
                  else hot[id] == was && (id in markers <==> id in old(markers))
      ensures end.MissingRow? ==>
                var ids := old(Listable(Tables(), since, until));
                n < |ids| && 3 * n <= life && end.id in ids && !HasDayRow(old(Tables()), end.id)
      ensures end.CutShort? ==> life < 3 * |old(Listable(Tables(), since, until))| && n == (life + 2) / 3
    {
      ghost var start := Tables();
      ghost var all := Listable(start, since, until);
      var todo := ListRange(since, until);
      ListReaches(codec, Now(), todo);
      restorer := Listed(todo);
      n, end := RestoreAll(todo, life, all);
      RestReaches(codec, Now());
      restorer := Resting;
      if end.Completed? {
        NowHot(codec, start, Now(), all, since, until);
        RestoredPlainly(start, Tables(), since, until);
      }
    }

    /**
     * One pass over the day files. Cut short anywhere it changes no read;
     * finished, the files left are those some marker names, and the rows left in
     * them are exactly the marked ones. One commit a file is always enough.
     */
    method GCArchive(life: nat) returns (done: bool)
      requires Valid()
      modifies this`files, this`rows
      ensures Valid()
      ensures forall id :: Read(codec, Tables(), id) == old(Read(codec, Tables(), id))
      ensures !done ==> life < |old(files)|
      ensures done ==> files == markers.Values
      ensures done ==> forall k :: k in rows <==> k in old(rows) && k.1 in markers && markers[k.1] == k.0
      ensures forall k :: k in rows ==> k in old(rows) && rows[k] == old(rows)[k]
    {
      ghost var begin := Now();
      ghost var start := Tables();
      var known := markers.Values;
      var left: nat := life;
      var entries := files;
      ghost var swept: set<Day> := {};
      NoneCollected(start);
      while entries != {}
        invariant Valid() && entries !! swept && entries + swept == start.files
        invariant left + |start.files| == life + |entries|
        invariant Collected(start, Tables(), swept)
        decreases entries
      {
        if left == 0 {
          GcResult(codec, begin, Now(), swept);
          return false;
        }
        left := left - 1;
        ghost var some := SomeMember(entries);
        var day :| day in entries;
        entries := entries - {day};
        GcReaches(codec, Now(), day, day in known);
        CollectDay(start, Tables(), swept, day);
        assert day in files by {
          assert FileAt(start, Tables(), swept, day);
        }
        swept := swept + {day};
        var ids := MarkedIn(markers, day);
        if ids == {} {
          if day !in known {
            files, rows := files - {day}, OnlyMarked(rows, day, {});
          }
        } else {
          rows := OnlyMarked(rows, day, ids);
        }
      }
      GcResult(codec, begin, Now(), swept);
      done := true;
    }

    /**
     * deleteDayRows: what is left in the day files of rows a purge has removed, a day at a time;
     * one commit a day is enough.
     */
    method SweepDays(ids: set<Id>, names: map<Id, Day>, life: nat, ghost start: Store) returns (done: bool)
      requires Open() && names == Named(start, ids)
      requires Purged(start, Tables(), ids, {}) && Targets(start, ids) <= doomed
      modifies this`rows
      ensures Open()
      ensures !done ==> life < |names.Values|
      ensures done ==> Purged(start, Tables(), ids, names.Values)
      ensures exists swept :: Purged(start, Tables(), ids, swept)
    {
      var left: nat := life;
      var days := names.Values;
      ghost var swept: set<Day> := {};
      while days != {}
        invariant Open() && days + swept == names.Values && Purged(start, Tables(), ids, swept)
        invariant left + |names.Values| == life + |days|
        decreases days
      {
        if left == 0 {
          return false;
        }
        left := left - 1;
        ghost var some := SomeMember(days);
        var day :| day in days;
        days := days - {day};
        var gone := MarkedIn(names, day);
        Doomed(start, ids, day);
        PurgeDayReaches(codec, Now(), day, gone);
        SweepDay(start, Tables(), ids, swept, day);
        rows := Without(rows, day, gone);
        swept := swept + {day};
      }
      done := true;
    }

    /**
     * purgeWhere's part in the archive: rows and markers in one transaction, then
     * the rows those markers named, a day at a time. It finishes whenever the
     * process lives for the transaction and one commit for each of those days. An
     * archiver or a restorer may be under way.
     */
    method PurgeWhere(where: (Id, Row) -> bool, life: nat) returns (deleted: nat, done: bool)
      requires Open()
      modifies this`hot, this`markers, this`rows, this`doomed
      ensures Open()
      ensures life == 0 ==> deleted == 0 && !done && Tables() == old(Tables())
      ensures life > 0 ==> deleted == |set id | id in old(hot) && where(id, old(hot)[id])|
      ensures life > 0 ==> forall id :: id in hot <==> id in old(hot) && !where(id, old(hot)[id])
      ensures forall id :: id in hot ==> hot[id] == old(hot)[id]
      ensures life > 0 ==> forall id :: id in markers <==>
                id in old(markers) && !(id in old(hot) && where(id, old(hot)[id]))
      ensures forall id :: id in markers ==> markers[id] == old(markers)[id]
      ensures forall id :: Read(codec, Tables(), id) ==
                             if life > 0 && id in old(hot) && where(id, old(hot)[id]) then NotFound
                             else old(Read(codec, Tables(), id))
      ensures forall k :: k in rows ==> k in old(rows) && rows[k] == old(rows)[k]
      ensures done ==> forall k :: k in rows <==>
                k in old(rows) && !(k.1 in old(hot) && where(k.1, old(hot)[k.1])
                                    && k.1 in old(markers) && old(markers)[k.1] == k.0)
      ensures !done ==> life <= |old(Named(Tables(), Matching(Tables(), where))).Values|
    {
      if life == 0 {
        return 0, false;
      }
      ghost var start := Tables();
      var ids := Matching(Tables(), where);
      var names := Named(Tables(), ids);
      PurgeReaches(codec, Now(), ids);
      PurgeCommits(start, ids);
      hot, markers := hot - ids, markers - (ids * hot.Keys);
      doomed := doomed + Targets(start, ids);
      deleted := |ids|;
      done := SweepDays(ids, names, life - 1, start);
      PurgeResult(codec, start, Tables(), where);
      if done {
        AllSwept(start, Tables(), ids);
        SweptPlainly(start, Tables(), where);
      }
    }
  }

  lemma Doomed(s: Store, ids: set<Id>, day: Day)
    ensures forall id :: id in MarkedIn(Named(s, ids), day) ==> (day, id) in Targets(s, ids)
  {
    forall id | id in MarkedIn(Named(s, ids), day)
      ensures (day, id) in Targets(s, ids)
    {
      assert (s.markers[id], id) in Targets(s, ids);
    }
  }

  lemma GcResult(c: Codec, s: World, w: World, days: set<Day>)
    requires RoundTrips(c) && Reachable(c, s) && Reachable(c, w) && Collected(s.store, w.store, days)
    ensures forall id :: Read(c, w.store, id) == Read(c, s.store, id)
    ensures days == s.store.files ==> w.store.files == w.store.markers.Values
    ensures days == s.store.files ==>
              forall k :: k in w.store.rows <==>
                k in s.store.rows && k.1 in w.store.markers && w.store.markers[k.1] == k.0
    ensures forall k :: k in w.store.rows ==> k in s.store.rows && w.store.rows[k] == s.store.rows[k]
  {
    ReachableInv(c, s);
    ReachableInv(c, w);
    forall d | d in w.store.markers.Values
      ensures d in s.store.files
    {
      var id :| id in w.store.markers && w.store.markers[id] == d;
    }
    forall id
      ensures Read(c, w.store, id) == Read(c, s.store, id)
    {
      CollectedReads(c, s.store, w.store, days, id);
    }
    forall k | k in w.store.rows
      ensures k in s.store.rows && w.store.rows[k] == s.store.rows[k]
    {
      assert CollectedAt(s.store, w.store, days, k);
    }
    if days == s.store.files {
      forall d
        ensures d in w.store.files <==> d in w.store.markers.Values
      {
        assert FileAt(s.store, w.store, days, d);
      }
      forall k
        ensures k in w.store.rows <==> k in s.store.rows && Live(w.store, k)
      {
        assert CollectedAt(s.store, w.store, days, k);
      }
    }
  }

  lemma PurgeResult(c: Codec, s: Store, t: Store, where: (Id, Row) -> bool)
    requires exists days :: Purged(s, t, Matching(s, where), days)
    ensures forall id :: id in t.hot <==> id in s.hot && !where(id, s.hot[id])
    ensures forall id :: id in t.hot ==> t.hot[id] == s.hot[id]
    ensures forall id :: id in t.markers <==> id in s.markers && !(id in s.hot && where(id, s.hot[id]))
    ensures forall id :: id in t.markers ==> t.markers[id] == s.markers[id]
    ensures forall id :: Read(c, t, id) == if id in s.hot && where(id, s.hot[id]) then NotFound else Read(c, s, id)
    ensures forall k :: k in t.rows ==> k in s.rows && t.rows[k] == s.rows[k]
  {
    var days :| Purged(s, t, Matching(s, where), days);
    forall id
      ensures id in t.hot <==> id in s.hot && !where(id, s.hot[id])
      ensures id in t.hot ==> t.hot[id] == s.hot[id]
      ensures id in t.markers <==> id in s.markers && !(id in s.hot && where(id, s.hot[id]))
      ensures id in t.markers ==> t.markers[id] == s.markers[id]
      ensures Read(c, t, id) == if id in s.hot && where(id, s.hot[id]) then NotFound else Read(c, s, id)
    {
      assert PurgedAt(s, t, Matching(s, where), id);
      PurgedReads(c, s, t, Matching(s, where), days, id);
    }
    forall k | k in t.rows
      ensures k in s.rows && t.rows[k] == s.rows[k]
    {
      assert SweptAt(s, t, Matching(s, where), days, k);
    }
  }

  /** A purge that is through has deleted the day rows its rows' markers named, and no other. */
  lemma SweptPlainly(s: Store, t: Store, where: (Id, Row) -> bool)
    requires Swept(s, t, Matching(s, where))
    ensures forall k :: k in t.rows <==>
              k in s.rows && !(k.1 in s.hot && where(k.1, s.hot[k.1]) && k.1 in s.markers && s.markers[k.1] == k.0)
  {
    forall k
      ensures k in t.rows <==>
              k in s.rows && !(k.1 in s.hot && where(k.1, s.hot[k.1]) && k.1 in s.markers && s.markers[k.1] == k.0)
    {
      assert GoneAt(s, t, Matching(s, where), k);
    }
  }

  function OffDays(batch: map<Id, Row>, days: set<Day>): map<Id, Row> {
    map id | id in batch && DayOf(batch[id].at) !in days :: batch[id]
  }

  lemma NoDays(batch: map<Id, Row>)
    ensures OffDays(batch, DaysOf(batch)) == map[] && OffDays(batch, {}) == batch
  {
    assert forall id :: id in batch ==> DayOf(batch[id].at) in DaysOf(batch);
  }

  lemma OneDayLess(batch: map<Id, Row>, days: set<Day>, day: Day)
    requires day in days
    ensures OffDays(batch, days - {day}) == OffDays(batch, days) + OnDay(batch, day)
    ensures OffDays(batch, days).Keys !! OnDay(batch, day).Keys
  {
  }

  lemma SomeOnDay(batch: map<Id, Row>, day: Day)
    requires day in DaysOf(batch)
    ensures OnDay(batch, day) != map[]
  {
    var id :| id in batch && DayOf(batch[id].at) == day;
    assert id in OnDay(batch, day);
  }
}
