/**
 * The two-store body archive as a protocol (internal/store/archiver.go).
 *
 * Bodies move between the hot table and per-day files through separate commits.
 * Every commit is one action; processes stop (or crash) between any two. At most
 * one archiver and one restorer are under way at a time, any number of purges,
 * and no GC pass falls between an archiver's day-file write and its hot commit.
 */
module Archive {
  import opened Options
  import Sse

  type Blob = Sse.Bytes
  type Id = nat
  type Day = int

  const DAY_NS: int := 86_400_000_000_000

  /** The UTC day a start time (Unix nanoseconds) falls in. */
  function DayOf(at: int): Day { at / DAY_NS }

  /** zstd, as a pair of functions. */
  datatype Codec = Codec(enc: Blob -> Blob, dec: Blob -> Option<Blob>)

  /** What is needed of it: nothing encodes to nothing, anything else comes back. */
  ghost predicate RoundTrips(c: Codec) {
    && c.enc([]) == []
    && forall b :: b != [] ==> c.enc(b) != [] && c.dec(c.enc(b)) == Some(b)
  }

  /** A request row, reduced to what the archive touches; None is SQL NULL. */
  datatype Row = Row(at: int, req: Option<Blob>, resp: Option<Blob>)

  /** A day-file row: the two encoded bodies, empty for an absent one. */
  datatype Stored = Stored(req: Blob, resp: Blob)

  /** The hot table, the marker table, the day files that exist, and their rows by day and id. */
  datatype Store = Store(hot: map<Id, Row>, markers: map<Id, Day>, files: set<Day>, rows: map<(Day, Id), Stored>)

  // ---------------------------------------------------------------- reading

  function Bytes(b: Option<Blob>): Blob { if b.Some? then b.value else [] }

  /** Equal up to nil against empty. */
  predicate Same(a: Row, b: Row) { Bytes(a.req) == Bytes(b.req) && Bytes(a.resp) == Bytes(b.resp) }

  predicate HasBody(r: Row) { r.req.Some? || r.resp.Some? }

  datatype ReadResult = NotFound | Failed | Found(row: Row)

  /** One stored body over the hot one: an empty one leaves it, an undecodable one fails the read. */
  function Overlay(c: Codec, hot: Option<Blob>, stored: Blob): Option<Option<Blob>> {
    if stored == [] then Some(hot)
    else if c.dec(stored).None? then None
    else Some(Some(c.dec(stored).value))
  }

  /**
   * hydrateBodies: a hot row read before, with the bodies of its day-file row laid over it when a
   * marker was found for it.
   */
  function Hydrate(c: Codec, row: Row, marker: Option<Day>, s: Store, id: Id): ReadResult {
    if marker.None? then Found(row)
    else if marker.value !in s.files then Failed
    else if (marker.value, id) !in s.rows then Found(row)
    else
      var st := s.rows[(marker.value, id)];
      var req, resp := Overlay(c, row.req, st.req), Overlay(c, row.resp, st.resp);
      if req.None? || resp.None? then Failed else Found(row.(req := req.value, resp := resp.value))
  }

  function Marker(s: Store, id: Id): Option<Day> { if id in s.markers then Some(s.markers[id]) else None }

  /** GetRequest, its three queries at one moment. */
  function Read(c: Codec, s: Store, id: Id): ReadResult {
    if id !in s.hot then NotFound else Hydrate(c, s.hot[id], Marker(s, id), s, id)
  }

  // ------------------------------------------------------- the single commits

  predicate Archivable(s: Store, before: int, id: Id) {
    id in s.hot && s.hot[id].at < before && HasBody(s.hot[id]) && id !in s.markers
  }

  function Encode(c: Codec, r: Row): Stored { Stored(c.enc(Bytes(r.req)), c.enc(Bytes(r.resp))) }

  /** What the day file loads back; an empty column stays as it is. */
  function Load(c: Codec, st: Stored): Option<(Option<Blob>, Option<Blob>)> {
    var req, resp := Overlay(c, None, st.req), Overlay(c, None, st.resp);
    if req.None? || resp.None? then None else Some((req.value, resp.value))
  }

  function OnDay(batch: map<Id, Row>, day: Day): map<Id, Row> {
    map id | id in batch && DayOf(batch[id].at) == day :: batch[id]
  }

  function Encoded(c: Codec, rows: map<Id, Row>, day: Day): map<(Day, Id), Stored> {
    map id | id in rows :: (day, id) := Encode(c, rows[id])
  }

  /** writeDay: rows inserted or replaced in one day's file. */
  function WriteDay(c: Codec, s: Store, rows: map<Id, Row>, day: Day): Store {
    s.(files := s.files + {day}, rows := s.rows + Encoded(c, rows, day))
  }

  /** The hot commit of a batch: markers in, bodies out, in one transaction. */
  function HotCommit(s: Store, batch: map<Id, Row>): Store {
    s.(markers := s.markers + (map id | id in batch :: DayOf(batch[id].at)),
       hot := map id | id in s.hot :: if id in batch then s.hot[id].(req := None, resp := None) else s.hot[id])
  }

  function RestoreHot(s: Store, id: Id, req: Option<Blob>, resp: Option<Blob>): Store {
    if id in s.hot then s.(hot := s.hot[id := s.hot[id].(req := req, resp := resp)]) else s
  }

  function Without(rows: map<(Day, Id), Stored>, day: Day, ids: set<Id>): map<(Day, Id), Stored> {
    map k | k in rows && !(k.0 == day && k.1 in ids) :: rows[k]
  }

  /** DELETE of some rows from one day's file. */
  function DeleteDayRows(s: Store, day: Day, ids: set<Id>): Store { s.(rows := Without(s.rows, day, ids)) }

  function DeleteMarker(s: Store, id: Id): Store { s.(markers := s.markers - {id}) }

  /** The purge transaction: rows and their markers; the day rows they named go later. */
  function PurgeRows(s: Store, ids: set<Id>): Store {
    s.(hot := s.hot - ids, markers := s.markers - (ids * s.hot.Keys))
  }

  function MarkedIn(markers: map<Id, Day>, day: Day): set<Id> { set id | id in markers && markers[id] == day }

  /** DELETE of every other row from one day's file. */
  function OnlyMarked(rows: map<(Day, Id), Stored>, day: Day, ids: set<Id>): map<(Day, Id), Stored> {
    map k | k in rows && (k.0 != day || k.1 in ids) :: rows[k]
  }

  /** One day's turn in a GC pass; known says the day had a marker when the pass began. */
  function GcDay(s: Store, day: Day, known: bool): Store {
    if day !in s.files then s
    else if MarkedIn(s.markers, day) == {} then
      if known then s else s.(files := s.files - {day}, rows := OnlyMarked(s.rows, day, {}))
    else s.(rows := OnlyMarked(s.rows, day, MarkedIn(s.markers, day)))
  }

  // ----------------------------------------------------------- the processes

  datatype Archiver = Idle | Moving(batch: map<Id, Row>, written: set<Day>)

  datatype Restorer =
    | Resting
    | Listed(todo: seq<(Id, Day)>)
    | Have(todo: seq<(Id, Day)>, id: Id, day: Day, req: Option<Blob>, resp: Option<Blob>)
    | HotDone(todo: seq<(Id, Day)>, id: Id, day: Day)
    | DayDone(todo: seq<(Id, Day)>, id: Id)

  /** doomed: day rows a purge has still to delete. original: every row as inserted. */
  datatype World = World(store: Store, archiver: Archiver, restorer: Restorer, doomed: set<(Day, Id)>, next: Id,
                         original: map<Id, Row>)

  const EMPTY := World(Store(map[], map[], {}, map[]), Idle, Resting, {}, 0, map[])

  datatype Action =
    | Insert(row: Row)
    | Select(batch: map<Id, Row>, before: int)
    | Write(day: Day)
    | Commit
    | StopArchiver
    | List(todo: seq<(Id, Day)>)
    | LoadNext
    | PutBack
    | DropDayRow
    | DropMarker
    | StopRestorer
    | Purge(ids: set<Id>)
    | PurgeDay(day: Day, ids: set<Id>)
    | Gc(day: Day, known: bool)

  predicate Distinct(todo: seq<(Id, Day)>) {
    forall i, j :: 0 <= i < j < |todo| ==> todo[i].0 != todo[j].0
  }

  predicate Enabled(c: Codec, w: World, a: Action) {
    match a
    case Insert(_) => true
    case Select(batch, before) =>
      && w.archiver.Idle?
      && forall id :: id in batch ==> Archivable(w.store, before, id) && batch[id] == w.store.hot[id]
    case Write(day) => w.archiver.Moving? && OnDay(w.archiver.batch, day) != map[]
    case Commit => w.archiver.Moving? && forall id :: id in w.archiver.batch ==>
        DayOf(w.archiver.batch[id].at) in w.archiver.written
    case StopArchiver => true
    case List(todo) =>
      && w.restorer.Resting? && Distinct(todo)
      && forall p :: p in todo ==> p.0 in w.store.hot && p.0 in w.store.markers && w.store.markers[p.0] == p.1
    case LoadNext =>
      && w.restorer.Listed? && w.restorer.todo != []
      && var (id, day) := w.restorer.todo[0];
         (day, id) in w.store.rows && Load(c, w.store.rows[(day, id)]).Some?
    case PutBack => w.restorer.Have?
    case DropDayRow => w.restorer.HotDone?
    case DropMarker => w.restorer.DayDone?
    case StopRestorer => true
    case Purge(ids) => ids <= w.store.hot.Keys
    case PurgeDay(day, ids) => forall id :: id in ids ==> (day, id) in w.doomed
    case Gc(_, _) => w.archiver.Moving? ==> w.archiver.written == {}
  }

  function Do(c: Codec, w: World, a: Action): World
    requires Enabled(c, w, a)
  {
    match a
    case Insert(row) => w.(store := w.store.(hot := w.store.hot[w.next := row]), next := w.next + 1,
        original := w.original[w.next := row])
    case Select(batch, _) => w.(archiver := Moving(batch, {}))
    case Write(day) => w.(store := WriteDay(c, w.store, OnDay(w.archiver.batch, day), day),
        archiver := w.archiver.(written := w.archiver.written + {day}))
    case Commit => w.(store := HotCommit(w.store, w.archiver.batch), archiver := Idle)
    case StopArchiver => w.(archiver := Idle)
    case List(todo) => w.(restorer := Listed(todo))
    case LoadNext =>
      var (id, day) := w.restorer.todo[0];
      var (req, resp) := Load(c, w.store.rows[(day, id)]).value;
      w.(restorer := Have(w.restorer.todo[1..], id, day, req, resp))
    case PutBack => w.(store := RestoreHot(w.store, w.restorer.id, w.restorer.req, w.restorer.resp),
        restorer := HotDone(w.restorer.todo, w.restorer.id, w.restorer.day))
    case DropDayRow => w.(store := DeleteDayRows(w.store, w.restorer.day, {w.restorer.id}),
        restorer := DayDone(w.restorer.todo, w.restorer.id))
    case DropMarker => w.(store := DeleteMarker(w.store, w.restorer.id), restorer := Listed(w.restorer.todo))
    case StopRestorer => w.(restorer := Resting)
    case Purge(ids) => w.(store := PurgeRows(w.store, ids),
        doomed := w.doomed + set id | id in ids && id in w.store.markers :: (w.store.markers[id], id))
    case PurgeDay(day, ids) => w.(store := DeleteDayRows(w.store, day, ids))
    case Gc(day, known) => w.(store := GcDay(w.store, day, known))
  }

  // ------------------------------------------------------------ the invariant

  /** The stored row is the original, encoded. */
  predicate Keeps(c: Codec, st: Stored, o: Row) { st == Encode(c, o) }

  /** Each body is gone or still the original one. */
  predicate PartOf(r: Row, o: Row) {
    (Bytes(r.req) == [] || Bytes(r.req) == Bytes(o.req)) && (Bytes(r.resp) == [] || Bytes(r.resp) == Bytes(o.resp))
  }

  /** A live row: its body is hot, or in the day file its marker names. */
  predicate RowSafe(c: Codec, s: Store, id: Id, o: Row)
    requires id in s.hot
  {
    && s.hot[id].at == o.at
    && if id !in s.markers then Same(s.hot[id], o)
       else
         && s.markers[id] == DayOf(o.at)
         && if (s.markers[id], id) in s.rows
            then Keeps(c, s.rows[(s.markers[id], id)], o) && PartOf(s.hot[id], o)
            else Same(s.hot[id], o)
  }

  predicate StoreSafe(c: Codec, w: World) {
    && (forall id :: id in w.store.hot ==> id in w.original && RowSafe(c, w.store, id, w.original[id]))
    && (forall id :: id in w.store.markers ==> id < w.next && w.store.markers[id] in w.store.files)
    && (forall id :: id in w.original ==> id < w.next)
  }

  /** Days already written hold the rows of the batch that are still live. */
  predicate ArchiverSafe(c: Codec, w: World) {
    w.archiver.Moving? ==>
      && w.archiver.written <= w.store.files
      && (forall id :: id in w.archiver.batch ==>
            && id in w.original && id !in w.store.markers
            && w.archiver.batch[id].at == w.original[id].at && Same(w.archiver.batch[id], w.original[id]))
      && (forall id ::
            id in w.archiver.batch && id in w.store.hot && DayOf(w.archiver.batch[id].at) in w.archiver.written ==>
            && (DayOf(w.archiver.batch[id].at), id) in w.store.rows
            && Keeps(c, w.store.rows[(DayOf(w.archiver.batch[id].at), id)], w.original[id]))
  }

  /** A row the restorer still means to touch has, while it lives, the marker it was listed with. */
  predicate Pending(s: Store, id: Id, day: Day) {
    id in s.hot ==> id in s.markers && s.markers[id] == day
  }

  predicate RestorerSafe(w: World) {
    var r := w.restorer;
    r.Resting? || (
      && Distinct(r.todo)
      && (forall p :: p in r.todo ==> Pending(w.store, p.0, p.1) && p.0 < w.next)
      && (!r.Listed? ==> r.id < w.next && forall p :: p in r.todo ==> p.0 != r.id)
      && (r.Have? || r.HotDone? ==> Pending(w.store, r.id, r.day))
      && (r.Have? && r.id in w.store.hot && r.id in w.original ==>
            Bytes(r.req) == Bytes(w.original[r.id].req) && Bytes(r.resp) == Bytes(w.original[r.id].resp))
      && (r.DayDone? && r.id in w.store.hot ==> r.id in w.store.markers)
      && (r.HotDone? || r.DayDone? ==> r.id in w.store.hot && r.id in w.original ==>
          Same(w.store.hot[r.id], w.original[r.id])))
  }

  predicate PurgesSafe(w: World) {
    forall p :: p in w.doomed ==> p.1 !in w.store.hot && p.1 < w.next
  }

  predicate Inv(c: Codec, w: World) {
    StoreSafe(c, w) && ArchiverSafe(c, w) && RestorerSafe(w) && PurgesSafe(w)
  }

  // ---------------------------------------------------------------- the proof

  lemma EncodedReads(c: Codec, hot: Option<Blob>, o: Option<Blob>)
    requires RoundTrips(c) && (Bytes(hot) == [] || Bytes(hot) == Bytes(o))
    ensures Overlay(c, hot, c.enc(Bytes(o))).Some? && Bytes(Overlay(c, hot, c.enc(Bytes(o))).value) == Bytes(o)
  {
  }

  /** In a safe world every live row reads as it was inserted, up to nil against empty. */
  lemma SafeReads(c: Codec, w: World, id: Id)
    requires RoundTrips(c) && StoreSafe(c, w) && id in w.store.hot
    ensures Read(c, w.store, id).Found? && Same(Read(c, w.store, id).row, w.original[id])
  {
    var o := w.original[id];
    EncodedReads(c, w.store.hot[id].req, o.req);
    EncodedReads(c, w.store.hot[id].resp, o.resp);
  }

  lemma LoadsBack(c: Codec, o: Row)
    requires RoundTrips(c)
    ensures var l := Load(c, Encode(c, o));
            l.Some? && Bytes(l.value.0) == Bytes(o.req) && Bytes(l.value.1) == Bytes(o.resp)
  {
    EncodedReads(c, None, o.req);
    EncodedReads(c, None, o.resp);
  }

  lemma StepInsert(c: Codec, w: World, row: Row)
    requires Inv(c, w)
    ensures Inv(c, Do(c, w, Insert(row)))
  {
  }

  lemma WriteKeepsRows(c: Codec, w: World, day: Day)
    requires Inv(c, w) && Enabled(c, w, Write(day))
    ensures StoreSafe(c, Do(c, w, Write(day)))
  {
  }

  lemma WriteKeepsTheRest(c: Codec, w: World, day: Day)
    requires Inv(c, w) && Enabled(c, w, Write(day))
    ensures var v := Do(c, w, Write(day));
            ArchiverSafe(c, v) && RestorerSafe(v) && PurgesSafe(v)
  {
  }

  lemma StepWrite(c: Codec, w: World, day: Day)
    requires Inv(c, w) && Enabled(c, w, Write(day))
    ensures Inv(c, Do(c, w, Write(day)))
  {
    WriteKeepsRows(c, w, day);
    WriteKeepsTheRest(c, w, day);
  }

  lemma CommitRowSafe(c: Codec, w: World, id: Id)
    requires Inv(c, w) && Enabled(c, w, Commit) && id in w.store.hot
    ensures RowSafe(c, HotCommit(w.store, w.archiver.batch), id, w.original[id])
  {
    var v := HotCommit(w.store, w.archiver.batch);
    assert RowSafe(c, w.store, id, w.original[id]);
    if id in w.archiver.batch {
      var day := DayOf(w.archiver.batch[id].at);
      assert day in w.archiver.written && v.markers[id] == day && v.rows == w.store.rows;
      assert Keeps(c, w.store.rows[(day, id)], w.original[id]);
    } else {
      assert v.hot[id] == w.store.hot[id] && v.rows == w.store.rows;
    }
  }

  lemma StepCommit(c: Codec, w: World)
    requires Inv(c, w) && Enabled(c, w, Commit)
    ensures Inv(c, Do(c, w, Commit))
  {
    var v := Do(c, w, Commit);
    assert StoreSafe(c, v) by {
      forall id | id in v.store.hot
        ensures RowSafe(c, v.store, id, v.original[id])
      {
        CommitRowSafe(c, w, id);
      }
    }
    assert RestorerSafe(v);
  }

  lemma StepLoad(c: Codec, w: World)
    requires RoundTrips(c) && Inv(c, w) && Enabled(c, w, LoadNext)
    ensures Inv(c, Do(c, w, LoadNext))
  {
    var (id, day) := w.restorer.todo[0];
    if id in w.store.hot {
      LoadsBack(c, w.original[id]);
    }
  }

  lemma PutBackKeepsRows(c: Codec, w: World)
    requires Inv(c, w) && Enabled(c, w, PutBack)
    ensures StoreSafe(c, Do(c, w, PutBack))
  {
  }

  lemma PutBackKeepsTheRest(c: Codec, w: World)
    requires Inv(c, w) && Enabled(c, w, PutBack)
    ensures var v := Do(c, w, PutBack);
            ArchiverSafe(c, v) && RestorerSafe(v) && PurgesSafe(v)
  {
  }

  lemma StepPutBack(c: Codec, w: World)
    requires Inv(c, w) && Enabled(c, w, PutBack)
    ensures Inv(c, Do(c, w, PutBack))
  {
    PutBackKeepsRows(c, w);
    PutBackKeepsTheRest(c, w);
  }

  lemma DropDayRowKeepsRows(c: Codec, w: World)
    requires Inv(c, w) && Enabled(c, w, DropDayRow)
    ensures StoreSafe(c, Do(c, w, DropDayRow))
  {
  }

  lemma DropDayRowKeepsTheRest(c: Codec, w: World)
    requires Inv(c, w) && Enabled(c, w, DropDayRow)
    ensures var v := Do(c, w, DropDayRow);
            ArchiverSafe(c, v) && RestorerSafe(v) && PurgesSafe(v)
  {
  }

  lemma StepDropDayRow(c: Codec, w: World)
    requires Inv(c, w) && Enabled(c, w, DropDayRow)
    ensures Inv(c, Do(c, w, DropDayRow))
  {
    DropDayRowKeepsRows(c, w);
    DropDayRowKeepsTheRest(c, w);
  }

  lemma StepDropMarker(c: Codec, w: World)
    requires Inv(c, w) && Enabled(c, w, DropMarker)
    ensures Inv(c, Do(c, w, DropMarker))
  {
  }

  lemma StepPurge(c: Codec, w: World, ids: set<Id>)
    requires Inv(c, w) && Enabled(c, w, Purge(ids))
    ensures Inv(c, Do(c, w, Purge(ids)))
  {
  }

  lemma PurgeDayKeepsRows(c: Codec, w: World, day: Day, ids: set<Id>)
    requires Inv(c, w) && Enabled(c, w, PurgeDay(day, ids))
    ensures StoreSafe(c, Do(c, w, PurgeDay(day, ids)))
  {
  }

  lemma PurgeDayKeepsTheRest(c: Codec, w: World, day: Day, ids: set<Id>)
    requires Inv(c, w) && Enabled(c, w, PurgeDay(day, ids))
    ensures var v := Do(c, w, PurgeDay(day, ids));
            ArchiverSafe(c, v) && RestorerSafe(v) && PurgesSafe(v)
  {
  }

  lemma StepPurgeDay(c: Codec, w: World, day: Day, ids: set<Id>)
    requires Inv(c, w) && Enabled(c, w, PurgeDay(day, ids))
    ensures Inv(c, Do(c, w, PurgeDay(day, ids)))
  {
    PurgeDayKeepsRows(c, w, day, ids);
    PurgeDayKeepsTheRest(c, w, day, ids);
  }

  lemma GcKeepsRows(c: Codec, w: World, day: Day, known: bool)
    requires Inv(c, w) && Enabled(c, w, Gc(day, known))
    ensures StoreSafe(c, Do(c, w, Gc(day, known)))
  {
    assert forall id :: id in w.store.markers && w.store.markers[id] == day ==> id in MarkedIn(w.store.markers, day);
  }

  lemma GcKeepsTheRest(c: Codec, w: World, day: Day, known: bool)
    requires Inv(c, w) && Enabled(c, w, Gc(day, known))
    ensures var v := Do(c, w, Gc(day, known));
            ArchiverSafe(c, v) && RestorerSafe(v) && PurgesSafe(v)
  {
  }

  lemma StepGc(c: Codec, w: World, day: Day, known: bool)
    requires Inv(c, w) && Enabled(c, w, Gc(day, known))
    ensures Inv(c, Do(c, w, Gc(day, known)))
  {
    GcKeepsRows(c, w, day, known);
    GcKeepsTheRest(c, w, day, known);
  }

  /** Every commit of every process keeps the invariant. */
  lemma StepKeepsInv(c: Codec, w: World, a: Action)
    requires RoundTrips(c) && Inv(c, w) && Enabled(c, w, a)
    ensures Inv(c, Do(c, w, a))
  {
    match a
    case Insert(row) => StepInsert(c, w, row);
    case Select(_, _) =>
    case Write(day) => StepWrite(c, w, day);
    case Commit => StepCommit(c, w);
    case StopArchiver =>
    case List(todo) =>
    case LoadNext => StepLoad(c, w);
    case PutBack => StepPutBack(c, w);
    case DropDayRow => StepDropDayRow(c, w);
    case DropMarker => StepDropMarker(c, w);
    case StopRestorer =>
    case Purge(ids) => StepPurge(c, w, ids);
    case PurgeDay(day, ids) => StepPurgeDay(c, w, day, ids);
    case Gc(day, known) => StepGc(c, w, day, known);
  }

  /** A run: the worlds a list of actions leads through. */
  predicate Runs(c: Codec, w: World, actions: seq<Action>)
    decreases |actions|
  {
    actions == [] || (Enabled(c, w, actions[0]) && Runs(c, Do(c, w, actions[0]), actions[1..]))
  }

  function After(c: Codec, w: World, actions: seq<Action>): World
    requires Runs(c, w, actions)
    decreases |actions|
  {
    if actions == [] then w else After(c, Do(c, w, actions[0]), actions[1..])
  }

  lemma {:induction false} RunKeepsInv(c: Codec, w: World, actions: seq<Action>)
    requires RoundTrips(c) && Inv(c, w) && Runs(c, w, actions)
    ensures Inv(c, After(c, w, actions))
    decreases |actions|
  {
    if actions != [] {
      StepKeepsInv(c, w, actions[0]);
      RunKeepsInv(c, Do(c, w, actions[0]), actions[1..]);
    }
  }

  /** Some purge of the run names the row. */
  predicate EverPurged(actions: seq<Action>, id: Id) { exists a :: a in actions && a.Purge? && id in a.ids }

  /** A row stays in the hot table until a purge names it. */
  lemma StepKeepsRow(c: Codec, w: World, a: Action, id: Id)
    requires Inv(c, w) && Enabled(c, w, a)
    ensures id in Do(c, w, a).original <==> id in w.original || (a.Insert? && id == w.next)
    ensures id in w.store.hot && !(a.Purge? && id in a.ids) ==> id in Do(c, w, a).store.hot
    ensures a.Insert? && id == w.next ==> id in Do(c, w, a).store.hot
  {
  }

  lemma {:induction false} RunKeepsRow(c: Codec, w: World, actions: seq<Action>, id: Id)
    requires RoundTrips(c) && Inv(c, w) && Runs(c, w, actions) && (id in w.original ==> id in w.store.hot)
    ensures id in After(c, w, actions).original ==> EverPurged(actions, id) || id in After(c, w, actions).store.hot
    decreases |actions|
  {
    if actions != [] {
      var a, rest := actions[0], actions[1..];
      StepKeepsInv(c, w, a);
      StepKeepsRow(c, w, a, id);
      if !(a.Purge? && id in a.ids) {
        RunKeepsRow(c, Do(c, w, a), rest, id);
        PurgedLater(actions, id);
      } else {
        assert a in actions;
      }
    }
  }

  lemma PurgedLater(actions: seq<Action>, id: Id)
    requires actions != []
    ensures EverPurged(actions[1..], id) ==> EverPurged(actions, id)
  {
  }

  /**
   * No run loses a body: after any interleaving of inserts, archiving, restoring,
   * purging and collecting, cut short anywhere, every row ever inserted that no
   * purge named is there and reads as inserted, and so does every other row still
   * there; and every marker's day file exists.
   */
  lemma NoRunLosesABody(c: Codec, actions: seq<Action>, id: Id)
    requires RoundTrips(c) && Runs(c, EMPTY, actions)
    ensures var w := After(c, EMPTY, actions);
            && (id in w.store.markers ==> w.store.markers[id] in w.store.files)
            && (id in w.original && !EverPurged(actions, id) ==> id in w.store.hot)
            && (id in w.store.hot ==>
                  && id in w.original && Read(c, w.store, id).Found?
                  && Same(Read(c, w.store, id).row, w.original[id]))
  {
    RunKeepsInv(c, EMPTY, actions);
    RunKeepsRow(c, EMPTY, actions, id);
    var w := After(c, EMPTY, actions);
    if id in w.store.hot {
      SafeReads(c, w, id);
    }
  }

  /** Every day row is in a day file that exists. */
  predicate RowsInFiles(w: World) { forall k :: k in w.store.rows ==> k.0 in w.store.files }

  lemma StepKeepsFiles(c: Codec, w: World, a: Action)
    requires RowsInFiles(w) && Enabled(c, w, a)
    ensures RowsInFiles(Do(c, w, a))
  {
  }

  lemma {:induction false} RunKeepsFiles(c: Codec, w: World, actions: seq<Action>)
    requires RowsInFiles(w) && Runs(c, w, actions)
    ensures RowsInFiles(After(c, w, actions))
    decreases |actions|
  {
    if actions != [] {
      StepKeepsFiles(c, w, actions[0]);
      RunKeepsFiles(c, Do(c, w, actions[0]), actions[1..]);
    }
  }

  /** The worlds some run leads to. */
  ghost predicate Reachable(c: Codec, w: World) {
    exists actions :: Runs(c, EMPTY, actions) && After(c, EMPTY, actions) == w
  }

  lemma {:induction false} RunOneMore(c: Codec, w: World, actions: seq<Action>, a: Action)
    requires Runs(c, w, actions) && Enabled(c, After(c, w, actions), a)
    ensures Runs(c, w, actions + [a]) && After(c, w, actions + [a]) == Do(c, After(c, w, actions), a)
    decreases |actions|
  {
    if actions == [] {
      assert actions + [a] == [a];
      assert Runs(c, Do(c, w, a), [a][1..]);
    } else {
      assert (actions + [a])[1..] == actions[1..] + [a];
      RunOneMore(c, Do(c, w, actions[0]), actions[1..], a);
    }
  }

  lemma StepReaches(c: Codec, w: World, a: Action)
    requires Reachable(c, w) && Enabled(c, w, a)
    ensures Reachable(c, Do(c, w, a))
  {
    var actions :| Runs(c, EMPTY, actions) && After(c, EMPTY, actions) == w;
    RunOneMore(c, EMPTY, actions, a);
  }

  lemma ReachableInv(c: Codec, w: World)
    requires RoundTrips(c) && Reachable(c, w)
    ensures Inv(c, w) && RowsInFiles(w)
  {
    var actions :| Runs(c, EMPTY, actions) && After(c, EMPTY, actions) == w;
    RunKeepsInv(c, EMPTY, actions);
    RunKeepsFiles(c, EMPTY, actions);
  }

  lemma EmptyReachable(c: Codec)
    ensures Reachable(c, EMPTY)
  {
    assert Runs(c, EMPTY, []) && After(c, EMPTY, []) == EMPTY;
  }

  // ------------------------------------------------------- a read in three parts

  /** A step that puts this row back from its day file or takes the row away. */
  predicate Touches(w: World, a: Action, id: Id) {
    || ((a.DropDayRow? || a.DropMarker?) && !w.restorer.Resting? && !w.restorer.Listed? && w.restorer.id == id)
    || (a.Purge? && id in a.ids)
  }

  /** Runs none of whose steps touches the row. */
  predicate LeavesAlone(c: Codec, w: World, actions: seq<Action>, id: Id)
    requires Runs(c, w, actions)
    decreases |actions|
  {
    actions == [] || (!Touches(w, actions[0], id) && LeavesAlone(c, Do(c, w, actions[0]), actions[1..], id))
  }

  /** A hot row read at some time is as inserted, or the rest of it is still in the day file its marker names. */
  predicate StillReads(c: Codec, w: World, id: Id, row: Row) {
    && id in w.store.hot && id in w.original
    && PartOf(row, w.original[id])
    && (Same(row, w.original[id]) || (id in w.store.markers && (w.store.markers[id], id) in w.store.rows))
  }

  lemma ReadStarts(c: Codec, w: World, id: Id)
    requires StoreSafe(c, w) && id in w.store.hot
    ensures StillReads(c, w, id, w.store.hot[id])
  {
    assert RowSafe(c, w.store, id, w.original[id]);
  }

  lemma StepStillReads(c: Codec, w: World, a: Action, id: Id, row: Row)
    requires Inv(c, w) && Enabled(c, w, a) && !Touches(w, a, id) && StillReads(c, w, id, row)
    ensures StillReads(c, Do(c, w, a), id, row)
  {
    assert RowSafe(c, w.store, id, w.original[id]);
    match a
    case Gc(day, _) => assert id in w.store.markers && w.store.markers[id] == day ==>
        id in MarkedIn(w.store.markers, day);
    case _ =>
  }

  lemma {:induction false} RunStillReads(c: Codec, w: World, actions: seq<Action>, id: Id, row: Row)
    requires RoundTrips(c) && Inv(c, w) && Runs(c, w, actions) && LeavesAlone(c, w, actions, id)
             && StillReads(c, w, id, row)
    ensures StillReads(c, After(c, w, actions), id, row)
    decreases |actions|
  {
    if actions != [] {
      StepKeepsInv(c, w, actions[0]);
      StepStillReads(c, w, actions[0], id, row);
      RunStillReads(c, Do(c, w, actions[0]), actions[1..], id, row);
    }
  }

  lemma StepKeepsMarker(c: Codec, w: World, a: Action, id: Id)
    requires Inv(c, w) && Enabled(c, w, a) && !Touches(w, a, id) && id in w.store.markers
    ensures var v := Do(c, w, a); id in v.store.markers && v.store.markers[id] == w.store.markers[id]
  {
  }

  lemma {:induction false} MarkerStays(c: Codec, w: World, actions: seq<Action>, id: Id)
    requires RoundTrips(c) && Inv(c, w) && Runs(c, w, actions) && LeavesAlone(c, w, actions, id)
             && id in w.store.markers
    ensures var v := After(c, w, actions); id in v.store.markers && v.store.markers[id] == w.store.markers[id]
    decreases |actions|
  {
    if actions != [] {
      StepKeepsInv(c, w, actions[0]);
      StepKeepsMarker(c, w, actions[0], id);
      MarkerStays(c, Do(c, w, actions[0]), actions[1..], id);
    }
  }

  lemma {:induction false} OriginalStays(c: Codec, w: World, actions: seq<Action>, id: Id)
    requires RoundTrips(c) && Inv(c, w) && Runs(c, w, actions) && id in w.original
    ensures var v := After(c, w, actions); id in v.original && v.original[id] == w.original[id]
    decreases |actions|
  {
    if actions != [] {
      StepKeepsInv(c, w, actions[0]);
      OriginalStays(c, Do(c, w, actions[0]), actions[1..], id);
    }
  }

  lemma HydratesSafely(c: Codec, w: World, id: Id, row: Row)
    requires RoundTrips(c) && StoreSafe(c, w) && StillReads(c, w, id, row) && id in w.store.markers
    ensures var r := Hydrate(c, row, Some(w.store.markers[id]), w.store, id);
            r.Found? && Same(r.row, w.original[id])
  {
    var o := w.original[id];
    assert RowSafe(c, w.store, id, o);
    EncodedReads(c, row.req, o.req);
    EncodedReads(c, row.resp, o.resp);
  }

  /**
   * A read whose three queries (hot row, marker, day row) fall at three times gives
   * the body as inserted, whatever archives, collections and other rows' restores
   * and purges run between them, as long as none puts this very row back from its
   * day file or purges it.
   */
  lemma ReadInThreeParts(c: Codec, w: World, one: seq<Action>, two: seq<Action>, id: Id)
    requires RoundTrips(c) && Inv(c, w) && id in w.store.hot
    requires Runs(c, w, one) && LeavesAlone(c, w, one, id)
    requires Runs(c, After(c, w, one), two) && LeavesAlone(c, After(c, w, one), two, id)
    ensures var u, v := After(c, w, one), After(c, After(c, w, one), two);
            var r := Hydrate(c, w.store.hot[id], Marker(u.store, id), v.store, id);
            id in w.original && r.Found? && Same(r.row, w.original[id])
  {
    var u, v, row := After(c, w, one), After(c, After(c, w, one), two), w.store.hot[id];
    ReadStarts(c, w, id);
    RunKeepsInv(c, w, one);
    RunStillReads(c, w, one, id, row);
    OriginalStays(c, w, one, id);
    if id in u.store.markers {
      ReadTheRest(c, u, two, id, row);
    }
  }

  lemma ReadTheRest(c: Codec, u: World, two: seq<Action>, id: Id, row: Row)
    requires RoundTrips(c) && Inv(c, u) && StillReads(c, u, id, row) && id in u.store.markers
    requires Runs(c, u, two) && LeavesAlone(c, u, two, id)
    ensures var r := Hydrate(c, row, Some(u.store.markers[id]), After(c, u, two).store, id);
            r.Found? && Same(r.row, u.original[id])
  {
    var v := After(c, u, two);
    RunKeepsInv(c, u, two);
    RunStillReads(c, u, two, id, row);
    OriginalStays(c, u, two, id);
    MarkerStays(c, u, two, id);
    HydratesSafely(c, v, id, row);
  }

  /** Every day row, stray ones included, holds what its row was inserted with. */
  predicate RowsOriginal(c: Codec, w: World) {
    forall k :: k in w.store.rows ==> k.1 in w.original && Keeps(c, w.store.rows[k], w.original[k.1])
  }

  lemma StepKeepsOriginals(c: Codec, w: World, a: Action)
    requires Inv(c, w) && RowsOriginal(c, w) && Enabled(c, w, a)
    ensures RowsOriginal(c, Do(c, w, a))
  {
  }

  lemma {:induction false} RunKeepsOriginals(c: Codec, w: World, actions: seq<Action>)
    requires RoundTrips(c) && Inv(c, w) && RowsOriginal(c, w) && Runs(c, w, actions)
    ensures RowsOriginal(c, After(c, w, actions))
    decreases |actions|
  {
    if actions != [] {
      StepKeepsInv(c, w, actions[0]);
      StepKeepsOriginals(c, w, actions[0]);
      RunKeepsOriginals(c, Do(c, w, actions[0]), actions[1..]);
    }
  }

  /**
   * A row read earlier, with the day row found now laid over it: good if the day row is there, or
   * the row had its bodies and the file is there.
   */
  lemma HydratesExactly(c: Codec, w: World, id: Id, row: Row, marker: Option<Day>)
    requires RoundTrips(c) && RowsOriginal(c, w) && RowsInFiles(w) && id in w.original && PartOf(row, w.original[id])
    ensures var r := Hydrate(c, row, marker, w.store, id);
            r.Found? && Same(r.row, w.original[id]) <==>
            || (marker.Some? && (marker.value, id) in w.store.rows)
            || (Same(row, w.original[id]) && (marker.None? || marker.value in w.store.files))
  {
    var o := w.original[id];
    EncodedReads(c, row.req, o.req);
    EncodedReads(c, row.resp, o.resp);
  }

  /**
   * Whatever runs between the three queries of a read, even its own row's restore
   * or purge: it gives the body as inserted if and only if it found a marker whose
   * day row is still there at the third query, or had the bodies from the first
   * one and the file of the marker it found, if any, is still there.
   */
  lemma ReadInThreePartsExactly(c: Codec, one: seq<Action>, two: seq<Action>, three: seq<Action>, id: Id)
    requires RoundTrips(c) && Runs(c, EMPTY, one) && id in After(c, EMPTY, one).store.hot
    requires Runs(c, After(c, EMPTY, one), two)
    requires Runs(c, After(c, After(c, EMPTY, one), two), three)
    ensures var w := After(c, EMPTY, one);
            var u := After(c, w, two);
            var v := After(c, u, three);
            var row, marker := w.store.hot[id], Marker(u.store, id);
            var r := Hydrate(c, row, marker, v.store, id);
            && id in w.original
            && (r.Found? && Same(r.row, w.original[id]) <==>
                || (marker.Some? && (marker.value, id) in v.store.rows)
                || (Same(row, w.original[id]) && (marker.None? || marker.value in v.store.files)))
  {
    RunKeepsAll(c, EMPTY, one);
    var w := After(c, EMPTY, one);
    RunKeepsAll(c, w, two);
    var u := After(c, w, two);
    RunKeepsAll(c, u, three);
    ReadStarts(c, w, id);
    OriginalStays(c, w, two, id);
    OriginalStays(c, u, three, id);
    HydratesExactly(c, After(c, u, three), id, w.store.hot[id], Marker(u.store, id));
  }

  lemma RunKeepsAll(c: Codec, w: World, actions: seq<Action>)
    requires RoundTrips(c) && Inv(c, w) && RowsOriginal(c, w) && RowsInFiles(w) && Runs(c, w, actions)
    ensures var v := After(c, w, actions); Inv(c, v) && RowsOriginal(c, v) && RowsInFiles(v)
  {
    RunKeepsInv(c, w, actions);
    RunKeepsOriginals(c, w, actions);
    RunKeepsFiles(c, w, actions);
  }

  // ------------------------------------------------ markers of purged rows

  /** The rows a restorer has still to touch. */
  function InHand(r: Restorer): set<Id> {
    if r.Resting? then {}
    else (set p | p in r.todo :: p.0) + if r.Listed? then {} else {r.id}
  }

  /** A row a purge has removed, with a marker all the same. */
  predicate Stray(w: World, id: Id) { id !in w.store.hot && id in w.store.markers }

  /** No one is about to delete a stray marker or the day row it names. */
  ghost predicate StrayKept(w: World, id: Id)
    requires id in w.store.markers
  {
    && id !in InHand(w.restorer)
    && (forall p :: p in w.doomed ==> p.1 != id)
    && (w.store.markers[id], id) in w.store.rows
  }

  ghost predicate StraySafe(c: Codec, w: World) {
    && (forall id :: Stray(w, id) ==> StrayKept(w, id))
    && (w.archiver.Moving? ==> forall id :: id in w.archiver.batch ==> BatchApart(w, id))
  }

  /** A batch's row is no restorer's or purge's, and its day row is there once its day is written. */
  ghost predicate BatchApart(w: World, id: Id)
    requires w.archiver.Moving? && id in w.archiver.batch
  {
    var day := DayOf(w.archiver.batch[id].at);
    && id !in InHand(w.restorer)
    && (forall p :: p in w.doomed ==> p.1 != id)
    && (day in w.archiver.written ==> (day, id) in w.store.rows)
  }

  /** The step that makes a stray marker: the hot commit of a batch whose row has been purged since. */
  predicate CommitsDead(w: World, a: Action, id: Id) {
    a.Commit? && w.archiver.Moving? && id in w.archiver.batch && id !in w.store.hot
  }

  lemma BatchStaysApart(c: Codec, w: World, a: Action, id: Id)
    requires Inv(c, w) && StraySafe(c, w) && Enabled(c, w, a)
    requires var v := Do(c, w, a); v.archiver.Moving? && id in v.archiver.batch
    ensures BatchApart(Do(c, w, a), id)
  {
    if w.archiver.Moving? && !a.Select? {
      assert BatchApart(w, id);
    }
  }

  /** A step makes a stray marker only as above, and none deletes one. */
  lemma StrayStep(c: Codec, w: World, a: Action, id: Id)
    requires Inv(c, w) && StraySafe(c, w) && Enabled(c, w, a)
    ensures Stray(Do(c, w, a), id) <==> Stray(w, id) || CommitsDead(w, a, id)
  {
    assert Stray(w, id) ==> StrayKept(w, id);
  }

  lemma StrayStays(c: Codec, w: World, a: Action, id: Id)
    requires Inv(c, w) && StraySafe(c, w) && Enabled(c, w, a) && Stray(w, id)
    ensures Stray(Do(c, w, a), id) && StrayKept(Do(c, w, a), id)
  {
    StrayStep(c, w, a, id);
    assert StrayKept(w, id);
  }

  lemma StrayMade(c: Codec, w: World, a: Action, id: Id)
    requires Inv(c, w) && StraySafe(c, w) && Enabled(c, w, a) && CommitsDead(w, a, id)
    ensures Stray(Do(c, w, a), id) && StrayKept(Do(c, w, a), id)
  {
    assert BatchApart(w, id);
  }

  /** A run has a step that makes the row's marker stray. */
  predicate EverCommitsDead(c: Codec, w: World, actions: seq<Action>, id: Id)
    requires Runs(c, w, actions)
    decreases |actions|
  {
    actions != [] && (CommitsDead(w, actions[0], id) || EverCommitsDead(c, Do(c, w, actions[0]), actions[1..], id))
  }

  lemma StepKeepsStraySafe(c: Codec, w: World, a: Action)
    requires Inv(c, w) && StraySafe(c, w) && Enabled(c, w, a)
    ensures StraySafe(c, Do(c, w, a))
  {
    var v := Do(c, w, a);
    forall id | Stray(v, id)
      ensures StrayKept(v, id)
    {
      StrayStep(c, w, a, id);
      if Stray(w, id) {
        StrayStays(c, w, a, id);
      } else {
        StrayMade(c, w, a, id);
      }
    }
    if v.archiver.Moving? {
      forall id | id in v.archiver.batch
        ensures BatchApart(v, id)
      {
        BatchStaysApart(c, w, a, id);
      }
    }
  }

  lemma {:induction false} RunStrays(c: Codec, w: World, actions: seq<Action>, id: Id)
    requires RoundTrips(c) && Inv(c, w) && StraySafe(c, w) && Runs(c, w, actions)
    ensures Stray(After(c, w, actions), id) <==> Stray(w, id) || EverCommitsDead(c, w, actions, id)
    ensures StraySafe(c, After(c, w, actions))
    decreases |actions|
  {
    if actions != [] {
      StepKeepsInv(c, w, actions[0]);
      StepKeepsStraySafe(c, w, actions[0]);
      StrayStep(c, w, actions[0], id);
      RunStrays(c, Do(c, w, actions[0]), actions[1..], id);
    }
  }

  /**
   * After any run a purged row has a marker if and only if a hot commit of the run
   * took the row in a batch it was no longer there for. Such a marker stays, and
   * with it the day row that holds the purged bodies.
   */
  lemma StrayMarkers(c: Codec, actions: seq<Action>, id: Id)
    requires RoundTrips(c) && Runs(c, EMPTY, actions)
    ensures var w := After(c, EMPTY, actions);
            && (Stray(w, id) <==> EverCommitsDead(c, EMPTY, actions, id))
            && (Stray(w, id) ==>
                  && id in w.original && (w.store.markers[id], id) in w.store.rows
                  && Keeps(c, w.store.rows[(w.store.markers[id], id)], w.original[id]))
  {
    RunStrays(c, EMPTY, actions, id);
    RunKeepsOriginals(c, EMPTY, actions);
    var w := After(c, EMPTY, actions);
    assert Stray(w, id) ==> StrayKept(w, id);
  }

  // ------------------------------------------------ runs of one archived row

  lemma RunStep(c: Codec, w: World, a: Action, rest: seq<Action>)
    requires Enabled(c, w, a) && Runs(c, Do(c, w, a), rest)
    ensures Runs(c, w, [a] + rest) && After(c, w, [a] + rest) == After(c, Do(c, w, a), rest)
  {
    assert ([a] + rest)[1..] == rest;
  }

  /** A row inserted and archived, up to the hot commit. */
  function ArchiveOne(row: Row): seq<Action> {
    [Insert(row)] + ([Select(map[0 := row], row.at + 1)] + ([Write(DayOf(row.at))] + ([Commit] + [])))
  }

  /** Its restore, up to the day row's deletion. */
  function RestoreMost(row: Row): seq<Action> {
    [List([(0, DayOf(row.at))])] + ([LoadNext] + ([PutBack] + ([DropDayRow] + [])))
  }

  /** The world after that: the row marked and empty, its bodies in the day file. */
  function OneArchived(c: Codec, row: Row): World {
    var day := DayOf(row.at);
    World(Store(map[0 := row.(req := None, resp := None)], map[0 := day], {day}, map[(day, 0) := Encode(c, row)]),
        Idle, Resting, {}, 1, map[0 := row])
  }

  lemma WriteAndCommit(c: Codec, row: Row)
    requires HasBody(row)
    ensures var s := Store(map[0 := row], map[], {}, map[]);
            var w := World(s, Moving(map[0 := row], {}), Resting, {}, 1, map[0 := row]);
            var actions := [Write(DayOf(row.at))] + ([Commit] + []);
            Runs(c, w, actions) && After(c, w, actions) == OneArchived(c, row)
  {
    var day, batch := DayOf(row.at), map[0 := row];
    var w := World(Store(batch, map[], {}, map[]), Moving(batch, {}), Resting, {}, 1, batch);
    assert 0 in batch && OnDay(batch, day) == batch;
    var v := Do(c, w, Write(day));
    assert v.store.rows == map[(day, 0) := Encode(c, row)] && v.store.files == {day};
    assert v.archiver == Moving(batch, {day});
    var u := Do(c, v, Commit);
    assert u.store.hot == OneArchived(c, row).store.hot && u.store.markers == OneArchived(c, row).store.markers;
    RunStep(c, v, Commit, []);
    RunStep(c, w, Write(day), [Commit] + []);
  }

  lemma ArchiveOneRuns(c: Codec, row: Row)
    requires HasBody(row)
    ensures Runs(c, EMPTY, ArchiveOne(row)) && After(c, EMPTY, ArchiveOne(row)) == OneArchived(c, row)
  {
    var day, batch := DayOf(row.at), map[0 := row];
    WriteAndCommit(c, row);
    var w := Do(c, EMPTY, Insert(row));
    assert w == World(Store(batch, map[], {}, map[]), Idle, Resting, {}, 1, batch);
    RunStep(c, w, Select(batch, row.at + 1), [Write(day)] + ([Commit] + []));
    RunStep(c, EMPTY, Insert(row), [Select(batch, row.at + 1)] + ([Write(day)] + ([Commit] + [])));
  }

  /** A row archived while a purge takes it, and a collection after that. */
  function ArchivePurged(row: Row): seq<Action> {
    [Insert(row)] + ([Select(map[0 := row], row.at + 1)] + ([Purge({0})]
    + ([Write(DayOf(row.at))] + ([Commit] + ([Gc(DayOf(row.at), true)] + [])))))
  }

  /** The world after that: no row, no purge waiting, and the bodies still in the day file. */
  function OnlyStray(c: Codec, row: Row): World {
    var day := DayOf(row.at);
    World(Store(map[], map[0 := day], {day}, map[(day, 0) := Encode(c, row)]), Idle, Resting, {}, 1, map[0 := row])
  }

  /** The world between the day-file write and the hot commit, the row gone. */
  function StrayWritten(c: Codec, row: Row): World {
    var day := DayOf(row.at);
    World(Store(map[], map[], {day}, map[(day, 0) := Encode(c, row)]), Moving(map[0 := row], {day}), Resting, {}, 1,
        map[0 := row])
  }

  lemma WritesStray(c: Codec, row: Row)
    ensures var w := World(Store(map[], map[], {}, map[]), Moving(map[0 := row], {}), Resting, {}, 1, map[0 := row]);
            Enabled(c, w, Write(DayOf(row.at))) && Do(c, w, Write(DayOf(row.at))) == StrayWritten(c, row)
  {
    var day, batch := DayOf(row.at), map[0 := row];
    assert 0 in batch && OnDay(batch, day) == batch;
    var w := World(Store(map[], map[], {}, map[]), Moving(batch, {}), Resting, {}, 1, batch);
    var v := Do(c, w, Write(day));
    assert v.store.rows == map[(day, 0) := Encode(c, row)] && v.store.files == {day};
    assert v.archiver == Moving(batch, {day});
  }

  lemma CommitsStray(c: Codec, row: Row)
    ensures Enabled(c, StrayWritten(c, row), Commit) && Do(c, StrayWritten(c, row), Commit) == OnlyStray(c, row)
  {
    var v, day := StrayWritten(c, row), DayOf(row.at);
    assert Enabled(c, v, Commit);
    var u := Do(c, v, Commit);
    assert u.store.markers == map[0 := day] && u.store.hot == map[];
    assert u.store == OnlyStray(c, row).store;
  }

  lemma WriteCommitCollect(c: Codec, row: Row)
    ensures var w := World(Store(map[], map[], {}, map[]), Moving(map[0 := row], {}), Resting, {}, 1, map[0 := row]);
            var actions := [Write(DayOf(row.at))] + ([Commit] + ([Gc(DayOf(row.at), true)] + []));
            Runs(c, w, actions) && After(c, w, actions) == OnlyStray(c, row)
  {
    var day := DayOf(row.at);
    var w := World(Store(map[], map[], {}, map[]), Moving(map[0 := row], {}), Resting, {}, 1, map[0 := row]);
    WritesStray(c, row);
    CommitsStray(c, row);
    var u := OnlyStray(c, row);
    assert u.store.markers[0] == day;
    CollectStray(c, u, day);
    RunStep(c, u, Gc(day, true), []);
    RunStep(c, StrayWritten(c, row), Commit, [Gc(day, true)] + []);
    RunStep(c, w, Write(day), [Commit] + ([Gc(day, true)] + []));
  }

  /** A collection of a day all of whose rows are marked changes nothing. */
  lemma CollectStray(c: Codec, w: World, day: Day)
    requires w.archiver.Idle? && forall k :: k in w.store.rows ==> k.1 in w.store.markers && w.store.markers[k.1] == k.0
    requires day in w.store.markers.Values
    ensures Do(c, w, Gc(day, true)) == w
  {
    var id :| id in w.store.markers && w.store.markers[id] == day;
    assert id in MarkedIn(w.store.markers, day);
    assert OnlyMarked(w.store.rows, day, MarkedIn(w.store.markers, day)) == w.store.rows;
  }

  /**
   * A purge between a batch's selection and its hot commit leaves the purged bodies in the day
   * file, past any collection.
   */
  lemma PurgeInsideAnArchiveKeepsTheBody(c: Codec, row: Row)
    requires HasBody(row)
    ensures Runs(c, EMPTY, ArchivePurged(row)) && After(c, EMPTY, ArchivePurged(row)) == OnlyStray(c, row)
    ensures Stray(OnlyStray(c, row), 0)
  {
    var day, batch := DayOf(row.at), map[0 := row];
    WriteCommitCollect(c, row);
    var rest := [Write(day)] + ([Commit] + ([Gc(day, true)] + []));
    var w := Do(c, EMPTY, Insert(row));
    assert w == World(Store(batch, map[], {}, map[]), Idle, Resting, {}, 1, batch);
    var v := Do(c, w, Select(batch, row.at + 1));
    assert Do(c, v, Purge({0})) == World(Store(map[], map[], {}, map[]), Moving(batch, {}), Resting, {}, 1, batch);
    RunStep(c, v, Purge({0}), rest);
    RunStep(c, w, Select(batch, row.at + 1), [Purge({0})] + rest);
    RunStep(c, EMPTY, Insert(row), [Select(batch, row.at + 1)] + ([Purge({0})] + rest));
  }

  /** What a restore of the row loads. */
  function Loaded(c: Codec, row: Row): Row
    requires RoundTrips(c)
  {
    LoadsBack(c, row);
    var (req, resp) := Load(c, Encode(c, row)).value;
    row.(req := req, resp := resp)
  }

  lemma RestoreMostRuns(c: Codec, row: Row)
    requires RoundTrips(c)
    ensures var w, day := OneArchived(c, row), DayOf(row.at);
            && Runs(c, w, RestoreMost(row))
            && After(c, w, RestoreMost(row)) ==
               w.(store := Store(map[0 := Loaded(c, row)], map[0 := day], {day}, map[]), restorer := DayDone([], 0))
  {
    var w, day, todo := OneArchived(c, row), DayOf(row.at), [(0, DayOf(row.at))];
    LoadsBack(c, row);
    var w1 := Do(c, w, List(todo));
    assert todo[1..] == [];
    var w2 := Do(c, w1, LoadNext);
    var w3 := Do(c, w2, PutBack);
    var w4 := Do(c, w3, DropDayRow);
    assert w4.store.hot == map[0 := Loaded(c, row)] && w4.store.rows == map[];
    RunStep(c, w3, DropDayRow, []);
    RunStep(c, w2, PutBack, [DropDayRow] + []);
    RunStep(c, w1, LoadNext, [PutBack] + ([DropDayRow] + []));
    RunStep(c, w, List(todo), [LoadNext] + ([PutBack] + ([DropDayRow] + [])));
  }

  /** A whole restore of the row between the first query and the second loses the body to that read. */
  lemma RestoreInsideAReadHidesABody(c: Codec, row: Row)
    requires RoundTrips(c) && HasBody(row)
    ensures Runs(c, EMPTY, ArchiveOne(row))
    ensures var w := After(c, EMPTY, ArchiveOne(row));
            && Runs(c, w, RestoreMost(row) + [DropMarker])
            && var u := After(c, w, RestoreMost(row) + [DropMarker]);
               && Read(c, u.store, 0).Found? && Same(Read(c, u.store, 0).row, row)
               && Hydrate(c, w.store.hot[0], Marker(u.store, 0), u.store, 0) == Found(row.(req := None, resp := None))
  {
    ArchiveOneRuns(c, row);
    RestoreMostRuns(c, row);
    RunOneMore(c, OneArchived(c, row), RestoreMost(row), DropMarker);
    LoadsBack(c, row);
  }

  /**
   * A restore that stops between the day row's deletion and the marker's: the body
   * reads, and the row keeps a marker that names no day row.
   */
  lemma StoppedRestoreLeavesAMarker(c: Codec, row: Row)
    requires RoundTrips(c) && HasBody(row)
    ensures Runs(c, OneArchived(c, row), RestoreMost(row) + [StopRestorer])
    ensures var w := After(c, OneArchived(c, row), RestoreMost(row) + [StopRestorer]);
            && Reachable(c, w) && w.archiver.Idle? && w.restorer.Resting?
            && Read(c, w.store, 0).Found? && Same(Read(c, w.store, 0).row, row)
            && 0 in w.store.hot && w.store.hot[0].at == row.at
            && w.store.markers == map[0 := DayOf(row.at)] && w.store.rows == map[]
  {
    var w := OneArchived(c, row);
    ArchiveOneRuns(c, row);
    RestoreMostRuns(c, row);
    RunOneMore(c, w, RestoreMost(row), StopRestorer);
    RunsCompose(c, EMPTY, ArchiveOne(row), RestoreMost(row) + [StopRestorer]);
    LoadsBack(c, row);
  }

  lemma {:induction false} RunsCompose(c: Codec, w: World, one: seq<Action>, two: seq<Action>)
    requires Runs(c, w, one) && Runs(c, After(c, w, one), two)
    ensures Runs(c, w, one + two) && After(c, w, one + two) == After(c, After(c, w, one), two)
    decreases |one|
  {
    if one == [] {
      assert one + two == two;
    } else {
      RunsCompose(c, Do(c, w, one[0]), one[1..], two);
      assert (one + two)[1..] == one[1..] + two;
    }
  }

  // -------------------------------------------------- why the hypotheses stand

  predicate Empty(r: Row) { Bytes(r.req) == [] && Bytes(r.resp) == [] }

  /** What the hot commit of a batch needs to find in the day files for a row. */
  predicate Backed(s: Store, o: Row, day: Day, id: Id) {
    (day, id) in s.rows || (Empty(o) && day in s.files)
  }

  predicate ReadsAs(c: Codec, s: Store, id: Id, o: Row) { Read(c, s, id).Found? && Same(Read(c, s, id).row, o) }

  lemma CommitReads(c: Codec, w: World, batch: map<Id, Row>, id: Id)
    requires RoundTrips(c) && StoreSafe(c, w) && RowsOriginal(c, w) && RowsInFiles(w) && id in w.store.hot
    ensures ReadsAs(c, HotCommit(w.store, batch), id, w.original[id]) <==>
            (id in batch ==> Backed(w.store, w.original[id], DayOf(batch[id].at), id))
  {
    var v := HotCommit(w.store, batch);
    if id in batch {
      var row := v.hot[id];
      assert v.markers[id] == DayOf(batch[id].at);
      HydratesExactly(c, w, id, row, Marker(v, id));
    } else {
      assert v.hot[id] == w.store.hot[id] && Marker(v, id) == Marker(w.store, id);
      SafeReads(c, w, id);
    }
  }

  /**
   * In any store whose reads are safe, committing a batch, stale or not, collected
   * or not, leaves every live row reading as inserted if and only if each live row
   * of the batch has its day row at that moment, or has no body and its day file
   * is there. The two failures below are where a live row has neither.
   */
  lemma CommitLosesNothing(c: Codec, w: World, batch: map<Id, Row>)
    requires RoundTrips(c) && StoreSafe(c, w) && RowsOriginal(c, w) && RowsInFiles(w)
    ensures (forall id :: id in w.store.hot ==> ReadsAs(c, HotCommit(w.store, batch), id, w.original[id])) <==>
            (forall id :: id in batch && id in w.store.hot ==> Backed(w.store, w.original[id], DayOf(batch[id].at), id))
  {
    forall id | id in w.store.hot
      ensures ReadsAs(c, HotCommit(w.store, batch), id, w.original[id]) <==>
              (id in batch ==> Backed(w.store, w.original[id], DayOf(batch[id].at), id))
    {
      CommitReads(c, w, batch, id);
    }
  }

  /** A GC pass between the day-file write and the hot commit loses the body: the read fails. */
  lemma GcInTheWindowLosesABody(c: Codec, row: Row)
    requires HasBody(row)
    ensures var day, batch := DayOf(row.at), map[0 := row];
            var s := Store(map[0 := row], map[], {}, map[]);
            Read(c, HotCommit(GcDay(WriteDay(c, s, batch, day), day, false), batch), 0) == Failed
  {
    var day, batch := DayOf(row.at), map[0 := row];
    var s := WriteDay(c, Store(map[0 := row], map[], {}, map[]), batch, day);
    assert MarkedIn(s.markers, day) == {};
    assert 0 in HotCommit(GcDay(s, day, false), batch).markers;
  }

  /** So does a second archiver that commits a batch another one has archived and a restore has put back. */
  lemma StaleCommitLosesABody(c: Codec, row: Row)
    requires HasBody(row)
    ensures var day, batch := DayOf(row.at), map[0 := row];
            var s := WriteDay(c, Store(map[0 := row], map[], {}, map[]), batch, day);
            var back := DeleteMarker(DeleteDayRows(RestoreHot(HotCommit(s, batch), 0, row.req, row.resp), day, {0}), 0);
            && Read(c, back, 0) == Found(row)
            && Read(c, HotCommit(back, batch), 0) == Found(row.(req := None, resp := None))
  {
  }
}
