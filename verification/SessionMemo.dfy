/**
 * Session resolution and the flush's memo of it (internal/session/session.go
 * Resolve, internal/consumer/consumer.go flushBatch and prepareCall). A flush
 * resolves every call before any is stored; the memo makes that agree with
 * resolving, storing and folding the calls one at a time.
 */
module SessionMemo {
  import opened Options
  import opened Sessions
  import opened SessionStore
  import ModelSets

  /** A captured call: its row before a session is chosen, its warnings, and the clock when it is resolved. */
  datatype Arrival = Arrival(request: Request, warned: nat, now: int)

  /** The configured gap, and how an id is minted. */
  datatype Resolver = Resolver(gap: int, mint: (int, string) -> Sid)

  const NULL_PREFIX_WINDOW := 300_000_000_000

  function Window(r: Resolver, prefix: string): int { if prefix == "" then NULL_PREFIX_WINDOW else r.gap }

  predicate Keyed(row: Row, prefix: string) { row.prefix == Some(prefix) }

  /** A most recently active session of a prefix. */
  predicate Latest(sessions: map<Sid, Row>, prefix: string, sid: Sid) {
    && sid in sessions && Keyed(sessions[sid], prefix)
    && forall other :: other in sessions && Keyed(sessions[other], prefix) ==>
        sessions[other].last <= sessions[sid].last
  }

  /** LatestSessionByPrefix. */
  ghost function Lookup(sessions: map<Sid, Row>, prefix: string): Option<Sid> {
    if exists sid :: Latest(sessions, prefix, sid) then
      var sid :| Latest(sessions, prefix, sid);
      Some(sid)
    else None
  }

  /** Resolve: an explicit header wins, then a recent session of the prefix, then a new id. */
  ghost function Resolve(r: Resolver, sessions: map<Sid, Row>, c: Arrival): Sid {
    var prefix := c.request.prefix;
    var prev := Lookup(sessions, prefix);
    if c.request.header.Some? then c.request.header.value
    else if prev.Some? && prev.value in sessions && c.now - sessions[prev.value].last <= Window(r, prefix)
        then prev.value
    else r.mint(c.now, prefix)
  }

  function PrefixKey(prefix: string): string { "p:" + prefix }

  /** The memo key: the header if there is one, else the prefix. */
  function KeyOf(c: Arrival): string {
    if c.request.header.Some? then "h:" + c.request.header.value else PrefixKey(c.request.prefix)
  }

  function Placed(c: Arrival, sid: Sid): Call { Call(c.request.(session := Some(sid)), c.warned) }

  /** The batch as a flush resolves it: all of it against the sessions as they stood, with the memo. */
  ghost function Resolved(r: Resolver, sessions: map<Sid, Row>, seen: map<string, Sid>, calls: seq<Arrival>): seq<Call>
    decreases |calls|
  {
    if calls == [] then []
    else
      var key := KeyOf(calls[0]);
      var sid := if key in seen then seen[key] else Resolve(r, sessions, calls[0]);
      [Placed(calls[0], sid)] + Resolved(r, sessions, seen[key := sid], calls[1..])
  }

  /** One call stored and folded. */
  function StoreOne(t: Tables, c: Call): Tables { Finish(Insert(t, c.request), t.next, c) }

  /**
   * The reference: each call resolved against the sessions its predecessors left, stored and folded
   * before the next.
   */
  ghost function OneAtATime(r: Resolver, t: Tables, calls: seq<Arrival>): Tables
    decreases |calls|
  {
    if calls == [] then t
    else OneAtATime(r, StoreOne(t, Placed(calls[0], Resolve(r, t.sessions, calls[0]))), calls[1..])
  }

  // ------------------------------------------------------------ the hypotheses

  predicate Bare(c: Arrival) { c.request.header.None? }

  /** No two sessions of a prefix were last active at the same instant. */
  predicate NoTies(sessions: map<Sid, Row>) {
    forall a, b :: a in sessions && b in sessions && a != b && sessions[a].prefix.Some? ==>
      sessions[a].prefix == sessions[b].prefix ==> sessions[a].last != sessions[b].last
  }

  /** The clock does not run backwards during the flush. */
  predicate Forward(calls: seq<Arrival>) {
    forall i, j :: 0 <= i < j < |calls| ==> calls[i].now <= calls[j].now
  }

  predicate IsHeader(calls: seq<Arrival>, sid: Sid) { exists c :: c in calls && c.request.header == Some(sid) }

  /** Minted ids are new, name no header, and differ between prefixes; headers name no prefix-keyed session. */
  predicate Apart(r: Resolver, sessions: map<Sid, Row>, calls: seq<Arrival>) {
    && (forall c :: c in calls && Bare(c) ==> r.mint(c.now, c.request.prefix) !in sessions)
    && (forall c :: c in calls && Bare(c) ==> !IsHeader(calls, r.mint(c.now, c.request.prefix)))
    && (forall c, d :: c in calls && d in calls && Bare(c) && Bare(d) && c.request.prefix != d.request.prefix ==>
          r.mint(c.now, c.request.prefix) != r.mint(d.now, d.request.prefix))
    && (forall sid :: sid in sessions && IsHeader(calls, sid) ==> sessions[sid].prefix.None?)
  }

  // ------------------------------------------------------------ the condition

  predicate Of(c: Arrival, prefix: string) { Bare(c) && c.request.prefix == prefix }

  /** The first of the first n calls that is looked up by this prefix; n when none is. */
  function First(calls: seq<Arrival>, n: nat, prefix: string): (i: nat)
    requires n <= |calls|
    ensures i <= n
    ensures i < n ==> Of(calls[i], prefix)
  {
    if n == 0 then 0
    else
      var i := First(calls, n - 1, prefix);
      if i < n - 1 || Of(calls[n - 1], prefix) then i else n
  }

  /** When the latest begun of the first n calls of a prefix began. */
  function Newest(calls: seq<Arrival>, n: nat, prefix: string): (at: Option<int>)
    requires n <= |calls|
    ensures at.Some? <==> First(calls, n, prefix) < n
  {
    if n == 0 then None
    else
      var at := Newest(calls, n - 1, prefix);
      if !Of(calls[n - 1], prefix) then at
      else if at.Some? then Some(Max(at.value, calls[n - 1].request.at))
      else Some(calls[n - 1].request.at)
  }

  /** Some session of the call's prefix was active within its window. */
  predicate RecentIn(r: Resolver, sessions: map<Sid, Row>, c: Arrival) {
    exists sid :: sid in sessions && Keyed(sessions[sid], c.request.prefix)
        && c.now - sessions[sid].last <= Window(r, c.request.prefix)
  }

  /** So was one of the sessions, or an earlier call of the batch began within it. */
  predicate Recent(r: Resolver, sessions: map<Sid, Row>, calls: seq<Arrival>, j: nat)
    requires j < |calls|
  {
    var c := calls[j];
    var at := Newest(calls, j, c.request.prefix);
    RecentIn(r, sessions, c) || (at.Some? && c.now - at.value <= Window(r, c.request.prefix))
  }

  /**
   * A call that repeats a prefix of its flush is resolved within the window of the
   * latest activity known for that prefix, or the prefix's first call got a new id
   * and this one would mint the same.
   */
  predicate RepeatFits(r: Resolver, sessions: map<Sid, Row>, calls: seq<Arrival>, j: nat)
    requires j < |calls|
  {
    var c := calls[j];
    var i := First(calls, j, c.request.prefix);
    Bare(c) && i < j ==>
      Recent(r, sessions, calls, j) || (!RecentIn(r, sessions, calls[i])
          && r.mint(c.now, c.request.prefix) == r.mint(calls[i].now, c.request.prefix))
  }

  predicate RepeatsFit(r: Resolver, sessions: map<Sid, Row>, calls: seq<Arrival>) {
    forall j :: 0 <= j < |calls| ==> RepeatFits(r, sessions, calls, j)
  }

  // -------------------------------------------------------------- the invariant

  /** The one most recently active session of a prefix. */
  predicate Held(sessions: map<Sid, Row>, prefix: string, sid: Sid) {
    && sid in sessions && Keyed(sessions[sid], prefix)
    && forall other :: other in sessions && other != sid && Keyed(sessions[other], prefix) ==>
        sessions[other].last < sessions[sid].last
  }

  predicate SameFor(s: map<Sid, Row>, u: map<Sid, Row>, prefix: string, sid: Sid) {
    && (sid in s && Keyed(s[sid], prefix) <==> sid in u && Keyed(u[sid], prefix))
    && (sid in s && Keyed(s[sid], prefix) ==> s[sid].last == u[sid].last)
  }

  /** Two states of the table have the same sessions of a prefix. */
  ghost predicate SamePrefix(s: map<Sid, Row>, u: map<Sid, Row>, prefix: string) {
    forall sid :: SameFor(s, u, prefix, sid)
  }

  /** The sessions of a prefix other than one are as they were. */
  ghost predicate SameOthers(s: map<Sid, Row>, u: map<Sid, Row>, prefix: string, sid: Sid) {
    forall other :: other != sid ==> SameFor(s, u, prefix, other)
  }

  /** When a session was last active, given when it was at the start and when its calls began. */
  function LastOf(start: map<Sid, Row>, sid: Sid, newest: int): int {
    if sid in start then Max(start[sid].last, newest) else newest
  }

  /**
   * The session the first n calls of a prefix went to: one that was the latest of the prefix, or a
   * new one for want of a recent one.
   */
  predicate Chosen(r: Resolver, start: map<Sid, Row>, calls: seq<Arrival>, n: nat, prefix: string, sid: Sid)
    requires n <= |calls|
  {
    var i := First(calls, n, prefix);
    && i < n
    && if sid in start then Held(start, prefix, sid) && RecentIn(r, start, calls[i])
       else sid == r.mint(calls[i].now, prefix) && !RecentIn(r, start, calls[i])
  }

  /**
   * What the memo knows of a prefix after n calls: the session chosen took them all, or nothing of
   * the prefix has changed.
   */
  ghost predicate Linked(r: Resolver, start: map<Sid, Row>, now: map<Sid, Row>, seen: map<string, Sid>,
                         calls: seq<Arrival>, n: nat, prefix: string)
    requires n <= |calls|
  {
    if First(calls, n, prefix) < n then
      && PrefixKey(prefix) in seen
      && var sid := seen[PrefixKey(prefix)];
         && sid in now && Keyed(now[sid], prefix) && SameOthers(start, now, prefix, sid)
         && Chosen(r, start, calls, n, prefix, sid)
         && now[sid].last == LastOf(start, sid, Newest(calls, n, prefix).value)
    else PrefixKey(prefix) !in seen && SamePrefix(start, now, prefix)
  }

  ghost predicate AllLinked(r: Resolver, start: map<Sid, Row>, now: map<Sid, Row>, seen: map<string, Sid>,
                            calls: seq<Arrival>, n: nat)
    requires n <= |calls|
  {
    forall prefix :: Linked(r, start, now, seen, calls, n, prefix)
  }

  /** Where an id in the table came from. */
  predicate Known(r: Resolver, start: map<Sid, Row>, seen: map<string, Sid>, calls: seq<Arrival>, sid: Sid) {
    || sid in start
    || IsHeader(calls, sid)
    || exists c :: c in calls && Bare(c) && PrefixKey(c.request.prefix) in seen
        && sid == r.mint(c.now, c.request.prefix)
  }

  ghost predicate Inv(r: Resolver, start: map<Sid, Row>, now: map<Sid, Row>, seen: map<string, Sid>,
                      calls: seq<Arrival>, n: nat)
    requires n <= |calls|
  {
    && AllLinked(r, start, now, seen, calls, n)
    && (forall sid :: sid in now ==> Known(r, start, seen, calls, sid))
    && (forall sid :: sid in now && IsHeader(calls, sid) ==> now[sid].prefix.None?)
    && (forall c :: c in calls && !Bare(c) && KeyOf(c) in seen ==> seen[KeyOf(c)] == c.request.header.value)
  }

  // ---------------------------------------------------------------- the proof

  lemma KeysApart(a: string, b: string)
    ensures "h:" + a != PrefixKey(b)
    ensures PrefixKey(a) == PrefixKey(b) ==> a == b
    ensures "h:" + a == "h:" + b ==> a == b
  {
    assert ("h:" + a)[0] == 'h' && PrefixKey(b)[0] == 'p';
    assert PrefixKey(a)[2..] == a && PrefixKey(b)[2..] == b;
    var x, y := "h:" + a, "h:" + b;
    assert x[2..] == a && y[2..] == b;
  }

  lemma HeldIsFound(sessions: map<Sid, Row>, prefix: string, sid: Sid)
    requires Held(sessions, prefix, sid)
    ensures Lookup(sessions, prefix) == Some(sid)
  {
    assert Latest(sessions, prefix, sid);
  }

  /** With no ties, a lookup among the same sessions finds the same one. */
  lemma SameLookup(s: map<Sid, Row>, u: map<Sid, Row>, prefix: string)
    requires NoTies(s) && SamePrefix(s, u, prefix)
    ensures Lookup(s, prefix) == Lookup(u, prefix)
  {
    forall sid
      ensures Latest(s, prefix, sid) <==> Latest(u, prefix, sid)
    {
      SameLatest(s, u, prefix, sid);
    }
    forall a, b | Latest(s, prefix, a) && Latest(s, prefix, b)
      ensures a == b
    {
    }
  }

  lemma SameLatest(s: map<Sid, Row>, u: map<Sid, Row>, prefix: string, sid: Sid)
    requires SamePrefix(s, u, prefix)
    ensures Latest(s, prefix, sid) <==> Latest(u, prefix, sid)
  {
    assert SameFor(s, u, prefix, sid);
    forall other
      ensures other in s && Keyed(s[other], prefix) <==> other in u && Keyed(u[other], prefix)
      ensures other in s && Keyed(s[other], prefix) ==> s[other].last == u[other].last
    {
      assert SameFor(s, u, prefix, other);
    }
  }

  /** A prefix with any session has a most recent one. */
  lemma {:induction false} LatestExists(sessions: map<Sid, Row>, prefix: string, among: set<Sid>) returns (sid: Sid)
    requires among <= sessions.Keys && exists s :: s in among && Keyed(sessions[s], prefix)
    ensures sid in among && Keyed(sessions[sid], prefix)
    ensures forall other :: other in among && Keyed(sessions[other], prefix) ==>
            sessions[other].last <= sessions[sid].last
    decreases among
  {
    var s :| s in among && Keyed(sessions[s], prefix);
    var rest := among - {s};
    if exists o :: o in rest && Keyed(sessions[o], prefix) {
      var best := LatestExists(sessions, prefix, rest);
      sid := if sessions[best].last < sessions[s].last then s else best;
    } else {
      sid := s;
    }
  }

  /** A lookup finds a session of the prefix as recent as any, if there is one. */
  lemma LookupFinds(sessions: map<Sid, Row>, prefix: string)
    ensures Lookup(sessions, prefix).None? ==> forall sid :: sid in sessions ==> !Keyed(sessions[sid], prefix)
    ensures Lookup(sessions, prefix).Some? ==> Latest(sessions, prefix, Lookup(sessions, prefix).value)
  {
    if exists s :: s in sessions.Keys && Keyed(sessions[s], prefix) {
      var some := LatestExists(sessions, prefix, sessions.Keys);
      assert Latest(sessions, prefix, some);
    }
  }

  /** A bare call attaches exactly when some session of its prefix was recently active. */
  lemma ResolveBare(r: Resolver, sessions: map<Sid, Row>, c: Arrival)
    requires Bare(c)
    ensures var sid := Resolve(r, sessions, c);
            if RecentIn(r, sessions, c) then
              Latest(sessions, c.request.prefix, sid) && c.now - sessions[sid].last <= Window(r, c.request.prefix)
            else sid == r.mint(c.now, c.request.prefix)
  {
    LookupFinds(sessions, c.request.prefix);
  }

  lemma LatestIsHeld(sessions: map<Sid, Row>, prefix: string, sid: Sid)
    requires NoTies(sessions) && Latest(sessions, prefix, sid)
    ensures Held(sessions, prefix, sid)
  {
  }

  /**
   * After earlier calls of the prefix, the table has recent activity of it exactly when the start
   * or those calls had.
   */
  lemma {:induction false} RecentNow(r: Resolver, start: map<Sid, Row>, now: map<Sid, Row>, seen: map<string, Sid>,
      calls: seq<Arrival>, n: nat)
    requires n < |calls| && Bare(calls[n]) && First(calls, n, calls[n].request.prefix) < n
    requires Linked(r, start, now, seen, calls, n, calls[n].request.prefix)
    ensures RecentIn(r, now, calls[n]) <==> Recent(r, start, calls, n)
  {
    var c, prefix := calls[n], calls[n].request.prefix;
    var sid := seen[PrefixKey(prefix)];
    if RecentIn(r, now, c) {
      var s :| s in now && Keyed(now[s], prefix) && c.now - now[s].last <= Window(r, prefix);
      assert s != sid ==> SameFor(start, now, prefix, s);
      assert s != sid ==> RecentIn(r, start, c);
    }
    if RecentIn(r, start, c) {
      var s :| s in start && Keyed(start[s], prefix) && c.now - start[s].last <= Window(r, prefix);
      assert s != sid ==> SameFor(start, now, prefix, s);
      assert c.now - now[s].last <= Window(r, prefix);
    }
  }

  /** The prefix's other sessions are behind the one chosen, or long out of the window. */
  lemma {:induction false} OthersAreBehind(r: Resolver, start: map<Sid, Row>, now: map<Sid, Row>, 
                                           seen: map<string, Sid>, calls: seq<Arrival>, n: nat, other: Sid)
    requires n < |calls| && Bare(calls[n]) && First(calls, n, calls[n].request.prefix) < n && Forward(calls)
    requires Linked(r, start, now, seen, calls, n, calls[n].request.prefix)
    requires other in now && Keyed(now[other], calls[n].request.prefix)
             && other != seen[PrefixKey(calls[n].request.prefix)]
    ensures var sid := seen[PrefixKey(calls[n].request.prefix)];
            if sid in start then now[other].last < now[sid].last
            else calls[n].now - now[other].last > Window(r, calls[n].request.prefix)
  {
    var c, prefix := calls[n], calls[n].request.prefix;
    var i := First(calls, n, prefix);
    assert SameFor(start, now, prefix, other) && calls[i].now <= c.now;
  }

  /** If there is recent activity, a lookup finds the session chosen. */
  lemma {:induction false} ChosenIsLatest(r: Resolver, start: map<Sid, Row>, now: map<Sid, Row>, 
                                          seen: map<string, Sid>, calls: seq<Arrival>, n: nat, found: Sid)
    requires n < |calls| && Bare(calls[n]) && First(calls, n, calls[n].request.prefix) < n && Forward(calls)
    requires Linked(r, start, now, seen, calls, n, calls[n].request.prefix)
    requires Latest(now, calls[n].request.prefix, found)
             && calls[n].now - now[found].last <= Window(r, calls[n].request.prefix)
    ensures found == seen[PrefixKey(calls[n].request.prefix)]
  {
    if found != seen[PrefixKey(calls[n].request.prefix)] {
      OthersAreBehind(r, start, now, seen, calls, n, found);
    }
  }

  /** A repeated call's lookup answers what the memo answers exactly when it fits. */
  lemma {:induction false} RepeatAnswer(r: Resolver, start: map<Sid, Row>, now: map<Sid, Row>, seen: map<string, Sid>,
      calls: seq<Arrival>, n: nat)
    requires n < |calls| && Bare(calls[n]) && First(calls, n, calls[n].request.prefix) < n && Forward(calls)
    requires Apart(r, start, calls) && Linked(r, start, now, seen, calls, n, calls[n].request.prefix)
    ensures Resolve(r, now, calls[n]) == seen[PrefixKey(calls[n].request.prefix)] <==> RepeatFits(r, start, calls, n)
  {
    var c, prefix := calls[n], calls[n].request.prefix;
    ResolveBare(r, now, c);
    RecentNow(r, start, now, seen, calls, n);
    if RecentIn(r, now, c) {
      ChosenIsLatest(r, start, now, seen, calls, n, Resolve(r, now, c));
    } else {
      assert c in calls;
    }
  }

  /** The reference's answer is the memo's exactly when the call is no repeat or fits. */
  lemma {:induction false} SameAnswer(r: Resolver, start: map<Sid, Row>, now: map<Sid, Row>, seen: map<string, Sid>,
      calls: seq<Arrival>, n: nat)
    requires n < |calls| && NoTies(start) && Apart(r, start, calls) && Forward(calls)
             && Inv(r, start, now, seen, calls, n)
    ensures var c := calls[n];
            var memo := if KeyOf(c) in seen then seen[KeyOf(c)] else Resolve(r, start, c);
            Resolve(r, now, c) == memo <==> RepeatFits(r, start, calls, n)
  {
    var c, prefix := calls[n], calls[n].request.prefix;
    if Bare(c) {
      assert KeyOf(c) == PrefixKey(prefix);
      assert Linked(r, start, now, seen, calls, n, prefix);
      if First(calls, n, prefix) < n {
        RepeatAnswer(r, start, now, seen, calls, n);
      } else {
        FirstAnswer(r, start, now, c);
      }
    } else {
      assert c in calls;
    }
  }

  lemma FirstAnswer(r: Resolver, start: map<Sid, Row>, now: map<Sid, Row>, c: Arrival)
    requires NoTies(start) && Bare(c) && SamePrefix(start, now, c.request.prefix)
    ensures Resolve(r, now, c) == Resolve(r, start, c)
  {
    var prefix := c.request.prefix;
    SameLookup(start, now, prefix);
    LookupFinds(start, prefix);
    var prev := Lookup(start, prefix);
    if prev.Some? {
      assert SameFor(start, now, prefix, prev.value);
    }
  }

  lemma NewIsNew(r: Resolver, start: map<Sid, Row>, now: map<Sid, Row>, seen: map<string, Sid>, calls: seq<Arrival>,
                 c: Arrival)
    requires forall sid :: sid in now ==> Known(r, start, seen, calls, sid)
    requires Apart(r, start, calls) && c in calls && Bare(c) && KeyOf(c) !in seen
    ensures r.mint(c.now, c.request.prefix) !in now
  {
    var sid := r.mint(c.now, c.request.prefix);
    assert Known(r, start, seen, calls, sid) ==>
      exists d :: d in calls && Bare(d) && PrefixKey(d.request.prefix) in seen
          && sid == r.mint(d.now, d.request.prefix);
  }

  /** What a fold of a call does to the table, as far as lookups see. */
  predicate Folds(now: map<Sid, Row>, next: map<Sid, Row>, sid: Sid, prefix: Option<string>, at: int) {
    && next.Keys == now.Keys + {sid}
    && (forall other :: other in now && other != sid ==> next[other] == now[other])
    && next[sid].prefix == (if sid in now then now[sid].prefix else prefix)
    && next[sid].last == (if sid in now then Max(now[sid].last, at) else at)
  }

  /** A fold that does not touch a prefix's sessions leaves what the memo knows of it. */
  lemma {:induction false} LinkedQuiet(r: Resolver, start: map<Sid, Row>, now: map<Sid, Row>, next: map<Sid, Row>,
      seen: map<string, Sid>, also: map<string, Sid>, calls: seq<Arrival>, n: nat, q: string)
    requires n < |calls| && !Of(calls[n], q) && Linked(r, start, now, seen, calls, n, q) && SamePrefix(now, next, q)
    requires PrefixKey(q) in seen <==> PrefixKey(q) in also
    requires PrefixKey(q) in seen ==> also[PrefixKey(q)] == seen[PrefixKey(q)]
    ensures Linked(r, start, next, also, calls, n + 1, q)
  {
    if First(calls, n, q) < n {
      var sid := seen[PrefixKey(q)];
      assert SameFor(now, next, q, sid);
      forall other | other != sid
        ensures SameFor(start, next, q, other)
      {
        assert SameFor(start, now, q, other) && SameFor(now, next, q, other);
      }
    } else {
      forall other
        ensures SameFor(start, next, q, other)
      {
        assert SameFor(start, now, q, other) && SameFor(now, next, q, other);
      }
    }
  }

  lemma {:induction false} HeaderLinks(r: Resolver, start: map<Sid, Row>, now: map<Sid, Row>, next: map<Sid, Row>,
      seen: map<string, Sid>, calls: seq<Arrival>, n: nat, sid: Sid)
    requires n < |calls| && AllLinked(r, start, now, seen, calls, n) && calls[n].request.header == Some(sid)
    requires Folds(now, next, sid, None, calls[n].request.at) && (sid in now ==> now[sid].prefix.None?)
    ensures AllLinked(r, start, next, seen["h:" + sid := sid], calls, n + 1)
  {
    var also := seen["h:" + sid := sid];
    var m := n + 1;
    forall q
      ensures Linked(r, start, next, also, calls, m, q)
    {
      KeysApart(sid, q);
      assert Linked(r, start, now, seen, calls, n, q);
      NoPrefix(now, next, sid, q, calls[n].request.at);
      LinkedQuiet(r, start, now, next, seen, also, calls, n, q);
    }
  }

  lemma NoPrefix(now: map<Sid, Row>, next: map<Sid, Row>, sid: Sid, q: string, at: int)
    requires Folds(now, next, sid, None, at) && (sid in now ==> now[sid].prefix.None?)
    ensures SamePrefix(now, next, q)
  {
    forall s
      ensures SameFor(now, next, q, s)
    {
    }
  }

  lemma {:induction false} HeaderStep(r: Resolver, start: map<Sid, Row>, now: map<Sid, Row>, next: map<Sid, Row>,
      seen: map<string, Sid>, calls: seq<Arrival>, n: nat)
    requires n < |calls| && Inv(r, start, now, seen, calls, n) && calls[n].request.header.Some?
    requires Folds(now, next, calls[n].request.header.value, None, calls[n].request.at)
    ensures Inv(r, start, next, seen[KeyOf(calls[n]) := calls[n].request.header.value], calls, n + 1)
  {
    var c := calls[n];
    var sid := c.request.header.value;
    var also := seen[KeyOf(c) := sid];
    assert c in calls && IsHeader(calls, sid);
    HeaderLinks(r, start, now, next, seen, calls, n, sid);
    StillKnown(r, start, now, next, seen, also, calls, sid);
    HeadersRemembered(r, seen, calls, c, sid);
  }

  lemma StillKnown(r: Resolver, start: map<Sid, Row>, now: map<Sid, Row>, next: map<Sid, Row>, seen: map<string, Sid>,
                   also: map<string, Sid>, calls: seq<Arrival>, sid: Sid)
    requires forall s :: s in now ==> Known(r, start, seen, calls, s)
    requires next.Keys == now.Keys + {sid} && Known(r, start, also, calls, sid) && forall k :: k in seen ==> k in also
    ensures forall s :: s in next ==> Known(r, start, also, calls, s)
  {
  }

  lemma HeadersRemembered(r: Resolver, seen: map<string, Sid>, calls: seq<Arrival>, c: Arrival, sid: Sid)
    requires forall d :: d in calls && !Bare(d) && KeyOf(d) in seen ==> seen[KeyOf(d)] == d.request.header.value
    requires c.request.header.Some? ==> sid == c.request.header.value
    ensures forall d :: d in calls && !Bare(d) && KeyOf(d) in seen[KeyOf(c) := sid] ==>
            seen[KeyOf(c) := sid][KeyOf(d)] == d.request.header.value
  {
    forall d | d in calls && !Bare(d) && KeyOf(d) in seen[KeyOf(c) := sid]
      ensures seen[KeyOf(c) := sid][KeyOf(d)] == d.request.header.value
    {
      KeysApart(d.request.header.value, c.request.prefix);
      if c.request.header.Some? {
        KeysApart(d.request.header.value, c.request.header.value);
      }
    }
  }

  /** The call's own prefix after its fold. */
  lemma {:induction false} LinkedOwn(r: Resolver, start: map<Sid, Row>, now: map<Sid, Row>, next: map<Sid, Row>,
      seen: map<string, Sid>, calls: seq<Arrival>, n: nat, sid: Sid)
    requires n < |calls| && Bare(calls[n]) && NoTies(start) && Apart(r, start, calls)
    requires Linked(r, start, now, seen, calls, n, calls[n].request.prefix)
    requires forall s :: s in now ==> Known(r, start, seen, calls, s)
    requires sid == if KeyOf(calls[n]) in seen then seen[KeyOf(calls[n])] else Resolve(r, start, calls[n])
    requires Folds(now, next, sid, Some(calls[n].request.prefix), calls[n].request.at)
    ensures Linked(r, start, next, seen[KeyOf(calls[n]) := sid], calls, n + 1, calls[n].request.prefix)
    ensures sid in now || sid == r.mint(calls[n].now, calls[n].request.prefix)
    ensures sid in now ==> Keyed(now[sid], calls[n].request.prefix)
  {
    var c, prefix := calls[n], calls[n].request.prefix;
    assert KeyOf(c) == PrefixKey(prefix) && c in calls;
    if First(calls, n, prefix) == n {
      ResolveBare(r, start, c);
      if RecentIn(r, start, c) {
        LatestIsHeld(start, prefix, sid);
        assert SameFor(start, now, prefix, sid);
      } else {
        NewIsNew(r, start, now, seen, calls, c);
      }
    }
    forall other | other != sid
      ensures SameFor(start, next, prefix, other)
    {
      assert SameFor(start, now, prefix, other);
    }
  }

  lemma {:induction false} BareLinks(r: Resolver, start: map<Sid, Row>, now: map<Sid, Row>, next: map<Sid, Row>,
      seen: map<string, Sid>, also: map<string, Sid>, calls: seq<Arrival>, n: nat, prefix: string, sid: Sid)
    requires n < |calls| && Bare(calls[n]) && prefix == calls[n].request.prefix
             && also == seen[PrefixKey(prefix) := sid]
    requires AllLinked(r, start, now, seen, calls, n) && Linked(r, start, next, also, calls, n + 1, prefix)
    requires Folds(now, next, sid, Some(prefix), calls[n].request.at) && (sid in now ==> Keyed(now[sid], prefix))
    ensures AllLinked(r, start, next, also, calls, n + 1)
  {
    var m := n + 1;
    forall q
      ensures Linked(r, start, next, also, calls, m, q)
    {
      assert Linked(r, start, now, seen, calls, n, q);
      if q != prefix {
        OtherPrefix(now, next, sid, prefix, q, calls[n].request.at);
        LinkedQuiet(r, start, now, next, seen, also, calls, n, q);
      }
    }
  }

  lemma {:induction false} BareStep(r: Resolver, start: map<Sid, Row>, now: map<Sid, Row>, next: map<Sid, Row>,
                                    seen: map<string, Sid>, calls: seq<Arrival>, n: nat, sid: Sid)
    requires n < |calls| && Bare(calls[n]) && NoTies(start) && Apart(r, start, calls)
             && Inv(r, start, now, seen, calls, n)
    requires sid == if KeyOf(calls[n]) in seen then seen[KeyOf(calls[n])] else Resolve(r, start, calls[n])
    requires Folds(now, next, sid, Some(calls[n].request.prefix), calls[n].request.at)
    ensures Inv(r, start, next, seen[KeyOf(calls[n]) := sid], calls, n + 1)
  {
    var c, prefix := calls[n], calls[n].request.prefix;
    var also := seen[KeyOf(c) := sid];
    assert c in calls && KeyOf(c) == PrefixKey(prefix);
    assert Linked(r, start, now, seen, calls, n, prefix);
    LinkedOwn(r, start, now, next, seen, calls, n, sid);
    BareLinks(r, start, now, next, seen, also, calls, n, prefix, sid);
    BareKnown(r, start, now, next, seen, also, calls, c, sid);
    HeadersRemembered(r, seen, calls, c, sid);
  }

  lemma BareKnown(r: Resolver, start: map<Sid, Row>, now: map<Sid, Row>, next: map<Sid, Row>, seen: map<string, Sid>,
                  also: map<string, Sid>, calls: seq<Arrival>, c: Arrival, sid: Sid)
    requires c in calls && Bare(c) && Apart(r, start, calls) && also == seen[PrefixKey(c.request.prefix) := sid]
    requires forall s :: s in now ==> Known(r, start, seen, calls, s)
    requires forall s :: s in now && IsHeader(calls, s) ==> now[s].prefix.None?
    requires Folds(now, next, sid, Some(c.request.prefix), c.request.at)
    requires if sid in now then Keyed(now[sid], c.request.prefix) else sid == r.mint(c.now, c.request.prefix)
    ensures forall s :: s in next ==> Known(r, start, also, calls, s)
    ensures forall s :: s in next && IsHeader(calls, s) ==> next[s].prefix.None?
  {
    assert Known(r, start, also, calls, sid) by {
      assert sid in now ==> Known(r, start, seen, calls, sid);
    }
    StillKnown(r, start, now, next, seen, also, calls, sid);
    assert !IsHeader(calls, sid);
  }

  lemma OtherPrefix(now: map<Sid, Row>, next: map<Sid, Row>, sid: Sid, prefix: string, q: string, at: int)
    requires Folds(now, next, sid, Some(prefix), at) && q != prefix && (sid in now ==> Keyed(now[sid], prefix))
    ensures SamePrefix(now, next, q) && PrefixKey(q) != PrefixKey(prefix)
  {
    KeysApart(q, prefix);
    forall s
      ensures SameFor(now, next, q, s)
    {
    }
  }

  /** Folding one call into the session the memo answers keeps what the memo knows. */
  lemma {:induction false} MemoStep(r: Resolver, start: map<Sid, Row>, now: map<Sid, Row>, next: map<Sid, Row>,
                                    seen: map<string, Sid>, calls: seq<Arrival>, n: nat, sid: Sid)
    requires n < |calls| && NoTies(start) && Apart(r, start, calls) && Inv(r, start, now, seen, calls, n)
    requires sid == if KeyOf(calls[n]) in seen then seen[KeyOf(calls[n])] else Resolve(r, start, calls[n])
    requires Folds(now, next, sid,
                   if calls[n].request.header.Some? then None else Some(calls[n].request.prefix), calls[n].request.at)
    ensures Inv(r, start, next, seen[KeyOf(calls[n]) := sid], calls, n + 1)
  {
    if calls[n].request.header.Some? {
      assert calls[n] in calls;
      HeaderStep(r, start, now, next, seen, calls, n);
    } else {
      BareStep(r, start, now, next, seen, calls, n, sid);
    }
  }

  lemma StoreOneFolds(t: Tables, c: Arrival, sid: Sid)
    requires c.request.header.Some? ==> c.request.header.value == sid
    ensures var u := StoreOne(t, Placed(c, sid));
            Folds(t.sessions, u.sessions, sid,
                  if c.request.header.Some? then None else Some(c.request.prefix), c.request.at)
  {
  }

  /** Storing calls that already have their session, each stored and folded before the next. */
  function StoreEach(t: Tables, calls: seq<Call>): Tables
    decreases |calls|
  {
    if calls == [] then t else StoreEach(StoreOne(t, calls[0]), calls[1..])
  }

  /** A stored row stays as it is. */
  predicate RowStays(t: Tables, u: Tables, id: Id) {
    id in t.requests && id in u.requests && u.requests[id] == t.requests[id] && t.next <= u.next
  }

  lemma {:induction false} EachKeepsRow(t: Tables, calls: seq<Call>, id: Id)
    requires id in t.requests && id < t.next
    ensures RowStays(t, StoreEach(t, calls), id)
    decreases |calls|
  {
    if calls != [] {
      EachKeepsRow(StoreOne(t, calls[0]), calls[1..], id);
    }
  }

  lemma {:induction false} OneAtATimeKeepsRow(r: Resolver, t: Tables, calls: seq<Arrival>, id: Id)
    requires id in t.requests && id < t.next
    ensures RowStays(t, OneAtATime(r, t, calls), id)
    decreases |calls|
  {
    if calls != [] {
      OneAtATimeKeepsRow(r, StoreOne(t, Placed(calls[0], Resolve(r, t.sessions, calls[0]))), calls[1..], id);
    }
  }

  /** A call given two sessions leaves two tables, whatever follows. */
  lemma {:induction false} DifferentRows(r: Resolver, t: Tables, c: Arrival, memo: Sid, sid: Sid, more: seq<Call>,
      rest: seq<Arrival>)
    requires memo != sid
    ensures StoreEach(StoreOne(t, Placed(c, memo)), more) != OneAtATime(r, StoreOne(t, Placed(c, sid)), rest)
  {
    var a, b := StoreOne(t, Placed(c, memo)), StoreOne(t, Placed(c, sid));
    EachKeepsRow(a, more, t.next);
    OneAtATimeKeepsRow(r, b, rest, t.next);
    assert a.requests[t.next].session == Some(memo) && b.requests[t.next].session == Some(sid);
  }

  predicate FitsFrom(r: Resolver, sessions: map<Sid, Row>, calls: seq<Arrival>, n: nat) {
    forall j :: n <= j < |calls| ==> RepeatFits(r, sessions, calls, j)
  }

  /** From any point of the batch on, the memo follows the reference exactly while the repeats fit. */
  lemma {:induction false} MemoFollows(r: Resolver, start: map<Sid, Row>, t: Tables, seen: map<string, Sid>,
      calls: seq<Arrival>, n: nat)
    requires n <= |calls| && NoTies(start) && Apart(r, start, calls) && Forward(calls)
             && Inv(r, start, t.sessions, seen, calls, n)
    ensures StoreEach(t, Resolved(r, start, seen, calls[n..])) == OneAtATime(r, t, calls[n..]) <==>
            FitsFrom(r, start, calls, n)
    decreases |calls| - n
  {
    if n < |calls| {
      var c, rest := calls[n], calls[n + 1..];
      assert c in calls && calls[n..][0] == c && calls[n..][1..] == rest;
      SameAnswer(r, start, t.sessions, seen, calls, n);
      var memo := if KeyOf(c) in seen then seen[KeyOf(c)] else Resolve(r, start, c);
      var sid := Resolve(r, t.sessions, c);
      var more := Resolved(r, start, seen[KeyOf(c) := memo], rest);
      assert Resolved(r, start, seen, calls[n..]) == [Placed(c, memo)] + more;
      assert ([Placed(c, memo)] + more)[1..] == more;
      if memo == sid {
        var u := StoreOne(t, Placed(c, sid));
        StoreOneFolds(t, c, sid);
        MemoStep(r, start, t.sessions, u.sessions, seen, calls, n, sid);
        MemoFollows(r, start, u, seen[KeyOf(c) := sid], calls, n + 1);
      } else {
        DifferentRows(r, t, c, memo, sid, more, rest);
      }
    }
  }

  lemma MemoStarts(r: Resolver, sessions: map<Sid, Row>, calls: seq<Arrival>)
    requires Apart(r, sessions, calls)
    ensures Inv(r, sessions, sessions, map[], calls, 0)
  {
    forall prefix
      ensures Linked(r, sessions, sessions, map[], calls, 0, prefix)
    {
    }
  }

  // ------------------------------------- storing the batch at once or in pieces

  /** A call stored later does not disturb finishing an earlier one. */
  lemma FinishInsertCommute(t: Tables, r: Request, id: Id, call: Call)
    requires id in t.requests && id < t.next
    ensures Finish(Insert(t, r), id, call) == Insert(Finish(t, id, call), r)
  {
    var a, b := Finish(Insert(t, r), id, call), Insert(Finish(t, id, call), r);
    assert a.pending == b.pending;
  }

  lemma {:induction false} FinishInsertAllCommute(t: Tables, calls: seq<Call>, id: Id, call: Call)
    requires id in t.requests && id < t.next
    ensures Finish(InsertAll(t, calls), id, call) == InsertAll(Finish(t, id, call), calls)
    decreases |calls|
  {
    if calls != [] {
      FinishInsertAllCommute(Insert(t, calls[0].request), calls[1..], id, call);
      FinishInsertCommute(t, calls[0].request, id, call);
    }
  }

  /**
   * The batch stored in one transaction and then finished call by call ends where storing each call
   * on its own does.
   */
  lemma {:induction false} GroupedIsEach(t: Tables, calls: seq<Call>)
    ensures FlushCalls(t, calls) == StoreEach(t, calls)
    decreases |calls|
  {
    if calls != [] {
      var u := Insert(t, calls[0].request);
      FinishInsertAllCommute(u, calls[1..], t.next, calls[0]);
      GroupedIsEach(Finish(u, t.next, calls[0]), calls[1..]);
    }
  }

  /**
   * A flush that resolves its whole batch with the memo before storing anything
   * ends in the tables that resolving, storing and folding its calls one at a
   * time ends in, if and only if every repeated prefix fits: the clock has not
   * left the window of its latest activity, or both calls would mint one id.
   */
  lemma {:induction false} FlushIsOneAtATime(r: Resolver, t: Tables, calls: seq<Arrival>)
    requires NoTies(t.sessions) && Apart(r, t.sessions, calls) && Forward(calls)
    ensures FlushCalls(t, Resolved(r, t.sessions, map[], calls)) == OneAtATime(r, t, calls) <==>
            RepeatsFit(r, t.sessions, calls)
  {
    MemoStarts(r, t.sessions, calls);
    MemoFollows(r, t.sessions, t, map[], calls, 0);
    assert calls[0..] == calls;
    GroupedIsEach(t, Resolved(r, t.sessions, map[], calls));
  }

  // ------------------------------------------------------------- the flush itself

  /** ORDER BY last_seen DESC LIMIT 1. */
  method LatestSessionByPrefix(sessions: map<Sid, Row>, prefix: string) returns (found: Option<Sid>)
    ensures found.Some? ==> Latest(sessions, prefix, found.value)
    ensures found.None? ==> forall sid :: sid in sessions ==> !Keyed(sessions[sid], prefix)
  {
    found := None;
    var left := sessions.Keys;
    while left != {}
      invariant left <= sessions.Keys
      invariant found.Some? ==> found.value in sessions && Keyed(sessions[found.value], prefix)
      invariant forall sid :: sid in sessions && sid !in left && Keyed(sessions[sid], prefix) ==>
                  found.Some? && sessions[sid].last <= sessions[found.value].last
      decreases left
    {
      var sid :| sid in left;
      left := left - {sid};
      if Keyed(sessions[sid], prefix) && (found.None? || sessions[found.value].last < sessions[sid].last) {
        found := Some(sid);
      }
    }
  }

  /** What Resolve may answer: among sessions of a prefix last active at one instant, any. */
  predicate Answers(r: Resolver, sessions: map<Sid, Row>, c: Arrival, sid: Sid) {
    if c.request.header.Some? then sid == c.request.header.value
    else if RecentIn(r, sessions, c) then Latest(sessions, c.request.prefix, sid)
    else sid == r.mint(c.now, c.request.prefix)
  }

  lemma OneAnswer(r: Resolver, sessions: map<Sid, Row>, c: Arrival, sid: Sid)
    requires NoTies(sessions) && Answers(r, sessions, c, sid)
    ensures sid == Resolve(r, sessions, c)
  {
    if Bare(c) {
      ResolveBare(r, sessions, c);
      if RecentIn(r, sessions, c) {
        LatestIsHeld(sessions, c.request.prefix, sid);
        LatestIsHeld(sessions, c.request.prefix, Resolve(r, sessions, c));
      }
    }
  }

  /** The resolver's answer for one call; without ties there is only one. */
  method ResolveCall(r: Resolver, sessions: map<Sid, Row>, c: Arrival) returns (sid: Sid)
    ensures Answers(r, sessions, c, sid)
    ensures NoTies(sessions) ==> sid == Resolve(r, sessions, c)
    ensures c.request.header.Some? ==> sid == c.request.header.value
    ensures c.request.header.None? ==>
              var gap := if c.request.prefix == "" then 300_000_000_000 else r.gap;
              var key := Some(c.request.prefix);
              if exists s :: s in sessions && sessions[s].prefix == key && c.now - sessions[s].last <= gap
                then sid in sessions && sessions[sid].prefix == key &&
                     forall s :: s in sessions && sessions[s].prefix == key ==> sessions[s].last <= sessions[sid].last
                else sid == r.mint(c.now, c.request.prefix)
  {
    if c.request.header.Some? {
      return c.request.header.value;
    }
    var prefix := c.request.prefix;
    var prev := LatestSessionByPrefix(sessions, prefix);
    sid := if prev.Some? && c.now - sessions[prev.value].last <= Window(r, prefix) then prev.value
        else r.mint(c.now, prefix);
    assert Answers(r, sessions, c, sid);
    if NoTies(sessions) {
      OneAnswer(r, sessions, c, sid);
    }
  }

  /** Calls placed in sessions the resolver or the memo may answer. */
  predicate PreparedAs(r: Resolver, sessions: map<Sid, Row>, seen: map<string, Sid>, calls: seq<Arrival>,
                       pend: seq<Call>)
    decreases |calls|
  {
    if calls == [] then pend == []
    else
      && pend != [] && pend[0].request.session.Some?
      && var key, sid := KeyOf(calls[0]), pend[0].request.session.value;
         && pend[0] == Placed(calls[0], sid)
         && (if key in seen then sid == seen[key] else Answers(r, sessions, calls[0], sid))
         && PreparedAs(r, sessions, seen[key := sid], calls[1..], pend[1..])
  }

  /** The resolver asked for a call's key, or the memo. */
  method PrepareCall(r: Resolver, sessions: map<Sid, Row>, seen: map<string, Sid>, c: Arrival)
                     returns (p: Call, also: map<string, Sid>)
    ensures p.request.session.Some? && p == Placed(c, p.request.session.value)
            && also == seen[KeyOf(c) := p.request.session.value]
    ensures KeyOf(c) in seen ==> p.request.session.value == seen[KeyOf(c)]
    ensures KeyOf(c) !in seen ==> Answers(r, sessions, c, p.request.session.value)
  {
    var key := KeyOf(c);
    if key in seen {
      p, also := Placed(c, seen[key]), seen;
    } else {
      var sid := ResolveCall(r, sessions, c);
      p, also := Placed(c, sid), seen[key := sid];
    }
  }

  lemma {:induction false} PreparedMore(r: Resolver, sessions: map<Sid, Row>, seen: map<string, Sid>,
      calls: seq<Arrival>, pend: seq<Call>, last: map<string, Sid>, c: Arrival, p: Call)
    requires PreparedAs(r, sessions, seen, calls, pend) && last == MemoAfter(seen, calls, pend)
    requires p.request.session.Some? && p == Placed(c, p.request.session.value)
    requires if KeyOf(c) in last then p.request.session.value == last[KeyOf(c)]
             else Answers(r, sessions, c, p.request.session.value)
    ensures PreparedAs(r, sessions, seen, calls + [c], pend + [p])
    ensures MemoAfter(seen, calls + [c], pend + [p]) == last[KeyOf(c) := p.request.session.value]
    decreases |calls|
  {
    if calls == [] {
      assert calls + [c] == [c] && pend + [p] == [p] && [c][1..] == [] && [p][1..] == [];
    } else {
      assert (calls + [c])[1..] == calls[1..] + [c] && (pend + [p])[1..] == pend[1..] + [p];
      PreparedMore(r, sessions, seen[KeyOf(calls[0]) := pend[0].request.session.value], calls[1..], pend[1..], last,
          c, p);
    }
  }

  /** The memo once these calls are placed. */
  function MemoAfter(seen: map<string, Sid>, calls: seq<Arrival>, pend: seq<Call>): map<string, Sid>
    decreases |calls|
  {
    if calls == [] || pend == [] || pend[0].request.session.None? then seen
    else MemoAfter(seen[KeyOf(calls[0]) := pend[0].request.session.value], calls[1..], pend[1..])
  }

  lemma {:induction false} OnePreparation(r: Resolver, sessions: map<Sid, Row>, seen: map<string, Sid>,
      calls: seq<Arrival>, pend: seq<Call>)
    requires NoTies(sessions) && PreparedAs(r, sessions, seen, calls, pend)
    ensures pend == Resolved(r, sessions, seen, calls)
    decreases |calls|
  {
    if calls != [] {
      var key, sid := KeyOf(calls[0]), pend[0].request.session.value;
      if key !in seen {
        OneAnswer(r, sessions, calls[0], sid);
      }
      OnePreparation(r, sessions, seen[key := sid], calls[1..], pend[1..]);
      assert pend == [pend[0]] + pend[1..];
    }
  }

  /**
   * The first half of a flush: every call resolved before any is stored, the memo carrying this
   * flush's own choices.
   */
  method PrepareBatch(r: Resolver, sessions: map<Sid, Row>, calls: seq<Arrival>) returns (pend: seq<Call>)
    ensures PreparedAs(r, sessions, map[], calls, pend)
    ensures NoTies(sessions) ==> pend == Resolved(r, sessions, map[], calls)
  {
    pend := [];
    var seen: map<string, Sid> := map[];
    var i := 0;
    while i < |calls|
      invariant 0 <= i <= |calls|
      invariant PreparedAs(r, sessions, map[], calls[..i], pend) && seen == MemoAfter(map[], calls[..i], pend)
    {
      ghost var was := seen;
      var p;
      p, seen := PrepareCall(r, sessions, seen, calls[i]);
      PreparedMore(r, sessions, map[], calls[..i], pend, was, calls[i], p);
      assert calls[..i + 1] == calls[..i] + [calls[i]];
      pend := pend + [p];
      i := i + 1;
    }
    assert calls[..i] == calls;
    if NoTies(sessions) {
      OnePreparation(r, sessions, map[], calls, pend);
    }
  }

  /**
   * A flush over the store, every row an aggregate after it; without ties the
   * tables end where the calls processed one at a time would leave them if and
   * only if every repeated prefix fits.
   */
  method FlushBatch(r: Resolver, store: SessionTables, calls: seq<Arrival>)
    requires store.Valid() && store.pending == {} && forall c :: c in calls ==> ModelSets.Plain(c.request.model)
    modifies store
    ensures store.Valid() && store.pending == {}
    ensures exists pend ::
            PreparedAs(r, old(store.sessions), map[], calls, pend) && store.Now() == FlushCalls(old(store.Now()), pend)
    ensures NoTies(old(store.sessions)) ==>
            store.Now() == FlushCalls(old(store.Now()), Resolved(r, old(store.sessions), map[], calls))
    ensures NoTies(old(store.sessions)) && Apart(r, old(store.sessions), calls) && Forward(calls) ==>
              (store.Now() == OneAtATime(r, old(store.Now()), calls) <==> RepeatsFit(r, old(store.sessions), calls))
  {
    if NoTies(store.sessions) && Apart(r, store.sessions, calls) && Forward(calls) {
      FlushIsOneAtATime(r, store.Now(), calls);
    }
    var pend := PrepareBatch(r, store.sessions, calls);
    PreparedPlain(r, store.sessions, map[], calls, pend);
    store.Flush(pend);
  }

  lemma {:induction false} PreparedPlain(r: Resolver, sessions: map<Sid, Row>, seen: map<string, Sid>,
      calls: seq<Arrival>, pend: seq<Call>)
    requires PreparedAs(r, sessions, seen, calls, pend) && forall c :: c in calls ==> ModelSets.Plain(c.request.model)
    ensures PlainCalls(pend)
    decreases |calls|
  {
    if calls != [] {
      assert calls[0] in calls;
      PreparedPlain(r, sessions, seen[KeyOf(calls[0]) := pend[0].request.session.value], calls[1..], pend[1..]);
      assert pend == [pend[0]] + pend[1..];
    }
  }

  /**
   * Where a repeat does not fit they part: two calls of a new prefix, the first begun longer
   * before the second is resolved than the window, share a session in a flush and
   * get one each when processed one at a time. What counts is when a call began,
   * not how long the flush took.
   */
  lemma SlowCallsPart(r: Resolver, a: Arrival, b: Arrival)
    requires Bare(a) && Bare(b) && a.request.prefix == b.request.prefix
    requires b.now - a.request.at > Window(r, b.request.prefix)
    requires r.mint(a.now, a.request.prefix) != r.mint(b.now, b.request.prefix)
    ensures var first, second := r.mint(a.now, a.request.prefix), r.mint(b.now, b.request.prefix);
            && Resolved(r, map[], map[], [a, b]) == [Placed(a, first), Placed(b, first)]
            && OneAtATime(r, NO_TABLES, [a, b]) == StoreEach(NO_TABLES, [Placed(a, first), Placed(b, second)])
  {
    var first, second := r.mint(a.now, a.request.prefix), r.mint(b.now, b.request.prefix);
    var none: map<Sid, Row> := map[];
    assert Resolve(r, none, a) == first;
    var seen := map[KeyOf(a) := first];
    assert KeyOf(b) == KeyOf(a);
    assert [a, b][1..] == [b] && [b][1..] == [];
    assert Resolved(r, none, seen, [b]) == [Placed(b, first)];
    assert Resolved(r, none, map[], [a, b]) == [Placed(a, first)] + Resolved(r, none, seen, [b]);
    var t := StoreOne(NO_TABLES, Placed(a, first));
    StoreOneFolds(NO_TABLES, a, first);
    HeldIsFound(t.sessions, b.request.prefix, first);
    assert Resolve(r, t.sessions, b) == second;
    var u := StoreOne(t, Placed(b, second));
    assert OneAtATime(r, NO_TABLES, [a, b]) == OneAtATime(r, t, [b]) == OneAtATime(r, u, []) == u;
    assert [Placed(a, first), Placed(b, second)][1..] == [Placed(b, second)];
    assert StoreEach(t, [Placed(b, second)]) == StoreEach(u, [Placed(b, second)][1..]) == u;
  }
}
