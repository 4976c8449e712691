/**
 * The bounded, non-blocking handoff between proxy and consumer (internal/sink/sink.go). Counters
 * are unbounded here.
 */
module Sink {
  const DEFAULT_CAPACITY := 4096

  // -------------------------------------------------------------------- call ids

  function Digit(d: nat): char
    requires d < 36
  {
    if d < 10 then ('0' as int + d) as char else ('a' as int + d - 10) as char
  }

  function Base36(n: nat): string { if n < 36 then [Digit(n)] else Base36(n / 36) + [Digit(n % 36)] }

  /** The start time and the number of the submit, with a dash between; a negative time has a sign. */
  function CallId(at: int, n: nat): string {
    (if at < 0 then "-" + Base36(-at) else Base36(at)) + "-" + Base36(n)
  }

  lemma {:induction false} NoDash(n: nat)
    ensures '-' !in Base36(n)
  {
    if n >= 36 {
      NoDash(n / 36);
    }
  }

  /** The number a text of digits stands for. */
  function Value(s: string): int {
    if s == "" then 0
    else
      var c := s[|s| - 1];
      36 * Value(s[..|s| - 1]) + if c <= '9' then c as int - '0' as int else c as int - 'a' as int + 10
  }

  lemma {:induction false} Base36ReadsBack(n: nat)
    ensures Value(Base36(n)) == n
  {
    var s := Base36(n);
    if n >= 36 {
      Base36ReadsBack(n / 36);
      assert s[..|s| - 1] == Base36(n / 36) && s[|s| - 1] == Digit(n % 36);
    } else {
      assert s[..|s| - 1] == "";
    }
  }

  /** What follows the last dash. */
  function AfterDash(s: string): string {
    if s == "" || s[|s| - 1] == '-' then "" else AfterDash(s[..|s| - 1]) + [s[|s| - 1]]
  }

  lemma {:induction false} AfterDashIs(x: string, p: string)
    requires '-' !in p
    ensures AfterDash(x + "-" + p) == p
    decreases |p|
  {
    var s := x + "-" + p;
    if p != "" {
      var q := p[..|p| - 1];
      assert s[..|s| - 1] == x + "-" + q && s[|s| - 1] == p[|p| - 1];
      AfterDashIs(x, q);
      assert q + [p[|p| - 1]] == p;
    }
  }

  /** The id ends in the number of the submit. */
  lemma IdEnds(at: int, n: nat)
    ensures AfterDash(CallId(at, n)) == Base36(n)
  {
    NoDash(n);
    AfterDashIs(if at < 0 then "-" + Base36(-at) else Base36(at), Base36(n));
  }

  /** Calls of different submits have different ids. */
  lemma IdsDiffer(a: int, m: nat, b: int, n: nat)
    requires m != n
    ensures CallId(a, m) != CallId(b, n)
  {
    IdEnds(a, m);
    IdEnds(b, n);
    Base36ReadsBack(m);
    Base36ReadsBack(n);
  }

  // -------------------------------------------------------------------- the queue

  /** A captured call: when it began, the id it was given, and the rest. */
  datatype Call<C> = Call(at: int, id: string, rest: C)

  /** A call that drew the number n. */
  predicate StampedAt<C>(c: Call<C>, n: nat) { c.id == CallId(c.at, n) }

  /** A number not drawn before gives an id none of the earlier calls has. */
  lemma OneMoreId<C>(taken: seq<Call<C>>, stamps: seq<nat>, named: Call<C>, n: nat)
    requires |stamps| == |taken| && StampedAt(named, n) && n !in stamps
    requires forall i :: 0 <= i < |taken| ==> StampedAt(taken[i], stamps[i])
    ensures forall i :: 0 <= i < |taken| ==> taken[i].id != named.id
  {
    forall i | 0 <= i < |taken|
      ensures taken[i].id != named.id
    {
      assert StampedAt(taken[i], stamps[i]) && stamps[i] in stamps;
      IdsDiffer(taken[i].at, stamps[i], named.at, n);
    }
  }

  /**
   * Submit takes no lock: drawing a number, sending, and counting are three atomic
   * steps, and those of different submits may come in any order.
   */
  class Sink<C> {
    const capacity: nat
    var channel: seq<Call<C>>
    var submitted: nat
    var accepted: nat
    var dropped: nat
    /** Every call the sink took, the number it drew, and those the consumer has read, in order. */
    ghost var taken: seq<Call<C>>
    ghost var stamps: seq<nat>
    ghost var drained: seq<Call<C>>
    /** Numbers drawn and not yet sent; calls sent or refused and not yet counted. */
    ghost var flying: set<nat>
    ghost var uncounted: nat
    ghost var unrefused: nat

    /**
     * Nothing taken is lost or reordered, every submit is counted once, the queue fits, and no two
     * calls share an id.
     */
    ghost predicate Valid()
      reads this
    {
      && taken == drained + channel
      && |taken| == accepted + uncounted
      && submitted == accepted + dropped + uncounted + unrefused + |flying|
      && |channel| <= capacity
      && 0 < capacity
      && |stamps| == |taken|
      && (forall n :: n in flying ==> n <= submitted && n !in stamps)
      && (forall i :: 0 <= i < |taken| ==> stamps[i] <= submitted && StampedAt(taken[i], stamps[i]))
      && (forall i, j :: 0 <= i < j < |taken| ==> taken[i].id != taken[j].id)
    }

    constructor (capacity: int)
      ensures Valid() && taken == [] && dropped == 0 && flying == {} && uncounted == unrefused == 0
      ensures this.capacity == if capacity <= 0 then 4096 else capacity
    {
      this.capacity := if capacity <= 0 then DEFAULT_CAPACITY else capacity;
      channel, submitted, accepted, dropped := [], 0, 0, 0;
      taken, stamps, drained := [], [], [];
      flying, uncounted, unrefused := {}, 0, 0;
    }

    /** The atomic increment: the call draws a number no other has, and its id. */
    method Stamp(call: Call<C>) returns (named: Call<C>, ghost n: nat)
      requires Valid()
      modifies this`submitted, this`flying
      ensures Valid() && submitted == old(submitted) + 1 && n == submitted
      ensures n !in old(flying) && flying == old(flying) + {n} && named == call.(id := CallId(call.at, n))
    {
      submitted := submitted + 1;
      named, n := call.(id := CallId(call.at, submitted)), submitted;
      assert forall i :: 0 <= i < |stamps| ==> stamps[i] != n;
      flying := flying + {n};
    }

    /** The send that does not wait: taken exactly when there is room, a full queue keeping the calls it has. */
    method Send(named: Call<C>, ghost n: nat) returns (ok: bool)
      requires Valid() && n in flying && StampedAt(named, n)
      modifies this`channel, this`taken, this`stamps, this`flying, this`uncounted, this`unrefused
      ensures Valid() && flying == old(flying) - {n}
      ensures ok <==> |old(channel)| < capacity
      ensures taken == if ok then old(taken) + [named] else old(taken)
      ensures uncounted == old(uncounted) + (if ok then 1 else 0) && unrefused == old(unrefused) + if ok then 0 else 1
    {
      flying := flying - {n};
      if |channel| < capacity {
        OneMoreId(taken, stamps, named, n);
        channel := channel + [named];
        taken, stamps := taken + [named], stamps + [n];
        uncounted := uncounted + 1;
        ok := true;
      } else {
        unrefused := unrefused + 1;
        ok := false;
      }
    }

    /** The counter of what became of it. */
    method Count(ok: bool)
      requires Valid() && (if ok then uncounted > 0 else unrefused > 0)
      modifies this`accepted, this`dropped, this`uncounted, this`unrefused
      ensures Valid()
      ensures if ok then accepted == old(accepted) + 1 && uncounted == old(uncounted) - 1
              else dropped == old(dropped) + 1 && unrefused == old(unrefused) - 1
      ensures if ok then dropped == old(dropped) && unrefused == old(unrefused)
              else accepted == old(accepted) && uncounted == old(uncounted)
    {
      if ok {
        accepted, uncounted := accepted + 1, uncounted - 1;
      } else {
        dropped, unrefused := dropped + 1, unrefused - 1;
      }
    }

    /** The three steps with no other submit's between; those of others may be under way. */
    method Submit(call: Call<C>) returns (ok: bool, named: Call<C>)
      requires Valid()
      modifies this
      ensures Valid() && submitted == old(submitted) + 1 && drained == old(drained)
      ensures named == call.(id := CallId(call.at, submitted))
      ensures ok <==> |old(channel)| < capacity
      ensures flying == old(flying) && uncounted == old(uncounted) && unrefused == old(unrefused)
      ensures ok ==> taken == old(taken) + [named] && accepted == old(accepted) + 1 && dropped == old(dropped)
      ensures !ok ==> taken == old(taken) && dropped == old(dropped) + 1 && accepted == old(accepted)
    {
      ghost var n;
      named, n := Stamp(call);
      ok := Send(named, n);
      Count(ok);
    }

    /** At rest every submit has been counted once, and what was taken is drained or still queued, no two ids alike. */
    lemma AtRest()
      requires Valid() && flying == {} && uncounted == unrefused == 0
      ensures submitted == accepted + dropped && accepted == |drained| + |channel| && |channel| <= capacity
      ensures forall i, j :: 0 <= i < j < |drained + channel| ==> (drained + channel)[i].id != (drained + channel)[j].id
    {
    }

    /** The consumer's receive of a waiting call. */
    method Receive() returns (call: Call<C>)
      requires Valid() && channel != []
      modifies this`channel, this`drained
      ensures Valid() && drained == old(drained) + [call] && channel == old(channel)[1..]
    {
      call := channel[0];
      channel := channel[1..];
      drained := drained + [call];
    }
  }
}
