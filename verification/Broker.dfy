/**
 * The dashboard's event broker (internal/api/broker.go): buffered channels, and a
 * publisher that drops a subscriber whose buffer is full instead of waiting.
 * Each method is one critical section of the broker's mutex.
 */
module Broker {
  import opened Options

  const SUBSCRIBER_BUFFER := 64

  datatype View<E> = View(buffer: seq<E>, received: seq<E>, since: nat)

  /** A buffered channel, with what its reader has taken and which published events it was handed. */
  class Channel<E> {
    var buffer: seq<E>
    var closed: bool
    ghost var received: seq<E>
    ghost var since: nat
    ghost var upTo: nat

    ghost function Seen(): View<E>
      reads this
    {
      View(buffer, received, since)
    }

    constructor (ghost since: nat)
      ensures buffer == [] && received == [] && !closed && this.since == since == upTo
    {
      buffer, closed := [], false;
      received, this.since, upTo := [], since, since;
    }

    /** Closing a closed channel panics in Go. */
    method Close()
      requires !closed
      modifies this`closed
      ensures closed
    {
      closed := true;
    }

    /** A non-blocking send; sending on a closed channel panics in Go. */
    method TrySend(e: E) returns (sent: bool)
      requires !closed
      modifies this`buffer, this`upTo
      ensures sent <==> |old(buffer)| < SUBSCRIBER_BUFFER
      ensures sent ==> buffer == old(buffer) + [e] && upTo == old(upTo) + 1
      ensures !sent ==> buffer == old(buffer) && upTo == old(upTo)
    {
      sent := |buffer| < SUBSCRIBER_BUFFER;
      if sent {
        buffer := buffer + [e];
        upTo := upTo + 1;
      }
    }
  }

  class Broker<E> {
    var subs: set<Channel<E>>
    /** Every event published and every channel handed out. */
    ghost var published: seq<E>
    ghost var all: set<Channel<E>>

    /**
     * What a channel's reader has received and will still find buffered is a gapless stretch of the
     * published events.
     */
    ghost predicate Stream(ch: Channel<E>)
      reads this, ch
    {
      && ch.since <= ch.upTo <= |published|
      && ch.received + ch.buffer == published[ch.since..ch.upTo]
      && |ch.buffer| <= SUBSCRIBER_BUFFER
      && (ch.closed <==> ch !in subs)
    }

    ghost predicate Streams()
      reads this, all
    {
      subs <= all && forall ch :: ch in all ==> Stream(ch)
    }

    /** Every channel is a stream; those still subscribed run to the latest event. */
    ghost predicate Valid()
      reads this, all
    {
      Streams() && forall ch :: ch in subs ==> ch.upTo == |published|
    }

    /** As in the middle of a publish: those in todo have still to get the latest event. */
    ghost predicate Midway(todo: set<Channel<E>>)
      reads this, all
    {
      Streams() && todo <= subs && forall ch :: ch in subs ==> ch.upTo == |published| - if ch in todo then 1 else 0
    }

    constructor ()
      ensures Valid() && subs == {} && all == {} && published == []
    {
      subs, all, published := {}, {}, [];
    }

    /**
     * Between two calls of the broker: a subscriber has been handed every event since
     * it subscribed, a dropped one those up to its drop, and what the reader has not
     * yet taken is still buffered.
     */
    lemma Gapless(ch: Channel<E>)
      requires Valid() && ch in all
      ensures ch.since + |ch.received| + |ch.buffer| <= |published| && |ch.buffer| <= 64
      ensures ch.received + ch.buffer == published[ch.since..ch.since + |ch.received| + |ch.buffer|]
      ensures if ch in subs then !ch.closed && ch.received + ch.buffer == published[ch.since..] else ch.closed
    {
      assert Stream(ch);
    }

    /** A new stream, beginning with the next event. */
    method Subscribe() returns (ch: Channel<E>)
      requires Valid()
      modifies this
      ensures Valid() && fresh(ch) && subs == old(subs) + {ch} && all == old(all) + {ch} && published == old(published)
      ensures ch.since == |published| && ch.received == []
    {
      ch := new Channel<E>(|published|);
      subs := subs + {ch};
      all := all + {ch};
    }

    /** Safe to repeat, and safe after the broker has dropped the subscriber. */
    method Unsubscribe(ch: Channel<E>)
      requires Valid() && ch in all
      modifies this`subs, ch`closed
      ensures Valid() && ch.closed && subs == old(subs) - {ch}
    {
      if ch in subs {
        subs := subs - {ch};
        ch.Close();
      }
    }

    /** One subscriber's turn in a publish, whatever readers did since the last. */
    method Offer(ch: Channel<E>, e: E, ghost todo: set<Channel<E>>)
      requires Midway(todo) && ch in todo && published != [] && published[|published| - 1] == e
      modifies this`subs, ch`buffer, ch`upTo, ch`closed
      ensures Midway(todo - {ch})
      ensures subs == if old(|ch.buffer|) < SUBSCRIBER_BUFFER then old(subs) else old(subs) - {ch}
      ensures ch in subs ==> ch.buffer == old(ch.buffer) + [e] && ch.upTo == |published|
      ensures ch !in subs ==> ch.buffer == old(ch.buffer) && ch.upTo == old(ch.upTo)
    {
      assert published[ch.since..|published|] == published[ch.since..ch.upTo] + [e];
      var sent := ch.TrySend(e);
      if !sent {
        subs := subs - {ch};
        ch.Close();
      }
    }

    /** A subscriber that was so before or after its turn in a publish; todo is who still waits for one. */
    ghost predicate Served(ch: Channel<E>, was: View<E>, todo: set<Channel<E>>, e: E)
      reads this, ch
    {
      && ch.received == was.received && ch.since == was.since
      && if ch in todo then ch in subs && ch.buffer == was.buffer && ch.upTo == |published| - 1
         else if |was.buffer| < SUBSCRIBER_BUFFER then ch in subs && ch.buffer == was.buffer + [e]
             && ch.upTo == |published|
         else ch !in subs && ch.buffer == was.buffer
    }

    /** One turn of the publish loop: the subscriber is served and every other stays as it was. */
    method OfferTurn(ch: Channel<E>, e: E, ghost start: map<Channel<E>, View<E>>, ghost todo: set<Channel<E>>)
      requires Streams() && published != [] && published[|published| - 1] == e
      requires ch in todo && todo <= subs <= start.Keys
      requires forall c :: c in start ==> Served(c, start[c], todo, e)
      modifies this`subs, ch`buffer, ch`upTo, ch`closed
      ensures Streams() && todo - {ch} <= subs <= old(subs)
      ensures forall c :: c in start ==> Served(c, start[c], todo - {ch}, e)
    {
      ghost var left := todo - {ch};
      assert Served(ch, start[ch], todo, e);
      assert forall c :: c in subs ==> Served(c, start[c], todo, e);
      Offer(ch, e, todo);
      forall c | c in start
        ensures Served(c, start[c], left, e)
      {
        assert old(Served(c, start[c], todo, e));
      }
    }

    /** The publish loop, over the subscribers as they were. */
    method OfferAll(e: E, ghost start: map<Channel<E>, View<E>>)
      requires Streams() && published != [] && published[|published| - 1] == e
      requires start.Keys == subs && forall ch :: ch in subs ==> Served(ch, start[ch], subs, e)
      modifies this`subs, subs
      ensures Streams() && subs <= old(subs)
      ensures forall ch :: ch in old(subs) ==> Served(ch, start[ch], {}, e)
    {
      var todo := subs;
      while todo != {}
        invariant todo <= subs <= start.Keys && Streams()
        invariant forall ch :: ch in start ==> Served(ch, start[ch], todo, e)
        decreases todo
      {
        var ch :| ch in todo;
        OfferTurn(ch, e, start, todo);
        todo := todo - {ch};
      }
    }

    /** Never waits: each subscriber with room gets the event, each without is closed and removed. */
    method Publish(e: E)
      requires Valid()
      modifies this`subs, this`published, subs
      ensures Valid() && published == old(published) + [e]
      ensures subs <= old(subs) && forall ch :: ch in old(subs) ==>
                && ch.received == old(ch.received)
                && if old(|ch.buffer|) < 64
                   then ch in subs && !ch.closed && ch.buffer == old(ch.buffer) + [e]
                   else ch !in subs && ch.closed && ch.buffer == old(ch.buffer)
    {
      ghost var start := map ch | ch in subs :: ch.Seen();
      published := published + [e];
      OfferAll(e, start);
    }

    /**
     * The reader's side: the next buffered event, also after the channel was closed.
     * It takes no lock: a publish may have to reach those in todo still.
     */
    method Receive(ch: Channel<E>, ghost todo: set<Channel<E>>) returns (e: Option<E>)
      requires Midway(todo) && ch in all
      modifies ch`buffer, ch`received
      ensures Midway(todo) && (old(Valid()) ==> Valid())
      ensures e == if old(ch.buffer) == [] then None else Some(old(ch.buffer[0]))
      ensures ch.received == old(ch.received) + (if e.Some? then [e.value] else [])
    {
      if |ch.buffer| == 0 {
        return None;
      }
      e := Some(ch.buffer[0]);
      ch.received := ch.received + [ch.buffer[0]];
      ch.buffer := ch.buffer[1..];
    }
  }
}
