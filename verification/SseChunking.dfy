/**
 * How a stream is cut into Feed calls does not matter (internal/parse/sse.go, Parser).
 */
module SseChunking {
  import opened Sse

  function Flatten(chunks: seq<Bytes>): Bytes {
    if chunks == [] then [] else chunks[0] + Flatten(chunks[1..])
  }

  datatype Chunked = Chunked(fed: Fed, unread: seq<Bytes>)

  /** Chunks fed in order, stopping at the first error as every caller of Feed does. */
  function FeedChunks(decode: Decoder, t: Totals, buf: Bytes, chunks: seq<Bytes>): Chunked
    decreases |chunks|
  {
    if chunks == [] then Chunked(Fed(t, buf, false), [])
    else
      var r := FeedBuffer(decode, t, buf + chunks[0]);
      if r.err then Chunked(r, chunks[1..]) else FeedChunks(decode, r.totals, r.buf, chunks[1..])
  }

  /** More input never changes a block that is already complete. */
  lemma MoreInput(s: Bytes, more: Bytes)
    requires Complete(s)
    ensures Complete(s + more)
    ensures First(s + more, 0) == First(s, 0)
    ensures TermLen(s + more, First(s, 0)) == TermLen(s, First(s, 0))
    ensures Block(s + more) == Block(s) && Rest(s + more) == Rest(s) + more
  {
    var i := First(s, 0);
    NoneBefore(s, 0);
    var w := s + more;
    assert forall j :: 0 <= j < |s| ==> w[j] == s[j];
    assert TermLen(w, i) == TermLen(s, i);
    forall j | 0 <= j < i
      ensures TermLen(w, j) == 0
    {
      assert TermLen(s, j) == 0;
    }
    FirstIs(w, 0, i);
  }

  /** Feeding s and then more leaves what feeding s + more leaves. */
  lemma {:induction false} FeedThenFeed(decode: Decoder, t: Totals, s: Bytes, more: Bytes)
    ensures var r := FeedBuffer(decode, t, s);
            FeedBuffer(decode, t, s + more) ==
              if r.err then r.(buf := r.buf + more) else FeedBuffer(decode, r.totals, r.buf + more)
    decreases |s|
  {
    if Complete(s) {
      MoreInput(s, more);
      var (t', err) := ApplyAll(decode, t, Payload(Block(s)));
      if !err {
        FeedThenFeed(decode, t', Rest(s), more);
      }
    }
  }

  /**
   * One Feed of the whole stream and any split of it into chunks agree on the
   * totals and on whether an error event ended the run. Without an error they
   * agree on the carry buffer too; with one, the buffers differ by exactly the
   * chunks that were never fed.
   */
  lemma {:induction false} ChunkingDoesNotMatter(decode: Decoder, t: Totals, buf: Bytes, chunks: seq<Bytes>)
    requires !Complete(buf)
    ensures var c := FeedChunks(decode, t, buf, chunks);
            && FeedBuffer(decode, t, buf + Flatten(chunks)) == c.fed.(buf := c.fed.buf + Flatten(c.unread))
            && (!c.fed.err ==> c.unread == [] && !Complete(c.fed.buf))
    decreases |chunks|
  {
    if chunks == [] {
      assert buf + Flatten(chunks) == buf;
    } else {
      var head, tail := chunks[0], chunks[1..];
      assert buf + Flatten(chunks) == (buf + head) + Flatten(tail);
      FeedThenFeed(decode, t, buf + head, Flatten(tail));
      var r := FeedBuffer(decode, t, buf + head);
      if !r.err {
        NoErrorDrains(decode, t, buf + head);
        ChunkingDoesNotMatter(decode, r.totals, r.buf, tail);
      }
    }
  }

  /** The order and the stopping point of the events is that of the stream's own blocks. */
  lemma {:induction false} NoErrorDrains(decode: Decoder, t: Totals, s: Bytes)
    ensures var r := FeedBuffer(decode, t, s);
            && (r.totals, r.err) == ApplyAll(decode, t, Payloads(s))
            && (!r.err ==> r.buf == Carry(s))
    decreases |s|
  {
    if Complete(s) {
      var p := Payload(Block(s));
      var (t', err) := ApplyAll(decode, t, p);
      ApplyAllConcat(decode, t, p, Payloads(Rest(s)));
      NoErrorDrains(decode, t', Rest(s));
    }
  }

  lemma {:induction false} ApplyAllConcat(decode: Decoder, t: Totals, a: seq<Bytes>, b: seq<Bytes>)
    ensures var (u, err) := ApplyAll(decode, t, a);
            ApplyAll(decode, t, a + b) == if err then (u, true) else ApplyAll(decode, u, b)
    decreases |a|
  {
    if a == [] {
      assert a + b == b;
    } else {
      assert (a + b)[1..] == a[1..] + b;
      if !Fails(decode, a[0]) {
        ApplyAllConcat(decode, ApplyData(decode, t, a[0]), a[1..], b);
      }
    }
  }

  /**
   * What a chunked run leaves depends on the stream alone: the fold of the
   * stream's payloads up to its first error event and, without one, its carry.
   */
  lemma ChunksGiveTheStream(decode: Decoder, chunks: seq<Bytes>)
    ensures var c, s := FeedChunks(decode, NO_TOTALS, [], chunks).fed, Flatten(chunks);
            && (c.totals, c.err) == ApplyAll(decode, NO_TOTALS, Payloads(s))
            && (!c.err ==> c.buf == Carry(s))
  {
    assert [] + Flatten(chunks) == Flatten(chunks);
    ChunkingDoesNotMatter(decode, NO_TOTALS, [], chunks);
    NoErrorDrains(decode, NO_TOTALS, Flatten(chunks));
    var c := FeedChunks(decode, NO_TOTALS, [], chunks);
    if !c.fed.err {
      assert c.fed.buf + Flatten(c.unread) == c.fed.buf;
    }
  }

  /** Cut two ways, one stream gives the same Finish result too. */
  lemma AnyTwoSplitsAgree(decode: Decoder, one: seq<Bytes>, two: seq<Bytes>)
    requires Flatten(one) == Flatten(two)
    ensures var a, b := FeedChunks(decode, NO_TOTALS, [], one).fed, FeedChunks(decode, NO_TOTALS, [], two).fed;
            && a.totals == b.totals && a.err == b.err
            && (!a.err ==> ApplyAll(decode, a.totals, Payload(a.buf)) == ApplyAll(decode, b.totals, Payload(b.buf)))
  {
    ChunksGiveTheStream(decode, one);
    ChunksGiveTheStream(decode, two);
  }
}
