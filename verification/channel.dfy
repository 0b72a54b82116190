/** CuHttpChannelReceiver: the channel map and the routing of channel messages to listeners. */
module Channel {
  import opened Seqs
  import opened HttpTypes
  import opened EventStream

  /** One entry of the multimap from source to listener; the multimap is the list of its entries, oldest first. */
  datatype Sub = Sub(src: string, lis: Listener)

  function WithoutListener(rmap: seq<Sub>, l: Listener): seq<Sub> {
    Filter((s: Sub) => s.lis != l, rmap)
  }

  /** The calls a message for src makes: one per entry, the most recently added listener first. */
  function CallsFor(rmap: seq<Sub>, src: string, da: CuData): seq<Call> {
    if rmap == [] then []
    else
      var last := rmap[|rmap| - 1];
      (if last.src == src then [Call(last.lis, da)] else []) + CallsFor(rmap[..|rmap| - 1], src, da)
  }

  /** A message is an array; only arrays of one object are routed. */
  function Route(rmap: seq<Sub>, a: seq<CuData>): seq<Call> {
    if |a| == 1 then CallsFor(rmap, NameOf(a[0]), a[0]) else []
  }

  function RouteAll(rmap: seq<Sub>, payloads: seq<string>, parse: string -> seq<CuData>): seq<Call> {
    if payloads == [] then []
    else RouteAll(rmap, payloads[..|payloads| - 1], parse) + Route(rmap, parse(payloads[|payloads| - 1]))
  }

  lemma {:induction false} WithoutListenerCount(rmap: seq<Sub>, l: Listener, s: Sub)
    ensures multiset(WithoutListener(rmap, l))[s] == if s.lis == l then 0 else multiset(rmap)[s]
  {
    FilterCount((x: Sub) => x.lis != l, rmap, s);
  }

  /** A message calls each listener once per entry it has for the source, and nobody else. */
  lemma {:induction false} CallsForCount(rmap: seq<Sub>, src: string, da: CuData)
    ensures forall l :: multiset(CallsFor(rmap, src, da))[Call(l, da)] == multiset(rmap)[Sub(src, l)]
    ensures forall c :: c in CallsFor(rmap, src, da) ==> c.da == da && Sub(src, c.lis) in rmap
  {
    if rmap != [] {
      CallsForCount(rmap[..|rmap| - 1], src, da);
      assert rmap == rmap[..|rmap| - 1] + [rmap[|rmap| - 1]];
    }
  }

  lemma {:induction false} RouteAllCalls(rmap: seq<Sub>, payloads: seq<string>, parse: string -> seq<CuData>)
    ensures forall c :: c in RouteAll(rmap, payloads, parse) ==> Sub(NameOf(c.da), c.lis) in rmap
  {
    if payloads != [] {
      RouteAllCalls(rmap, payloads[..|payloads| - 1], parse);
      var a := parse(payloads[|payloads| - 1]);
      if |a| == 1 { CallsForCount(rmap, NameOf(a[0]), a[0]); }
    }
  }

  /** Later entries are called first. */
  lemma {:induction false} CallsForAppend(a: seq<Sub>, b: seq<Sub>, src: string, da: CuData)
    ensures CallsFor(a + b, src, da) == CallsFor(b, src, da) + CallsFor(a, src, da)
  {
    if b == [] {
      assert a + b == a;
    } else {
      var front, last := b[..|b| - 1], b[|b| - 1];
      Associate(a, front, [last]);
      assert b == front + [last];
      CallsForAppend(a, front, src, da);
      CallsForSnoc(front, last, src, da);
      CallsForSnoc(a + front, last, src, da);
      Associate(if last.src == src then [Call(last.lis, da)] else [], CallsFor(front, src, da), CallsFor(a, src, da));
    }
  }

  lemma {:induction false} CallsForSnoc(a: seq<Sub>, s: Sub, src: string, da: CuData)
    ensures CallsFor(a + [s], src, da) == (if s.src == src then [Call(s.lis, da)] else []) + CallsFor(a, src, da)
  {
    assert (a + [s])[..|a|] == a;
  }

  /** Earlier payloads are routed first. */
  lemma {:induction false} RouteAllAppend(rmap: seq<Sub>, a: seq<string>, b: seq<string>, parse: string -> seq<CuData>)
    ensures RouteAll(rmap, a + b, parse) == RouteAll(rmap, a, parse) + RouteAll(rmap, b, parse)
  {
    if b == [] {
      assert a + b == a;
    } else {
      var front, last := b[..|b| - 1], b[|b| - 1];
      Associate(a, front, [last]);
      assert b == front + [last];
      RouteAllAppend(rmap, a, front, parse);
      RouteAllSnoc(rmap, front, last, parse);
      RouteAllSnoc(rmap, a + front, last, parse);
      Associate(RouteAll(rmap, a, parse), RouteAll(rmap, front, parse), Route(rmap, parse(last)));
    }
  }

  lemma {:induction false} RouteAllSnoc(rmap: seq<Sub>, a: seq<string>, p: string, parse: string -> seq<CuData>)
    ensures RouteAll(rmap, a + [p], parse) == RouteAll(rmap, a, parse) + Route(rmap, parse(p))
  {
    assert (a + [p])[..|a|] == a;
  }

  /** How many of the payloads are the message that consists of da alone. */
  function Messages(payloads: seq<string>, parse: string -> seq<CuData>, da: CuData): nat {
    |Filter((p: string) => parse(p) == [da], payloads)|
  }

  /** The source a message names. */
  predicate Names(da: CuData, src: string) { "src" in da && da["src"] == Scalar(src) }

  lemma {:induction false} RouteCount(rmap: seq<Sub>, a: seq<CuData>, src: string, l: Listener, da: CuData)
    requires Names(da, src)
    ensures multiset(Route(rmap, a))[Call(l, da)] == if a == [da] then multiset(rmap)[Sub(src, l)] else 0
  {
    if |a| == 1 {
      CallsForCount(rmap, NameOf(a[0]), a[0]);
      assert a == [a[0]];
      if a[0] != da && Call(l, da) in CallsFor(rmap, NameOf(a[0]), a[0]) { assert false; }
    }
  }

  /** k calls for each of the payloads that is the message da. */
  function Due(payloads: seq<string>, parse: string -> seq<CuData>, da: CuData, k: nat): nat {
    if payloads == [] then 0
    else Due(payloads[..|payloads| - 1], parse, da, k) + if parse(payloads[|payloads| - 1]) == [da] then k else 0
  }

  lemma {:induction false} RouteAllDue(rmap: seq<Sub>, payloads: seq<string>, parse: string -> seq<CuData>,
          src: string, l: Listener, da: CuData)
    requires Names(da, src)
    ensures multiset(RouteAll(rmap, payloads, parse))[Call(l, da)]
            == Due(payloads, parse, da, multiset(rmap)[Sub(src, l)])
  {
    if payloads != [] {
      RouteAllDue(rmap, payloads[..|payloads| - 1], parse, src, l, da);
      RouteCount(rmap, parse(payloads[|payloads| - 1]), src, l, da);
    }
  }

  lemma {:induction false} DueIsProduct(payloads: seq<string>, parse: string -> seq<CuData>, da: CuData, k: nat)
    ensures Due(payloads, parse, da, k) == Messages(payloads, parse, da) * k
  {
    if payloads != [] {
      var front := payloads[..|payloads| - 1];
      DueIsProduct(front, parse, da, k);
      OneMore(Messages(front, parse, da), k);
    }
  }

  lemma {:induction false} OneMore(n: nat, k: nat)
    ensures (n + 1) * k == n * k + k
  {
  }

  /** Every payload that is one message calls every entry registered for its source, as often as both occur. */
  lemma {:induction false} RouteAllCount(rmap: seq<Sub>, payloads: seq<string>, parse: string -> seq<CuData>,
          src: string, l: Listener, da: CuData)
    requires Names(da, src)
    ensures multiset(RouteAll(rmap, payloads, parse))[Call(l, da)]
            == Messages(payloads, parse, da) * multiset(rmap)[Sub(src, l)]
  {
    RouteAllDue(rmap, payloads, parse, src, l, da);
    DueIsProduct(payloads, parse, da, multiset(rmap)[Sub(src, l)]);
  }

  // ---- whole streams

  /** The calls made for a stream that arrives in chunks. */
  function CallsOf(rmap: seq<Sub>, chunks: seq<string>, parse: string -> seq<CuData>): seq<Call> {
    if chunks == [] then []
    else
      var front := chunks[..|chunks| - 1];
      CallsOf(rmap, front, parse) + ChunkCalls(rmap, FeedAll(front).buf, chunks[|chunks| - 1], parse)
  }

  /** Those made for one chunk, given the buffer it joins. */
  function ChunkCalls(rmap: seq<Sub>, buf: string, ba: string, parse: string -> seq<CuData>): seq<Call> {
    RouteAll(rmap, Feed(Stream(buf, "", [], []), ba).payloads, parse)
  }

  lemma {:induction false} FeedAdds(st: Stream, ba: string)
    ensures Feed(st, ba).payloads == st.payloads + Feed(Stream(st.buf, "", [], []), ba).payloads
  {
    var more := Feed(Stream(st.buf, "", [], []), ba).payloads;
    if Complete(st.buf + ba) && LikelyValid(st.buf + ba) {
      assert more == [] + Extract(st.buf + ba) == Extract(st.buf + ba);
    }
  }

  /** Chunk by chunk the calls are those of all the payloads delivered, in order. */
  lemma {:induction false} StreamCalls(rmap: seq<Sub>, chunks: seq<string>, parse: string -> seq<CuData>)
    ensures CallsOf(rmap, chunks, parse) == RouteAll(rmap, FeedAll(chunks).payloads, parse)
  {
    if chunks != [] {
      var front, ba := chunks[..|chunks| - 1], chunks[|chunks| - 1];
      StreamCalls(rmap, front, parse);
      FeedAdds(FeedAll(front), ba);
      RouteAllAppend(rmap, FeedAll(front).payloads, Feed(Stream(FeedAll(front).buf, "", [], []), ba).payloads, parse);
    }
  }

  /**
   * A stream that swallows nothing calls a listener for a message as often as it is registered for its source, for
   * each payload of the flushed bytes that is this message, however the stream is cut.
   */
  lemma {:induction false} EveryMessageCalls(rmap: seq<Sub>, chunks: seq<string>, parse: string -> seq<CuData>,
          src: string, l: Listener, da: CuData)
    requires Names(da, src) && !Swallows(chunks)
    ensures multiset(CallsOf(rmap, chunks, parse))[Call(l, da)]
            == Messages(Extract(FeedAll(chunks).flushed), parse, da) * multiset(rmap)[Sub(src, l)]
  {
    StreamCalls(rmap, chunks, parse);
    DeliveredIffNotSwallowed(chunks);
    RouteAllCount(rmap, FeedAll(chunks).payloads, parse, src, l, da);
  }

  class CuHttpChannelReceiver {
    var rmap: seq<Sub>
    var buf: string
    const chan: string

    constructor (channel: string)
      ensures rmap == [] && buf == "" && chan == channel
    {
      rmap, buf, chan := [], "", channel;
    }

    method AddDataListener(src: string, l: Listener)
      modifies this`rmap
      ensures rmap == old(rmap) + [Sub(src, l)]
    {
      rmap := rmap + [Sub(src, l)];
    }

    method RemoveDataListener(l: Listener)
      modifies this`rmap
      ensures rmap == WithoutListener(old(rmap), l)
    {
      rmap := Keep((s: Sub) => s.lis != l, rmap);
    }

    method DecodeMessage(a: seq<CuData>) returns (calls: seq<Call>)
      ensures calls == Route(rmap, a)
    {
      calls := [];
      if |a| == 1 {
        var src := NameOf(a[0]);
        for k := 0 to |rmap|
          invariant calls == CallsFor(rmap[..k], src, a[0])
        {
          assert rmap[..k + 1][..k] == rmap[..k];
          if rmap[k].src == src { calls := [Call(rmap[k].lis, a[0])] + calls; }
        }
        assert rmap[..|rmap|] == rmap;
      }
    }

    /** `parse` stands for the JSON parser; text that is not a JSON array gives the empty array. */
    method OnBufComplete(parse: string -> seq<CuData>) returns (calls: seq<Call>)
      ensures calls == RouteAll(rmap, if LikelyValid(buf) then Extract(buf) else [], parse)
    {
      calls := [];
      if LikelyValid(buf) {
        var jsonli := ExtractData(buf);
        for k := 0 to |jsonli|
          invariant calls == RouteAll(rmap, jsonli[..k], parse)
        {
          assert jsonli[..k + 1][..k] == jsonli[..k];
          var cs := DecodeMessage(parse(jsonli[k]));
          calls := calls + cs;
        }
        assert jsonli[..|jsonli|] == jsonli;
      }
    }

    /** One chunk of bytes: the buffer and the calls follow the framing function of the event stream. */
    method OnNewData(ba: string, parse: string -> seq<CuData>) returns (calls: seq<Call>)
      modifies this`buf
      ensures buf == Feed(Stream(old(buf), "", [], []), ba).buf
      ensures calls == ChunkCalls(rmap, old(buf), ba, parse)
    {
      calls := [];
      buf := buf + ba;
      if EndsWith(buf, "\n\n") || EndsWith(buf, "\r\n\r\n") {
        calls := OnBufComplete(parse);
        assert [] + Extract(buf) == Extract(buf);
        buf := "";
      }
    }
  }
}
