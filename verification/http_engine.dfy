/** CumbiaHttp: the client-id gate, the handling of replies, and the reader that drives the engine. */
module HttpEngine {
  import opened Seqs
  import opened HttpTypes
  import opened SrcMan
  import opened Channel
  import opened Bundle

  // ---- the gate in front of the network

  /** A posted request: a source bundle with the client id it carries (0: none), or a write bundle. */
  datatype Post = SrcPost(items: seq<SrcItem>, id: nat) | XecPost(items: seq<SrcItem>)

  /** The client id, the two pending lists, the id requests started so far and the posts, oldest first. */
  datatype Gate = Gate(clientId: nat, rreqs: seq<SrcItem>, wreqs: seq<SrcItem>, idRequests: nat, posts: seq<Post>)

  const EMPTY_GATE := Gate(0, [], [], 0, [])

  /** Some request of the bundle goes to the asynchronous client. */
  predicate NeedClientId(rsrcs: seq<SrcItem>) {
    rsrcs != [] && (NeedClientId(rsrcs[..|rsrcs| - 1]) || rsrcs[|rsrcs| - 1].verb.NeedsId())
  }

  lemma {:induction false} NeedIdAppend(a: seq<SrcItem>, b: seq<SrcItem>)
    ensures NeedClientId(a + b) <==> NeedClientId(a) || NeedClientId(b)
  {
    if b == [] {
      assert a + b == a;
    } else {
      assert (a + b)[..|a + b| - 1] == a + b[..|b| - 1];
      NeedIdAppend(a, b[..|b| - 1]);
    }
  }

  function StartBundled(g: Gate, rsrcs: seq<SrcItem>, wsrcs: seq<SrcItem>): Gate {
    g.(posts := g.posts + (if rsrcs != [] then [SrcPost(rsrcs, g.clientId)] else [])
                        + (if wsrcs != [] then [XecPost(wsrcs)] else []))
  }

  function BundleReady(g: Gate, rsrcs: seq<SrcItem>, wsrcs: seq<SrcItem>): Gate {
    if g.clientId > 0 || !NeedClientId(rsrcs) then StartBundled(g, rsrcs, wsrcs)
    else g.(rreqs := g.rreqs + rsrcs, wreqs := g.wreqs + wsrcs, idRequests := g.idRequests + 1)
  }

  function IdReady(g: Gate, id: nat): Gate {
    StartBundled(g.(clientId := id), g.rreqs, g.wreqs).(rreqs := [], wreqs := [])
  }

  // ---- the engine

  datatype Http = Http(man: Man, gate: Gate, chan: seq<Sub>, calls: seq<Call>)

  const EMPTY_HTTP := Http(EMPTY_MAN, EMPTY_GATE, [], [])

  function Unlink(h: Http, src: string, verb: Verb, l: Listener): Http {
    h.(man := Cancel(h.man, src, verb, l), chan := WithoutListener(h.chan, l))
  }

  function Timeout(h: Http, chunk: int): Http {
    var r, w := Reads(Chunk(h.man, chunk)), Writes(Chunk(h.man, chunk));
    h.(man := Tick(h.man, chunk), gate := if r != [] || w != [] then BundleReady(h.gate, r, w) else h.gate)
  }

  /** A reply that asks for an authorisation before a write. */
  predicate IsAuthRequest(da: CuData) {
    "auth_url" in da && Has(da, "method", "write")
  }

  /** The updates made for a list of answered requests: not for unsubscriptions. */
  function UpdateCalls(ds: seq<SrcData>, da: CuData): seq<Call> {
    if ds == [] then []
    else
      var d := ds[|ds| - 1];
      UpdateCalls(ds[..|ds| - 1], da) + if d.lis != NULL_LISTENER && !d.verb.Unsubscribe? then [Call(d.lis, da)] else []
  }

  /** The channel map after the answered requests, taken one after the other. */
  function UpdateChan(chan: seq<Sub>, ds: seq<SrcData>, src: string): seq<Sub> {
    if ds == [] then chan
    else
      var d, c := ds[|ds| - 1], UpdateChan(chan, ds[..|ds| - 1], src);
      if d.verb.Subscribe? || d.verb.SubscribeAlt? then c + [Sub(src, d.lis)]
      else if d.verb.Unsubscribe? then WithoutListener(c, d.lis)
      else c
  }

  function DataAt(t: map<string, SrcData>, ks: seq<string>): (ds: seq<SrcData>)
    requires forall k :: k in ks ==> k in t
    ensures |ds| == |ks| && forall j :: 0 <= j < |ks| ==> ds[j] == t[ks[j]]
  {
    if ks == [] then []
    else
      var last := ks[|ks| - 1];
      assert last in ks;
      DataAt(t, ks[..|ks| - 1]) + [t[last]]
  }

  ghost function AllTargets(t: map<string, SrcData>): seq<SrcData> {
    SortedKeysCover(t.Keys);
    DataAt(t, SortedKeys(t.Keys))
  }

  /** Everything one reply consumes: the waiting reads of its source, newest first, then every pending write. */
  ghost function Answered(h: Http, da: CuData): seq<SrcData> {
    Values(h.man.waiting, SrcOf(da)) + AllTargets(h.man.targets)
  }

  ghost function LisUpdate(h: Http, da: CuData): Http {
    var ds := Answered(h, da);
    Http(h.man.(waiting := WithoutKey(h.man.waiting, SrcOf(da)), targets := map[]),
         h.gate,
         UpdateChan(h.chan, ds, SrcOf(da)),
         h.calls + UpdateCalls(ds, da))
  }

  ghost function Reply(h: Http, da: CuData): Http {
    if IsAuthRequest(da) then h else LisUpdate(h, da)
  }

  ghost function Replies(h: Http, das: seq<CuData>): Http {
    if das == [] then h else Reply(Replies(h, das[..|das| - 1]), das[|das| - 1])
  }

  /** What the listener of a pending write is told when the write cannot be authorised. */
  function WriteError(msg: string, extra: CuData, target: string): CuData {
    map["msg" := Scalar(msg), "err" := Scalar("true"), "is_result" := Scalar("true")] + extra
        + map["src" := Scalar(target)]
  }

  function ErrorCalls(t: map<string, SrcData>, ks: seq<string>, msg: string, extra: CuData): seq<Call> {
    if ks == [] then []
    else
      var k := ks[|ks| - 1];
      ErrorCalls(t, ks[..|ks| - 1], msg, extra) +
      if k in t && t[k].lis != NULL_LISTENER then [Call(t[k].lis, WriteError(msg, extra, k))] else []
  }

  lemma {:induction false} ErrorCallsNext(t: map<string, SrcData>, ks: seq<string>, n: nat, msg: string, extra: CuData)
    requires n < |ks|
    ensures var k := ks[n];
            ErrorCalls(t, ks[..n + 1], msg, extra) == ErrorCalls(t, ks[..n], msg, extra) +
              if k in t && t[k].lis != NULL_LISTENER then [Call(t[k].lis, WriteError(msg, extra, k))] else []
  {
    assert ks[..n + 1][..n] == ks[..n];
  }

  ghost function AllErrorCalls(t: map<string, SrcData>, msg: string, extra: CuData): seq<Call> {
    ErrorCalls(t, SortedKeys(t.Keys), msg, extra)
  }

  ghost function FailTargets(h: Http, msg: string, extra: CuData): Http {
    h.(man := h.man.(targets := map[]), calls := h.calls + AllErrorCalls(h.man.targets, msg, extra))
  }

  ghost function CredsReady(h: Http, user: string): Http {
    if user == "" then FailTargets(h, "invalid user name", map[]) else h
  }

  ghost function AuthReply(h: Http, authorised: bool, user: string, message: string): Http {
    if authorised then h.(gate := h.gate.(posts := h.gate.posts + [XecPost(Rebuild(h.man.targets))]))
    else FailTargets(h, message, map["user" := Scalar(user)])
  }

  ghost function AuthError(h: Http, message: string): Http { FailTargets(h, message, map[]) }

  function ChannelMessage(h: Http, a: seq<CuData>): Http {
    h.(calls := h.calls + Route(h.chan, a))
  }

  class CumbiaHttp {
    const srcQMan: CuHttpSrcMan
    const chanRecv: CuHttpChannelReceiver
    var clientId: nat
    var rreqs: seq<SrcItem>
    var wreqs: seq<SrcItem>
    /** The outside world: id requests started, bundles posted, listener updates made. */
    var idRequests: nat
    var posts: seq<Post>
    var calls: seq<Call>

    ghost predicate Valid() reads this, srcQMan { srcQMan.Valid() }

    ghost function TheGate(): Gate reads this { Gate(clientId, rreqs, wreqs, idRequests, posts) }

    ghost function View(): Http reads this, srcQMan, chanRecv {
      Http(srcQMan.View(), TheGate(), chanRecv.rmap, calls)
    }

    constructor (channel: string)
      ensures Valid() && View() == EMPTY_HTTP && fresh(srcQMan) && fresh(chanRecv)
      ensures srcQMan.dequChunkSiz == 100 && chanRecv.chan == channel && chanRecv.buf == ""
    {
      srcQMan := new CuHttpSrcMan(100);
      chanRecv := new CuHttpChannelReceiver(channel);
      clientId, rreqs, wreqs, idRequests, posts, calls := 0, [], [], 0, [], [];
    }

    method ReadEnqueue(src: string, l: Listener, verb: Verb, options: CuData)
      requires Valid()
      modifies srcQMan
      ensures Valid()
      ensures View() == old(View()).(man :=
                Enqueue(old(View()).man, MakeItem(src, l, verb, chanRecv.chan, Invalid, options)))
    {
      srcQMan.EnqueueSrc(src, l, verb, chanRecv.chan, Invalid, options);
    }

    method UnsubscribeEnqueue(src: string, l: Listener)
      requires Valid()
      modifies srcQMan
      ensures Valid()
      ensures View() == old(View()).(man :=
                Enqueue(old(View()).man, MakeItem(src, l, Unsubscribe, chanRecv.chan, Invalid, map[])))
    {
      srcQMan.EnqueueSrc(src, l, Unsubscribe, chanRecv.chan, Invalid, map[]);
    }

    method ExecuteWrite(src: string, l: Listener, verb: Verb, options: CuData)
      requires Valid()
      modifies srcQMan
      ensures Valid()
      ensures var v := if "write_val" in options then options["write_val"] else Invalid;
              View() == old(View()).(man := Enqueue(old(View()).man, MakeItem(src, l, verb, "", v, options)))
    {
      srcQMan.EnqueueSrc(src, l, verb, "", if "write_val" in options then options["write_val"] else Invalid, options);
    }

    method UnlinkListener(src: string, verb: Verb, l: Listener)
      requires Valid()
      modifies srcQMan, chanRecv`rmap
      ensures Valid() && View() == Unlink(old(View()), src, verb, l)
      ensures chanRecv.buf == old(chanRecv.buf)
    {
      srcQMan.CancelSrc(src, verb, l);
      chanRecv.RemoveDataListener(l);
    }

    method NeedsClientId(rsrcs: seq<SrcItem>) returns (needsId: bool)
      ensures needsId == NeedClientId(rsrcs)
    {
      needsId := false;
      var k := 0;
      while !needsId && k < |rsrcs|
        invariant 0 <= k <= |rsrcs| && needsId == NeedClientId(rsrcs[..k])
        decreases |rsrcs| - k
      {
        assert rsrcs[..k + 1][..k] == rsrcs[..k];
        needsId := rsrcs[k].verb.NeedsId();
        k := k + 1;
      }
      assert rsrcs == rsrcs[..k] + rsrcs[k..];
      NeedIdAppend(rsrcs[..k], rsrcs[k..]);
    }

    method StartBundledSrcReq(rsrcs: seq<SrcItem>, wsrcs: seq<SrcItem>)
      modifies this`posts
      ensures TheGate() == StartBundled(old(TheGate()), rsrcs, wsrcs)
    {
      if |rsrcs| > 0 { posts := posts + [SrcPost(rsrcs, clientId)]; }
      if |wsrcs| > 0 { posts := posts + [XecPost(wsrcs)]; }
    }

    method OnSrcBundleReqReady(rsrcs: seq<SrcItem>, wsrcs: seq<SrcItem>)
      modifies this`posts, this`rreqs, this`wreqs, this`idRequests
      ensures TheGate() == BundleReady(old(TheGate()), rsrcs, wsrcs)
    {
      var needsId := NeedsClientId(rsrcs);
      if clientId > 0 || !needsId {
        StartBundledSrcReq(rsrcs, wsrcs);
      } else {
        rreqs, wreqs := rreqs + rsrcs, wreqs + wsrcs;
        idRequests := idRequests + 1;
      }
    }

    method OnIdReady(id: nat)
      requires Valid()
      modifies this`clientId, this`posts, this`rreqs, this`wreqs
      ensures Valid() && View() == old(View()).(gate := IdReady(old(TheGate()), id))
    {
      clientId := id;
      StartBundledSrcReq(rreqs, wreqs);
      rreqs, wreqs := [], [];
    }

    /** One timeout of the queue's timer; the engine is the queue's listener. */
    method OnTimer()
      requires Valid()
      modifies this, srcQMan
      ensures Valid() && View() == Timeout(old(View()), srcQMan.dequChunkSiz)
    {
      var r, w := srcQMan.OnDequeueTimeout();
      if r != [] || w != [] { OnSrcBundleReqReady(r, w); }
    }

    method OnSrcBundleReplyReady(dali: seq<CuData>)
      requires Valid()
      modifies this`calls, srcQMan, chanRecv`rmap
      ensures Valid() && View() == Replies(old(View()), dali)
    {
      ghost var h0 := View();
      for n := 0 to |dali|
        invariant Valid() && View() == Replies(h0, dali[..n])
      {
        assert dali[..n + 1][..n] == dali[..n];
        if !IsAuthRequest(dali[n]) { LisUpdateFor(dali[n]); }
      }
      assert dali[..|dali|] == dali;
    }

    method LisUpdateFor(da: CuData)
      requires Valid()
      modifies this`calls, srcQMan, chanRecv`rmap
      ensures Valid() && View() == LisUpdate(old(View()), da)
    {
      var src := SrcOf(da);
      var mp := srcQMan.TakeTgts();
      var tgtli := TargetList(mp);
      var srcs := srcQMan.TakeSrcs(src);
      var dali := srcs + tgtli;
      UpdateEach(src, dali, da);
    }

    static method TargetList(mp: map<string, SrcData>) returns (tgtli: seq<SrcData>)
      ensures tgtli == AllTargets(mp)
    {
      tgtli := [];
      SortedKeysCover(mp.Keys);
      var ks := Keys(mp);
      for n := 0 to |ks|
        invariant forall k :: k in ks[..n] ==> k in mp
        invariant tgtli == DataAt(mp, ks[..n])
      {
        assert ks[n] in ks && ks[..n + 1][..n] == ks[..n];
        tgtli := tgtli + [mp[ks[n]]];
      }
      assert ks[..|ks|] == ks;
    }

    method UpdateEach(src: string, dali: seq<SrcData>, da: CuData)
      modifies this`calls, chanRecv`rmap
      ensures calls == old(calls) + UpdateCalls(dali, da)
      ensures chanRecv.rmap == UpdateChan(old(chanRecv.rmap), dali, src)
    {
      for n := 0 to |dali|
        invariant calls == old(calls) + UpdateCalls(dali[..n], da)
        invariant chanRecv.rmap == UpdateChan(old(chanRecv.rmap), dali[..n], src)
      {
        assert dali[..n + 1][..n] == dali[..n];
        var srcd := dali[n];
        if srcd.lis != NULL_LISTENER && !srcd.verb.Unsubscribe? { calls := calls + [Call(srcd.lis, da)]; }
        if srcd.verb.Subscribe? || srcd.verb.SubscribeAlt? {
          chanRecv.AddDataListener(src, srcd.lis);
        } else if srcd.verb.Unsubscribe? {
          chanRecv.RemoveDataListener(srcd.lis);
        }
      }
      assert dali[..|dali|] == dali;
    }

    method FailPendingTargets(msg: string, extra: CuData)
      requires Valid()
      modifies this`calls, srcQMan`tgtd
      ensures Valid() && View() == FailTargets(old(View()), msg, extra)
    {
      var tm := srcQMan.TakeTgts();
      var cs := ErrorUpdates(tm, msg, extra);
      calls := calls + cs;
    }

    /** The updates of the loop over the taken targets. */
    static method ErrorUpdates(tm: map<string, SrcData>, msg: string, extra: CuData) returns (cs: seq<Call>)
      ensures cs == AllErrorCalls(tm, msg, extra)
    {
      cs := [];
      SortedKeysCover(tm.Keys);
      var ks := Keys(tm);
      for n := 0 to |ks|
        invariant cs == ErrorCalls(tm, ks[..n], msg, extra)
      {
        var k := ks[n];
        assert k in ks;
        ErrorCallsNext(tm, ks, n, msg, extra);
        if tm[k].lis != NULL_LISTENER { cs := cs + [Call(tm[k].lis, WriteError(msg, extra, k))]; }
      }
      assert ks[..|ks|] == ks;
    }

    method OnCredsReady(user: string)
      requires Valid()
      modifies this`calls, srcQMan`tgtd
      ensures Valid() && View() == CredsReady(old(View()), user)
    {
      if user == "" { FailPendingTargets("invalid user name", map[]); }
    }

    method OnAuthReply(authorised: bool, user: string, message: string)
      requires Valid()
      modifies this`calls, this`posts, srcQMan`tgtd
      ensures Valid() && View() == AuthReply(old(View()), authorised, user, message)
    {
      if authorised {
        var r, _ := CuHttpBundledSrcReq.ItemsOf(srcQMan.tgtd);
        posts := posts + [XecPost(r)];
      } else {
        FailPendingTargets(message, map["user" := Scalar(user)]);
      }
    }

    method OnAuthError(message: string)
      requires Valid()
      modifies this`calls, srcQMan`tgtd
      ensures Valid() && View() == AuthError(old(View()), message)
    {
      FailPendingTargets(message, map[]);
    }

    method OnChannelMessage(a: seq<CuData>)
      requires Valid()
      modifies this`calls
      ensures Valid() && View() == ChannelMessage(old(View()), a)
    {
      var cs := chanRecv.DecodeMessage(a);
      calls := calls + cs;
    }
  }

  // ---- the reader

  /** What a reader remembers between calls: its source (empty: not set) and the method it last used. */
  datatype Reader = Reader(s: string, verb: Verb)

  const NEW_READER := Reader("", NoMethod)

  function SetItem(s: string, l: Listener, single: bool, chan: string, options: CuData): SrcItem {
    MakeItem(s, l, if single then Read else Subscribe, chan, Invalid, options)
  }

  function SetSource(h: Http, r: Reader, s: string, l: Listener, single: bool, chan: string,
          options: CuData): (Http, Reader)
  {
    if s == "" then (h, r.(s := ""))
    else (h.(man := Enqueue(h.man, SetItem(s, l, single, chan, options))),
          Reader(s, if single then Read else Subscribe))
  }

  function UnsetSource(h: Http, r: Reader, l: Listener, chan: string): (Http, Reader) {
    var h' := Unlink(h, r.s, r.verb, l);
    (if r.verb.Subscribe? then h'.(man := Enqueue(h'.man, MakeItem(r.s, l, Unsubscribe, chan, Invalid, map[]))) else h',
     r.(s := ""))
  }

  class CuHttpControlsReader {
    const cuHttp: CumbiaHttp
    const dlis: Listener
    const single: bool
    const options: CuData
    var s: string
    var verb: Verb

    ghost function View(): Reader reads this { Reader(s, verb) }

    /** `single` stands for the "single-shot" and "manual" options. */
    constructor (h: CumbiaHttp, l: Listener, single: bool, options: CuData)
      ensures View() == NEW_READER && cuHttp == h && dlis == l && this.single == single && this.options == options
    {
      cuHttp, dlis, this.single, this.options := h, l, single, options;
      s, verb := "", NoMethod;
    }

    method SetTheSource(src: string)
      requires cuHttp.Valid()
      modifies this, cuHttp.srcQMan
      ensures cuHttp.Valid()
      ensures (cuHttp.View(), View())
              == SetSource(old(cuHttp.View()), old(View()), src, dlis, single, cuHttp.chanRecv.chan,
                           options["read-value" := Scalar("true")])
    {
      s := src;
      if src != "" {
        verb := if single then Read else Subscribe;
        cuHttp.ReadEnqueue(src, dlis, verb, options["read-value" := Scalar("true")]);
      }
    }

    method UnsetTheSource()
      requires cuHttp.Valid()
      modifies this, cuHttp.srcQMan, cuHttp.chanRecv`rmap
      ensures cuHttp.Valid()
      ensures (cuHttp.View(), View()) == UnsetSource(old(cuHttp.View()), old(View()), dlis, cuHttp.chanRecv.chan)
    {
      cuHttp.UnlinkListener(s, verb, dlis);
      if verb.Subscribe? { cuHttp.UnsubscribeEnqueue(s, dlis); }
      s := "";
    }

    /** The destructor unlinks without an unsubscribe request. */
    method Destroy()
      requires cuHttp.Valid()
      modifies cuHttp.srcQMan, cuHttp.chanRecv`rmap
      ensures cuHttp.Valid() && cuHttp.View() == Unlink(old(cuHttp.View()), s, verb, dlis)
    {
      cuHttp.UnlinkListener(s, verb, dlis);
    }
  }
}
