/** The queue, the gate and the engine as one pipeline: the runs of each part are those of the whole. */
module PipelineRuns {
  import opened Bundle
  import opened HttpEngine
  import opened HttpRuns
  import opened HttpTypes
  import opened Seqs
  import opened SrcMan
  import GateRuns
  import QueueRuns

  // ---- the queue and the gate of a run

  function OpsOf(es: seq<Event>): seq<QueueRuns.Op> {
    if es == [] then [] else OpsOf(es[..|es| - 1]) + OpOf(es[|es| - 1])
  }

  /** What an event of the engine is to the queue. */
  function OpOf(e: Event): seq<QueueRuns.Op> {
    match e
    case Request(i) => [QueueRuns.Put(i)]
    case Unlinked(src, verb, l) => [QueueRuns.Revoke(src, verb, l)]
    case Timer => [QueueRuns.Timeout]
    case _ => []
  }

  lemma {:induction false} TraceSnoc(ops: seq<QueueRuns.Op>, op: QueueRuns.Op, chunk: int)
    ensures QueueRuns.TraceRun(ops + [op], chunk) == QueueRuns.TraceStep(QueueRuns.TraceRun(ops, chunk), op, chunk)
  {
    assert (ops + [op])[..|ops|] == ops;
  }

  /** The same queue and the same timer. */
  predicate SameQueue(m: Man, m': Man) { m.queue == m'.queue && m.timer == m'.timer }

  lemma {:induction false} OpOnQueue(m: Man, t: QueueRuns.Trace, op: QueueRuns.Op, chunk: int)
    requires SameQueue(m, t.man)
    ensures SameQueue(QueueRuns.TraceStep(QueueRuns.Trace(m, [], []), op, chunk).man,
            QueueRuns.TraceStep(t, op, chunk).man)
  {
  }

  lemma {:induction false} StepIsOp(h: Http, e: Event, chunk: int)
    ensures OpOf(e) == [] ==> SameQueue(Step(h, e, chunk).man, h.man)
    ensures OpOf(e) != [] ==>
              Step(h, e, chunk).man == QueueRuns.TraceStep(QueueRuns.Trace(h.man, [], []), OpOf(e)[0], chunk).man
  {
  }

  lemma {:induction false} StepOnQueue(h: Http, ops: seq<QueueRuns.Op>, e: Event, chunk: int)
    requires SameQueue(h.man, QueueRuns.TraceRun(ops, chunk).man)
    ensures SameQueue(Step(h, e, chunk).man, QueueRuns.TraceRun(ops + OpOf(e), chunk).man)
  {
    StepIsOp(h, e, chunk);
    if OpOf(e) == [] {
      assert ops + [] == ops;
    } else {
      TraceSnoc(ops, OpOf(e)[0], chunk);
      OpOnQueue(h.man, QueueRuns.TraceRun(ops, chunk), OpOf(e)[0], chunk);
      assert OpOf(e) == [OpOf(e)[0]];
    }
  }

  /** The queue and its timer go through the run of the queue alone, so its results hold here. */
  lemma {:induction false} QueueProjects(es: seq<Event>, chunk: int)
    ensures SameQueue(Run(EMPTY_HTTP, es, chunk).man, QueueRuns.TraceRun(OpsOf(es), chunk).man)
    decreases |es|
  {
    if es != [] {
      var front, e := es[..|es| - 1], es[|es| - 1];
      QueueProjects(front, chunk);
      StepOnQueue(Run(EMPTY_HTTP, front, chunk), OpsOf(front), e, chunk);
    }
  }

  /** What an event of the engine is to the gate. */
  function GateEvent(h: Http, e: Event, chunk: int): seq<GateRuns.Event> {
    match e
    case Timer => [GateRuns.Bundle(Reads(Chunk(h.man, chunk)), Writes(Chunk(h.man, chunk)))]
    case Id(id) => [GateRuns.IdReport(id, true)]
    case _ => []
  }

  ghost function GateEvents(es: seq<Event>, chunk: int): seq<GateRuns.Event>
    decreases |es|
  {
    if es == [] then []
    else GateEvents(es[..|es| - 1], chunk) + GateEvent(Run(EMPTY_HTTP, es[..|es| - 1], chunk), es[|es| - 1], chunk)
  }

  /** The bundle that a successful authorisation posts past the gate. */
  ghost function Repost(h: Http, e: Event): seq<Post> {
    if e.Auth? && e.authorised then [XecPost(Rebuild(h.man.targets))] else []
  }

  ghost function Reposts(es: seq<Event>, chunk: int): seq<Post>
    decreases |es|
  {
    if es == [] then []
    else Reposts(es[..|es| - 1], chunk) + Repost(Run(EMPTY_HTTP, es[..|es| - 1], chunk), es[|es| - 1])
  }

  lemma {:induction false} GateSnoc(gs: seq<GateRuns.Event>, x: GateRuns.Event)
    ensures GateRuns.HandedR(gs + [x]) == GateRuns.HandedR(gs) + if x.Bundle? then x.r else []
    ensures GateRuns.HandedW(gs + [x]) == GateRuns.HandedW(gs) + if x.Bundle? then x.w else []
  {
    assert (gs + [x])[..|gs|] == gs;
  }

  function GateStep(g: Gate, x: GateRuns.Event): Gate {
    match x
    case Bundle(r, w) => BundleReady(g, r, w)
    case IdReport(id, _) => IdReady(g, id)
  }

  /** The gate apart from its posts, and the posts of one step; neither depends on the posts made before. */
  function Bare(g: Gate): Gate { g.(posts := []) }

  function Delta(g: Gate, x: GateRuns.Event): seq<Post> { GateStep(Bare(g), x).posts }

  lemma {:induction false} GateAppends(g: Gate, x: GateRuns.Event)
    ensures GateStep(g, x).posts == g.posts + Delta(g, x)
    ensures Bare(GateStep(g, x)) == Bare(GateStep(Bare(g), x))
  {
    var none: seq<Post> := [];
    match x
    case Bundle(r, w) => if g.clientId > 0 || !NeedClientId(r) { StartAppends(g, r, w); }
    case IdReport(id, _) => StartAppends(g.(clientId := id), g.rreqs, g.wreqs);
  }

  lemma {:induction false} StartAppends(g: Gate, r: seq<SrcItem>, w: seq<SrcItem>)
    ensures StartBundled(g, r, w).posts == g.posts + StartBundled(Bare(g), r, w).posts
    ensures Bare(StartBundled(g, r, w)) == Bare(g) == Bare(StartBundled(Bare(g), r, w))
  {
    GateRuns.StartPosts(g, r, w);
    GateRuns.StartPosts(Bare(g), r, w);
    var ps := GateRuns.NewPosts(g.clientId, r, w);
    assert [] + ps == ps;
  }

  /** h's gate is in the state of g, which made the same posts but for the reposts. */
  ghost predicate SameGate(h: Gate, g: Gate, reposts: seq<Post>) {
    Bare(h) == Bare(g) && multiset(h.posts) == multiset(g.posts) + multiset(reposts)
  }

  lemma {:induction false} SameGateStep(h: Gate, g: Gate, reposts: seq<Post>, x: GateRuns.Event)
    requires SameGate(h, g, reposts)
    ensures SameGate(GateStep(h, x), GateStep(g, x), reposts)
  {
    GateAppends(h, x);
    GateAppends(g, x);
    var ps := Delta(g, x);
    assert multiset(h.posts + ps) == multiset(h.posts) + multiset(ps);
    assert multiset(g.posts + ps) == multiset(g.posts) + multiset(ps);
  }

  lemma {:induction false} EngineOnGate(h: Http, e: Event, chunk: int)
    ensures var xs := GateEvent(h, e, chunk);
            xs != [] ==> Step(h, e, chunk).gate == GateStep(h.gate, xs[0]) && Repost(h, e) == []
    ensures GateEvent(h, e, chunk) == [] ==>
              Step(h, e, chunk).gate == h.gate.(posts := h.gate.posts + Repost(h, e))
  {
    if e.Timer? { EmptyBundle(h.gate); }
    assert h.gate.posts + [] == h.gate.posts;
  }

  /** A bundle of nothing changes nothing. */
  lemma {:induction false} EmptyBundle(g: Gate)
    ensures BundleReady(g, [], []) == g
  {
    assert g.posts + [] + [] == g.posts;
  }

  /**
   * The gate goes through the run of the gate alone; its posts are those of that run and, past the gate, the
   * bundles that authorisations post again.
   */
  lemma {:induction false} GateProjects(es: seq<Event>, chunk: int)
    ensures SameGate(Run(EMPTY_HTTP, es, chunk).gate, GateRuns.RunOf(GateEvents(es, chunk)).gate, Reposts(es, chunk))
    decreases |es|
  {
    if es != [] {
      var front, e := es[..|es| - 1], es[|es| - 1];
      GateProjects(front, chunk);
      StepOnGate(Run(EMPTY_HTTP, front, chunk), GateEvents(front, chunk), Reposts(front, chunk), e, chunk);
    }
  }

  lemma {:induction false} StepOnGate(h: Http, gs: seq<GateRuns.Event>, reposts: seq<Post>, e: Event, chunk: int)
    requires SameGate(h.gate, GateRuns.RunOf(gs).gate, reposts)
    ensures SameGate(Step(h, e, chunk).gate, GateRuns.RunOf(gs + GateEvent(h, e, chunk)).gate, reposts + Repost(h, e))
  {
    var xs, g := GateEvent(h, e, chunk), GateRuns.RunOf(gs).gate;
    EngineOnGate(h, e, chunk);
    if xs == [] {
      RepostAdds(h.gate, g, reposts, Repost(h, e));
      assert gs + xs == gs;
    } else {
      RunGateSnoc(gs, xs[0]);
      SameGateStep(h.gate, g, reposts, xs[0]);
      assert gs + xs == gs + [xs[0]] && reposts + [] == reposts;
    }
  }

  lemma {:induction false} RunGateSnoc(gs: seq<GateRuns.Event>, x: GateRuns.Event)
    ensures GateRuns.RunOf(gs + [x]).gate == GateStep(GateRuns.RunOf(gs).gate, x)
  {
    assert (gs + [x])[..|gs|] == gs;
  }

  lemma {:induction false} RepostAdds(h: Gate, g: Gate, reposts: seq<Post>, more: seq<Post>)
    requires SameGate(h, g, reposts)
    ensures SameGate(h.(posts := h.posts + more), g, reposts + more)
  {
    assert multiset(h.posts + more) == multiset(h.posts) + multiset(more);
    assert multiset(reposts + more) == multiset(reposts) + multiset(more);
  }

  /** And what the queue hands over is what the gate is handed. */
  lemma {:induction false} HandedProjects(es: seq<Event>, chunk: int)
    ensures SameHanded(QueueRuns.TraceRun(OpsOf(es), chunk), GateEvents(es, chunk))
    decreases |es|
  {
    if es != [] {
      var front, e := es[..|es| - 1], es[|es| - 1];
      HandedProjects(front, chunk);
      QueueProjects(front, chunk);
      StepHanded(Run(EMPTY_HTTP, front, chunk), OpsOf(front), GateEvents(front, chunk), e, chunk);
    }
  }

  /** The queue has handed over what the gate was handed. */
  ghost predicate SameHanded(t: QueueRuns.Trace, gs: seq<GateRuns.Event>) {
    t.handedR == GateRuns.HandedR(gs) && t.handedW == GateRuns.HandedW(gs)
  }

  lemma {:induction false} TickHanded(h: Http, ops: seq<QueueRuns.Op>, gs: seq<GateRuns.Event>, chunk: int)
    requires SameQueue(h.man, QueueRuns.TraceRun(ops, chunk).man) && SameHanded(QueueRuns.TraceRun(ops, chunk), gs)
    ensures SameHanded(QueueRuns.TraceRun(ops + OpOf(Timer), chunk), gs + GateEvent(h, Timer, chunk))
  {
    TraceSnoc(ops, QueueRuns.Timeout, chunk);
    ChunkHanded(QueueRuns.TraceRun(ops, chunk), gs, Chunk(h.man, chunk), chunk);
  }

  lemma {:induction false} ChunkHanded(t: QueueRuns.Trace, gs: seq<GateRuns.Event>, done: seq<SrcItem>, chunk: int)
    requires SameHanded(t, gs) && done == Chunk(t.man, chunk)
    ensures SameHanded(QueueRuns.TraceStep(t, QueueRuns.Timeout, chunk), gs
            + [GateRuns.Bundle(Reads(done), Writes(done))])
  {
    GateSnoc(gs, GateRuns.Bundle(Reads(done), Writes(done)));
  }

  /** Any other event makes the queue hand nothing over. */
  lemma {:induction false} NothingHandedOver(ops: seq<QueueRuns.Op>, e: Event, chunk: int)
    requires !e.Timer?
    ensures var t, t' := QueueRuns.TraceRun(ops, chunk), QueueRuns.TraceRun(ops + OpOf(e), chunk);
            t'.handedR == t.handedR && t'.handedW == t.handedW
  {
    if OpOf(e) == [] {
      assert ops + [] == ops;
    } else {
      TraceSnoc(ops, OpOf(e)[0], chunk);
      assert OpOf(e) == [OpOf(e)[0]];
    }
  }

  /** And hands the gate nothing. */
  lemma {:induction false} NothingHandedIn(h: Http, gs: seq<GateRuns.Event>, e: Event, chunk: int)
    requires !e.Timer?
    ensures var gs' := gs + GateEvent(h, e, chunk);
            GateRuns.HandedR(gs') == GateRuns.HandedR(gs) && GateRuns.HandedW(gs') == GateRuns.HandedW(gs)
  {
    if e.Id? { GateSnoc(gs, GateRuns.IdReport(e.id, true)); } else { assert gs + [] == gs; }
  }

  lemma {:induction false} StepHanded(h: Http, ops: seq<QueueRuns.Op>, gs: seq<GateRuns.Event>, e: Event, chunk: int)
    requires SameQueue(h.man, QueueRuns.TraceRun(ops, chunk).man) && SameHanded(QueueRuns.TraceRun(ops, chunk), gs)
    ensures SameHanded(QueueRuns.TraceRun(ops + OpOf(e), chunk), gs + GateEvent(h, e, chunk))
  {
    if e.Timer? {
      TickHanded(h, ops, gs, chunk);
    } else {
      NothingHandedOver(ops, e, chunk);
      NothingHandedIn(h, gs, e, chunk);
    }
  }

  // ---- every request, from its enqueuing to its post

  /** What is queued, held back or posted. */
  ghost function InHand(h: Http): multiset<SrcItem> {
    multiset(h.man.queue) + Past(h.gate)
  }

  ghost function Past(g: Gate): multiset<SrcItem> {
    multiset(g.rreqs) + multiset(g.wreqs) + multiset(GateRuns.PostedR(g.posts)) + multiset(GateRuns.PostedW(g.posts))
  }

  /** The requests an event makes, those it cancels in the queue, and the writes it posts again. */
  function Asked(e: Event): multiset<SrcItem> { if e.Request? then multiset{e.item} else multiset{} }

  function Cancelled(h: Http, e: Event): multiset<SrcItem> {
    if e.Unlinked? then multiset(Filter((i: SrcItem) => Hits(i, e.src, e.verb, e.l), h.man.queue)) else multiset{}
  }

  ghost function Again(h: Http, e: Event): multiset<SrcItem> {
    if e.Auth? && e.authorised then multiset(Rebuild(h.man.targets)) else multiset{}
  }

  ghost function AskedIn(es: seq<Event>): multiset<SrcItem> {
    if es == [] then multiset{} else AskedIn(es[..|es| - 1]) + Asked(es[|es| - 1])
  }

  ghost function CancelledIn(es: seq<Event>, chunk: int): multiset<SrcItem>
    decreases |es|
  {
    if es == [] then multiset{}
    else CancelledIn(es[..|es| - 1], chunk) + Cancelled(Run(EMPTY_HTTP, es[..|es| - 1], chunk), es[|es| - 1])
  }

  ghost function AgainIn(es: seq<Event>, chunk: int): multiset<SrcItem>
    decreases |es|
  {
    if es == [] then multiset{}
    else AgainIn(es[..|es| - 1], chunk) + Again(Run(EMPTY_HTTP, es[..|es| - 1], chunk), es[|es| - 1])
  }

  lemma {:induction false} StartPast(g: Gate, r: seq<SrcItem>, w: seq<SrcItem>)
    ensures Past(StartBundled(g, r, w)) == Past(g) + multiset(r) + multiset(w)
  {
    GateRuns.StartPosted(g, r, w);
  }

  lemma {:induction false} BundlePast(g: Gate, r: seq<SrcItem>, w: seq<SrcItem>)
    ensures Past(BundleReady(g, r, w)) == Past(g) + multiset(r) + multiset(w)
  {
    if g.clientId > 0 || !NeedClientId(r) { StartPast(g, r, w); }
  }

  lemma {:induction false} ReleasePast(g: Gate, id: nat)
    ensures Past(IdReady(g, id)) == Past(g)
  {
    GateRuns.StartPosted(g.(clientId := id), g.rreqs, g.wreqs);
    var g' := IdReady(g, id);
    assert multiset(GateRuns.PostedR(g'.posts)) == multiset(GateRuns.PostedR(g.posts)) + multiset(g.rreqs);
    assert multiset(GateRuns.PostedW(g'.posts)) == multiset(GateRuns.PostedW(g.posts)) + multiset(g.wreqs);
  }

  lemma {:induction false} IdPast(h: Http, id: nat)
    ensures InHand(h.(gate := IdReady(h.gate, id))) == InHand(h)
  {
    ReleasePast(h.gate, id);
  }

  lemma {:induction false} DonePartition(q: seq<SrcItem>)
    ensures multiset(Reads(q)) + multiset(Writes(q)) == multiset(q)
  {
    FilterPartition((i: SrcItem) => !i.verb.Write?, (i: SrcItem) => i.verb.Write?, q);
  }

  lemma {:induction false} TickGate(h: Http, chunk: int)
    ensures Past(Timeout(h, chunk).gate) == Past(h.gate) + multiset(Chunk(h.man, chunk))
  {
    var done := Chunk(h.man, chunk);
    EngineOnGate(h, Timer, chunk);
    BundlePast(h.gate, Reads(done), Writes(done));
    DonePartition(done);
  }

  lemma {:induction false} Regroup(done: seq<SrcItem>, rest: seq<SrcItem>, a: multiset<SrcItem>)
    ensures multiset(rest) + (a + multiset(done)) == multiset(done + rest) + a
  {
  }

  lemma {:induction false} TickPast(h: Http, chunk: int)
    ensures InHand(Timeout(h, chunk)) == InHand(h)
  {
    TickGate(h, chunk);
    ChunkThenRest(h.man, chunk);
    Regroup(Chunk(h.man, chunk), Tick(h.man, chunk).queue, Past(h.gate));
  }

  lemma {:induction false} ChunkThenRest(m: Man, chunk: int)
    ensures m.queue == Chunk(m, chunk) + Tick(m, chunk).queue
  {
  }

  lemma {:induction false} CancelPast(q: seq<SrcItem>, src: string, verb: Verb, l: Listener)
    ensures multiset(QueueWithout(q, src, verb, l)) + multiset(Filter((i: SrcItem) => Hits(i, src, verb, l), q))
            == multiset(q)
  {
    FilterPartition((i: SrcItem) => !Hits(i, src, verb, l), (i: SrcItem) => Hits(i, src, verb, l), q);
  }

  lemma {:induction false} RepostPast(g: Gate, items: seq<SrcItem>)
    ensures Past(g.(posts := g.posts + [XecPost(items)])) == Past(g) + multiset(items)
  {
    GateRuns.PostsAppend(g.posts, [XecPost(items)]);
    GateRuns.OnePost(XecPost(items));
  }

  lemma {:induction false} UnlinkPast(h: Http, src: string, verb: Verb, l: Listener)
    ensures InHand(Unlink(h, src, verb, l)) + Cancelled(h, Unlinked(src, verb, l)) == InHand(h)
  {
    CancelPast(h.man.queue, src, verb, l);
    QueueWithoutMembers(h.man.queue, src, verb, l);
    var h' := Unlink(h, src, verb, l);
    assert h'.man.queue == QueueWithout(h.man.queue, src, verb, l) && h'.gate == h.gate;
  }

  lemma {:induction false} OtherQueue(h: Http, e: Event, chunk: int)
    requires !e.Request? && !e.Unlinked? && !e.Timer?
    ensures Step(h, e, chunk).man.queue == h.man.queue
  {
  }

  /** Replies, messages and authorisations leave the queue alone, and post at most what they post again. */
  lemma {:induction false} OtherPast(h: Http, e: Event, chunk: int)
    requires !e.Request? && !e.Unlinked? && !e.Timer? && !e.Id?
    ensures InHand(Step(h, e, chunk)) == InHand(h) + Again(h, e)
  {
    OtherQueue(h, e, chunk);
    OtherGate(h, e, chunk);
  }

  lemma {:induction false} OtherGate(h: Http, e: Event, chunk: int)
    requires !e.Request? && !e.Unlinked? && !e.Timer? && !e.Id?
    ensures Past(Step(h, e, chunk).gate) == Past(h.gate) + Again(h, e)
  {
    EngineOnGate(h, e, chunk);
    if Repost(h, e) == [] {
      assert h.gate.posts + [] == h.gate.posts;
    } else {
      RepostPast(h.gate, Rebuild(h.man.targets));
    }
  }

  lemma {:induction false} RequestPast(h: Http, i: SrcItem)
    ensures InHand(h.(man := Enqueue(h.man, i))) == InHand(h) + multiset{i}
  {
    Regroup([i], h.man.queue, Past(h.gate));
    assert multiset(h.man.queue + [i]) == multiset([i] + h.man.queue);
  }

  ghost predicate Conserves(h: Http, e: Event, chunk: int) {
    InHand(Step(h, e, chunk)) + Cancelled(h, e) == InHand(h) + Asked(e) + Again(h, e)
  }

  lemma {:induction false} QueueEventConserves(h: Http, e: Event, chunk: int)
    requires e.Request? || e.Unlinked?
    ensures Conserves(h, e, chunk)
  {
    if e.Request? { RequestPast(h, e.item); } else { UnlinkPast(h, e.src, e.verb, e.l); }
  }

  lemma {:induction false} GateEventConserves(h: Http, e: Event, chunk: int)
    requires e.Timer? || e.Id?
    ensures Conserves(h, e, chunk)
  {
    if e.Timer? { TickPast(h, chunk); } else { IdPast(h, e.id); }
  }

  lemma {:induction false} StepConserves(h: Http, e: Event, chunk: int)
    ensures Conserves(h, e, chunk)
  {
    if e.Request? || e.Unlinked? {
      QueueEventConserves(h, e, chunk);
    } else if e.Timer? || e.Id? {
      GateEventConserves(h, e, chunk);
    } else {
      OtherPast(h, e, chunk);
    }
  }

  /**
   * In every run the requests made, and the writes posted again after an authorisation, are those queued, held
   * back, posted or cancelled while queued, each of them once.
   */
  lemma {:induction false} PipelineConserves(es: seq<Event>, chunk: int)
    ensures InHand(Run(EMPTY_HTTP, es, chunk)) + CancelledIn(es, chunk) == AskedIn(es) + AgainIn(es, chunk)
    decreases |es|
  {
    if es != [] {
      var front, e := es[..|es| - 1], es[|es| - 1];
      PipelineConserves(front, chunk);
      var h := Run(EMPTY_HTTP, front, chunk);
      StepConserves(h, e, chunk);
      Balance(InHand(h), InHand(Step(h, e, chunk)), CancelledIn(front, chunk), Cancelled(h, e),
              AskedIn(front), Asked(e), AgainIn(front, chunk), Again(h, e));
    }
  }

  lemma {:induction false} Balance(m: multiset<SrcItem>, m': multiset<SrcItem>, c: multiset<SrcItem>,
          dc: multiset<SrcItem>,
                                   a: multiset<SrcItem>, da: multiset<SrcItem>, r: multiset<SrcItem>,
                                       dr: multiset<SrcItem>)
    requires m + c == a + r && m' + dc == m + da + dr
    ensures m' + (c + dc) == (a + da) + (r + dr)
  {
    assert m' + (c + dc) == (m' + dc) + c == (m + da + dr) + c == (m + c) + da + dr;
    assert (a + r) + da + dr == (a + da) + (r + dr);
  }

  // ---- every read, from its post to its answer

  /** The entries that the reads past the queue have, or had, in the waiting map. */
  ghost function PastEntries(g: Gate): multiset<Entry> {
    multiset(Entries(g.rreqs)) + multiset(Entries(GateRuns.PostedR(g.posts)))
  }

  lemma {:induction false} EntriesOfReads(q: seq<SrcItem>)
    ensures Entries(Reads(q)) == Entries(q)
  {
    if q != [] {
      var front, i := q[..|q| - 1], q[|q| - 1];
      EntriesOfReads(front);
      if i.verb.Write? {
        assert Reads(q) == Reads(front);
      } else {
        assert Reads(q) == Reads(front) + [i];
        Snoc(map[], Reads(front), i);
      }
    }
  }

  lemma {:induction false} StartEntries(g: Gate, r: seq<SrcItem>, w: seq<SrcItem>)
    ensures PastEntries(StartBundled(g, r, w)) == PastEntries(g) + multiset(Entries(r))
  {
    GateRuns.StartPosted(g, r, w);
    EntriesAppend(GateRuns.PostedR(g.posts), r);
  }

  lemma {:induction false} BundleEntries(g: Gate, r: seq<SrcItem>, w: seq<SrcItem>)
    ensures PastEntries(BundleReady(g, r, w)) == PastEntries(g) + multiset(Entries(r))
  {
    if g.clientId > 0 || !NeedClientId(r) { StartEntries(g, r, w); } else { EntriesAppend(g.rreqs, r); }
  }

  lemma {:induction false} IdEntries(g: Gate, id: nat)
    ensures PastEntries(IdReady(g, id)) == PastEntries(g)
  {
    GateRuns.StartPosted(g.(clientId := id), g.rreqs, g.wreqs);
    EntriesAppend(GateRuns.PostedR(g.posts), g.rreqs);
    assert Entries([]) == [];
  }

  lemma {:induction false} RepostEntries(g: Gate, items: seq<SrcItem>)
    ensures PastEntries(g.(posts := g.posts + [XecPost(items)])) == PastEntries(g)
  {
    GateRuns.PostsAppend(g.posts, [XecPost(items)]);
    GateRuns.OnePost(XecPost(items));
    assert GateRuns.PostedR(g.posts) + [] == GateRuns.PostedR(g.posts);
  }

  lemma {:induction false} TickEntries(h: Http, chunk: int)
    ensures PastEntries(Timeout(h, chunk).gate) == PastEntries(h.gate) + multiset(Entries(Chunk(h.man, chunk)))
  {
    var done := Chunk(h.man, chunk);
    EngineOnGate(h, Timer, chunk);
    BundleEntries(h.gate, Reads(done), Writes(done));
    EntriesOfReads(done);
  }

  lemma {:induction false} NoneDispatched(h: Http, e: Event, chunk: int)
    requires !e.Timer?
    ensures Dispatched(h, e, chunk) == multiset{}
  {
  }

  lemma {:induction false} IdStepEntries(h: Http, e: Event, chunk: int)
    requires e.Id?
    ensures PastEntries(Step(h, e, chunk).gate) == PastEntries(h.gate)
  {
    assert Step(h, e, chunk).gate == IdReady(h.gate, e.id);
    IdEntries(h.gate, e.id);
  }

  lemma {:induction false} OtherEntries(h: Http, e: Event, chunk: int)
    requires !e.Timer? && !e.Id?
    ensures PastEntries(Step(h, e, chunk).gate) == PastEntries(h.gate)
  {
    EngineOnGate(h, e, chunk);
    if Repost(h, e) == [] {
      assert h.gate.posts + [] == h.gate.posts;
    } else {
      RepostEntries(h.gate, Rebuild(h.man.targets));
    }
  }

  lemma {:induction false} StepEntries(h: Http, e: Event, chunk: int)
    ensures PastEntries(Step(h, e, chunk).gate) == PastEntries(h.gate) + Dispatched(h, e, chunk)
  {
    if e.Timer? {
      TickEntries(h, chunk);
    } else {
      NoneDispatched(h, e, chunk);
      if e.Id? { IdStepEntries(h, e, chunk); } else { OtherEntries(h, e, chunk); }
    }
  }

  lemma {:induction false} PastIsDispatched(es: seq<Event>, chunk: int)
    ensures PastEntries(Run(EMPTY_HTTP, es, chunk).gate) == DispatchedIn(EMPTY_HTTP, es, chunk)
    decreases |es|
  {
    if es != [] {
      PastIsDispatched(es[..|es| - 1], chunk);
      StepEntries(Run(EMPTY_HTTP, es[..|es| - 1], chunk), es[|es| - 1], chunk);
    }
  }

  /** In every run each read posted or held back waits for its reply, was taken by one, or was cancelled, once. */
  lemma {:induction false} ReadsAreAccounted(es: seq<Event>, chunk: int)
    ensures var h := Run(EMPTY_HTTP, es, chunk);
            multiset(h.man.waiting) + TakenIn(EMPTY_HTTP, es, chunk) + RevokedIn(EMPTY_HTTP, es, chunk)
                == PastEntries(h.gate)
  {
    WaitingIsAccounted(es, chunk);
    PastIsDispatched(es, chunk);
  }
}
