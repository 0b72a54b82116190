/**
 * Whole runs of the HTTP engine driven by its readers: the channel map agrees with the readers' sources.
 * A listener serves at most one reader at a time, so readers are named by their listeners.
 */
module ReaderRuns {
  import opened Seqs
  import opened HttpTypes
  import opened SrcMan
  import opened Channel
  import opened HttpEngine

  datatype Sys = Sys(http: Http, readers: map<Listener, Reader>)

  const START := Sys(EMPTY_HTTP, map[])

  function ReaderOf(s: Sys, l: Listener): Reader { if l in s.readers then s.readers[l] else NEW_READER }

  /** The reader's calls, the other clients' requests and unlinks, and the engine's own events. */
  datatype Event =
    | SetReader(l: Listener, src: string, single: bool, options: CuData)
    | UnsetReader(l: Listener)
    | DestroyReader(l: Listener)
    | Request(item: SrcItem)
    | ClearTarget(src: string, verb: Verb, l: Listener)
    | Timer
    | Answer(da: CuData)
    | Id(id: nat)
    | Creds(user: string)
    | Auth(authorised: bool, user: string, message: string)
    | AuthFailed(message: string)
    | Message(a: seq<CuData>)

  ghost function Step(s: Sys, e: Event, chunk: int, chan: string): Sys {
    var h := s.http;
    match e
    case SetReader(l, src, single, options) =>
      var (h', r) := SetSource(h, ReaderOf(s, l), src, l, single, chan, options);
      Sys(h', s.readers[l := r])
    case UnsetReader(l) =>
      var (h', r) := UnsetSource(h, ReaderOf(s, l), l, chan);
      Sys(h', s.readers[l := r])
    case DestroyReader(l) => Sys(Unlink(h, ReaderOf(s, l).s, ReaderOf(s, l).verb, l), s.readers[l := NEW_READER])
    case Request(i) => s.(http := h.(man := Enqueue(h.man, i)))
    case ClearTarget(src, verb, l) => s.(http := Unlink(h, src, verb, l))
    case Timer => s.(http := Timeout(h, chunk))
    case Answer(da) => s.(http := Reply(h, da))
    case Id(id) => s.(http := h.(gate := IdReady(h.gate, id)))
    case Creds(user) => s.(http := CredsReady(h, user))
    case Auth(ok, user, message) => s.(http := AuthReply(h, ok, user, message))
    case AuthFailed(message) => s.(http := AuthError(h, message))
    case Message(a) => s.(http := ChannelMessage(h, a))
  }

  ghost function Run(es: seq<Event>, chunk: int, chan: string): Sys {
    if es == [] then START else Step(Run(es[..|es| - 1], chunk, chan), es[|es| - 1], chunk, chan)
  }

  predicate IsSub(e: Entry, l: Listener) { e.data.lis == l && e.data.verb.Subscribe? }

  predicate IsUnsub(e: Entry, l: Listener) { e.data.lis == l && e.data.verb.Unsubscribe? }

  /**
   * A subscription to src is answered only after the earlier unsubscriptions of its listener: no listener
   * has both a subscription to src and an unsubscription waiting.
   */
  ghost predicate InOrder(h: Http, src: string) { forall l: Listener :: InOrderFor(h, src, l) }

  ghost predicate InOrderFor(h: Http, src: string, l: Listener) {
    forall e, u :: e in h.man.waiting && u in h.man.waiting && e.key == src && IsSub(e, l) ==> !IsUnsub(u, l)
  }

  /** The discipline of the clients, and the order of the replies. */
  ghost predicate Allowed(s: Sys, e: Event) {
    match e
    case SetReader(l, _, _, _) => l != NULL_LISTENER && !(ReaderOf(s, l).s != "" && ReaderOf(s, l).verb.Subscribe?)
    case UnsetReader(l) => l != NULL_LISTENER
    case DestroyReader(l) => l != NULL_LISTENER
    case Request(i) => i.l != NULL_LISTENER && !i.verb.NeedsId()
    case ClearTarget(_, verb, l) => l != NULL_LISTENER && !verb.NeedsId() && ReaderOf(s, l).s == ""
    case Answer(da) => IsAuthRequest(da) || InOrder(s.http, SrcOf(da))
    case _ => true
  }

  ghost predicate Admissible(es: seq<Event>, chunk: int, chan: string) {
    es == [] || (Admissible(es[..|es| - 1], chunk, chan) && Allowed(Run(es[..|es| - 1], chunk, chan), es[|es| - 1]))
  }

  // ---- the agreement

  /** The subscribe request of l is still queued or waiting. */
  ghost predicate Unanswered(h: Http, l: Listener) {
    || (exists i :: i in h.man.queue && i.l == l && i.verb.Subscribe?)
    || (exists e :: e in h.man.waiting && IsSub(e, l))
  }

  /** l is on the channel for src exactly once if its reader is subscribed to src and was answered, else not at all. */
  ghost predicate Agree(s: Sys) { forall l: Listener, src: string :: AgreeFor(s, l, src) }

  ghost predicate AgreeFor(s: Sys, l: Listener, src: string) {
    multiset(s.http.chan)[Sub(src, l)] ==
    if ReaderOf(s, l).s == src && src != "" && ReaderOf(s, l).verb.Subscribe? && !Unanswered(s.http, l) then 1 else 0
  }

  // ---- the requests of one listener, in the order in which they will be answered

  function Pipe(h: Http): seq<Entry> { h.man.waiting + Entries(h.man.queue) }

  /** The subscriptions and unsubscriptions of l among the entries. */
  function Of(w: seq<Entry>, l: Listener): seq<Entry> {
    Filter((e: Entry) => e.data.lis == l && (e.data.verb.Subscribe? || e.data.verb.Unsubscribe?), w)
  }

  ghost predicate AllUnsubs(p: seq<Entry>, l: Listener) { forall k :: 0 <= k < |p| ==> IsUnsub(p[k], l) }

  /** Unsubscriptions, then at most one subscription, which is to the reader's present source. */
  ghost predicate Shape(p: seq<Entry>, r: Reader, l: Listener) {
    AllUnsubs(p, l) || (HasSub(p, l) && AllUnsubs(p[..|p| - 1], l) && Current(p[|p| - 1], r, l))
  }

  predicate HasSub(p: seq<Entry>, l: Listener) { p != [] && IsSub(p[|p| - 1], l) }

  predicate Current(e: Entry, r: Reader, l: Listener) {
    IsSub(e, l) && r.s != "" && r.verb.Subscribe? && e.key == r.s
  }

  predicate Linked(p: seq<Entry>, r: Reader, l: Listener) {
    r.s != "" && r.verb.Subscribe? && !HasSub(p, l)
  }

  ghost predicate ChanOf(chan: seq<Sub>, l: Listener, src: string, on: bool) {
    forall x: string :: multiset(chan)[Sub(x, l)] == if on && x == src then 1 else 0
  }

  /** The invariant of one listener: its requests p, its reader r and the channel map. */
  ghost predicate Good(p: seq<Entry>, chan: seq<Sub>, r: Reader, l: Listener) {
    && Shape(p, r, l)
    && (Linked(p, r, l) ==> p == [])
    && ChanOf(chan, l, r.s, Linked(p, r, l))
  }

  ghost predicate InvFor(h: Http, r: Reader, l: Listener) { Good(Of(Pipe(h), l), h.chan, r, l) }

  ghost predicate Clean(h: Http) {
    && (forall i :: i in h.man.queue ==> i.l != NULL_LISTENER && !i.verb.SubscribeAlt?)
    && (forall e :: e in h.man.waiting ==> e.data.lis != NULL_LISTENER && !e.data.verb.SubscribeAlt?)
    && (forall t :: t in h.man.targets ==> h.man.targets[t].verb.Write?)
  }

  ghost predicate Inv(s: Sys) {
    Clean(s.http) && forall l: Listener :: InvFor(s.http, ReaderOf(s, l), l)
  }

  // ---- facts about the request sequence of one listener

  lemma {:induction false} OfAppend(a: seq<Entry>, b: seq<Entry>, l: Listener)
    ensures Of(a + b, l) == Of(a, l) + Of(b, l)
  {
    FilterAppend((e: Entry) => e.data.lis == l && (e.data.verb.Subscribe? || e.data.verb.Unsubscribe?), a, b);
  }

  lemma {:induction false} OfMembers(w: seq<Entry>, l: Listener)
    ensures forall k :: 0 <= k < |Of(w, l)| ==> Of(w, l)[k] in w && (IsSub(Of(w, l)[k], l) || IsUnsub(Of(w, l)[k], l))
    ensures forall e :: e in w && (IsSub(e, l) || IsUnsub(e, l)) ==> e in Of(w, l)
  {
    FilterMembers((e: Entry) => e.data.lis == l && (e.data.verb.Subscribe? || e.data.verb.Unsubscribe?), w);
  }

  lemma {:induction false} OfWithoutKey(w: seq<Entry>, src: string, l: Listener)
    ensures Of(WithoutKey(w, src), l) == WithoutKey(Of(w, l), src)
  {
    FilterCommute((e: Entry) => e.data.lis == l && (e.data.verb.Subscribe? || e.data.verb.Unsubscribe?),
                  (e: Entry) => e.key != src, w);
  }

  lemma {:induction false} OfWaitingWithout(w: seq<Entry>, src: string, verb: Verb, l': Listener, l: Listener)
    ensures Of(WaitingWithout(w, src, verb, l'), l) == WaitingWithout(Of(w, l), src, verb, l')
  {
    FilterCommute((e: Entry) => e.data.lis == l && (e.data.verb.Subscribe? || e.data.verb.Unsubscribe?),
                  (e: Entry) => !EntryHits(e, src, verb, l'), w);
  }

  lemma {:induction false} EntriesWithout(q: seq<SrcItem>, src: string, verb: Verb, l: Listener)
    ensures Entries(QueueWithout(q, src, verb, l)) == WaitingWithout(Entries(q), src, verb, l)
  {
    if q != [] {
      var front, x := q[..|q| - 1], q[|q| - 1];
      var e, kept := Entry(x.src, DataOf(x)), QueueWithout(front, src, verb, l);
      EntriesWithout(front, src, verb, l);
      if Hits(x, src, verb, l) {
        assert QueueWithout(q, src, verb, l) == kept;
      } else {
        assert QueueWithout(q, src, verb, l) == kept + [x];
        Snoc(map[], kept, x);
      }
      if x.verb.Write? {
        assert Entries(q) == Entries(front);
      } else {
        assert Entries(q) == Entries(front) + [e];
        FilterSnoc((e: Entry) => !EntryHits(e, src, verb, l), Entries(front), e);
      }
    }
  }

  lemma {:induction false} UnansweredIff(h: Http, r: Reader, l: Listener)
    requires InvFor(h, r, l)
    ensures Unanswered(h, l) <==> HasSub(Of(Pipe(h), l), l)
  {
    var p := Of(Pipe(h), l);
    OfMembers(Pipe(h), l);
    EntriesOf(h.man.queue);
    if exists i :: i in h.man.queue && i.l == l && i.verb.Subscribe? {
      var i :| i in h.man.queue && i.l == l && i.verb.Subscribe?;
      EntriesIn(h.man.queue, i);
      assert Entry(i.src, DataOf(i)) in Pipe(h);
      assert Entry(i.src, DataOf(i)) in p;
    }
    if exists e :: e in h.man.waiting && IsSub(e, l) {
      var e :| e in h.man.waiting && IsSub(e, l);
      assert e in Pipe(h) && e in p;
    }
    if HasSub(p, l) {
      assert p[|p| - 1] in Pipe(h);
    }
  }

  lemma {:induction false} InvAgrees(s: Sys)
    requires Inv(s)
    ensures Agree(s)
  {
    forall l: Listener, src: string ensures AgreeFor(s, l, src) {
      assert InvFor(s.http, ReaderOf(s, l), l);
      InvForAgrees(s, l);
    }
  }

  lemma {:induction false} InvForAgrees(s: Sys, l: Listener)
    requires InvFor(s.http, ReaderOf(s, l), l)
    ensures forall src: string :: AgreeFor(s, l, src)
  {
    UnansweredIff(s.http, ReaderOf(s, l), l);
  }

  // ---- enqueuing and the timer

  lemma {:induction false} PipeEnqueue(h: Http, i: SrcItem, l: Listener)
    ensures Of(Pipe(h.(man := Enqueue(h.man, i))), l) ==
            Of(Pipe(h), l)
            + if i.l == l && (i.verb.Subscribe? || i.verb.Unsubscribe?) then [Entry(i.src, DataOf(i))] else []
  {
    Snoc(map[], h.man.queue, i);
    var e := Entry(i.src, DataOf(i));
    if i.verb.Write? {
      assert Pipe(h.(man := Enqueue(h.man, i))) == Pipe(h);
    } else {
      assert Pipe(h.(man := Enqueue(h.man, i))) == Pipe(h) + [e];
      FilterSnoc((e: Entry) => e.data.lis == l && (e.data.verb.Subscribe? || e.data.verb.Unsubscribe?), Pipe(h), e);
    }
  }

  lemma {:induction false} TickKeepsEntries(m: Man, chunk: int)
    ensures Tick(m, chunk).waiting + Entries(Tick(m, chunk).queue) == m.waiting + Entries(m.queue)
  {
    var done := Chunk(m, chunk);
    assert m.queue == done + m.queue[|done|..];
    EntriesAppend(done, m.queue[|done|..]);
  }

  lemma {:induction false} TimerKeepsPipe(h: Http, chunk: int)
    ensures Pipe(Timeout(h, chunk)) == Pipe(h)
  {
    TickKeepsEntries(h.man, chunk);
  }

  lemma {:induction false} TimerKeepsClean(h: Http, chunk: int)
    requires Clean(h)
    ensures Clean(Timeout(h, chunk))
  {
    EntriesOf(Chunk(h.man, chunk));
    TargetsOf(h.man.targets, Chunk(h.man, chunk));
  }

  lemma {:induction false} TimerKeepsInv(s: Sys, chunk: int, chan: string)
    requires Inv(s)
    ensures Inv(Step(s, Timer, chunk, chan))
  {
    var s' := Step(s, Timer, chunk, chan);
    TimerKeepsPipe(s.http, chunk);
    TimerKeepsClean(s.http, chunk);
    forall l: Listener ensures InvFor(s'.http, ReaderOf(s', l), l) { assert InvFor(s.http, ReaderOf(s, l), l); }
  }

  // ---- unlinking

  lemma {:induction false} NothingHit(p: seq<Entry>, src: string, verb: Verb, l: Listener)
    requires forall k :: 0 <= k < |p| ==> !EntryHits(p[k], src, verb, l)
    ensures WaitingWithout(p, src, verb, l) == p
  {
    FilterSameLength((e: Entry) => !EntryHits(e, src, verb, l), p);
  }

  function Strip(p: seq<Entry>, l: Listener): seq<Entry> { if HasSub(p, l) then p[..|p| - 1] else p }

  lemma {:induction false} WithoutSub(p: seq<Entry>, r: Reader, l: Listener)
    requires l != NULL_LISTENER && Shape(p, r, l)
    ensures WaitingWithout(p, r.s, Subscribe, l) == Strip(p, l)
  {
    if HasSub(p, l) {
      var us, e := p[..|p| - 1], p[|p| - 1];
      assert p == us + [e];
      FilterSnoc((e: Entry) => !EntryHits(e, r.s, Subscribe, l), us, e);
      NothingHit(us, r.s, Subscribe, l);
    } else {
      NothingHit(p, r.s, Subscribe, l);
    }
  }

  /** A subscription at the end of the requests has only unsubscriptions before it. */
  lemma {:induction false} SubInTail(pw: seq<Entry>, pq: seq<Entry>, r: Reader, l: Listener, k: nat)
    requires Shape(pw + pq, r, l) && k < |pq| && IsSub(pq[k], l)
    ensures AllUnsubs(pw, l)
  {
    var p := pw + pq;
    assert p[|pw| + k] == pq[k];
    forall j | 0 <= j < |pw| ensures IsUnsub(pw[j], l) {
      assert p[j] == pw[j] && p[..|p| - 1][j] == p[j];
    }
  }

  lemma {:induction false} StripTail(pw: seq<Entry>, pq: seq<Entry>, r: Reader, l: Listener, k: nat)
    requires l != NULL_LISTENER && Shape(pw + pq, r, l) && k < |pq| && IsSub(pq[k], l)
    ensures pw + WaitingWithout(pq, r.s, Subscribe, l) == Strip(pw + pq, l)
  {
    SubInTail(pw, pq, r, l, k);
    WithoutSub(pw + pq, r, l);
    NothingHit(pw, r.s, Subscribe, l);
    FilterAppend((e: Entry) => !EntryHits(e, r.s, Subscribe, l), pw, pq);
  }

  lemma {:induction false} StripHead(pw: seq<Entry>, pq: seq<Entry>, r: Reader, l: Listener)
    requires l != NULL_LISTENER && Shape(pw + pq, r, l) && WaitingWithout(pq, r.s, Subscribe, l) == pq
    ensures WaitingWithout(pw, r.s, Subscribe, l) + pq == Strip(pw + pq, l)
  {
    WithoutSub(pw + pq, r, l);
    FilterAppend((e: Entry) => !EntryHits(e, r.s, Subscribe, l), pw, pq);
  }

  lemma {:induction false} PipeAfterCancel(h: Http, src: string, verb: Verb, l': Listener, l: Listener)
    ensures var p' := Of(Pipe(Unlink(h, src, verb, l')), l);
            var pw, pq := Of(h.man.waiting, l), Of(Entries(h.man.queue), l);
            if |QueueWithout(h.man.queue, src, verb, l')| != |h.man.queue|
            then p' == pw + WaitingWithout(pq, src, verb, l')
            else p' == WaitingWithout(pw, src, verb, l') + pq && WaitingWithout(pq, src, verb, l') == pq
  {
    var w, q := h.man.waiting, Entries(h.man.queue);
    QueueWithoutMembers(h.man.queue, src, verb, l');
    EntriesWithout(h.man.queue, src, verb, l');
    OfWaitingWithout(w, src, verb, l', l);
    OfWaitingWithout(q, src, verb, l', l);
    OfAppend(w, WaitingWithout(q, src, verb, l'), l);
    OfAppend(WaitingWithout(w, src, verb, l'), q, l);
  }

  /** An unlink by the reader removes its outstanding subscription, wherever it is, and nothing else of l. */
  lemma {:induction false} UnlinkStrips(h: Http, r: Reader, l: Listener)
    requires Clean(h) && l != NULL_LISTENER && Shape(Of(Pipe(h), l), r, l)
    ensures Of(Pipe(Unlink(h, r.s, Subscribe, l)), l) == Strip(Of(Pipe(h), l), l)
  {
    var w, q := h.man.waiting, Entries(h.man.queue);
    var pw, pq := Of(w, l), Of(q, l);
    OfAppend(w, q, l);
    PipeAfterCancel(h, r.s, Subscribe, l, l);
    QueueWithoutMembers(h.man.queue, r.s, Subscribe, l);
    if |QueueWithout(h.man.queue, r.s, Subscribe, l)| != |h.man.queue| {
      var i :| i in h.man.queue && Hits(i, r.s, Subscribe, l);
      EntriesIn(h.man.queue, i);
      OfMembers(q, l);
      var e := Entry(i.src, DataOf(i));
      assert e in pq && IsSub(e, l);
      var k :| 0 <= k < |pq| && pq[k] == e;
      StripTail(pw, pq, r, l, k);
    } else {
      StripHead(pw, pq, r, l);
    }
  }

  /** What an unlink leaves of the requests of another listener, or when no subscription is asked for: all of them. */
  lemma {:induction false} UnlinkKeepsPipe(h: Http, src: string, verb: Verb, l': Listener, l: Listener)
    requires Clean(h) && !verb.Unsubscribe? && (l != l' || !verb.Subscribe?)
    ensures Of(Pipe(Unlink(h, src, verb, l')), l) == Of(Pipe(h), l)
  {
    var w, q := h.man.waiting, Entries(h.man.queue);
    EntriesOf(h.man.queue);
    OfMembers(w, l);
    OfMembers(q, l);
    NothingHit(Of(w, l), src, verb, l');
    NothingHit(Of(q, l), src, verb, l');
    PipeAfterCancel(h, src, verb, l', l);
    OfAppend(w, q, l);
  }

  lemma {:induction false} UnlinkChan(chan: seq<Sub>, l': Listener, l: Listener, src: string, on: bool)
    requires ChanOf(chan, l, src, on)
    ensures ChanOf(WithoutListener(chan, l'), l, src, on && l != l')
  {
    forall x: string
      ensures multiset(WithoutListener(chan, l'))[Sub(x, l)] == if on && l != l' && x == src then 1 else 0
    {
      WithoutListenerCount(chan, l', Sub(x, l));
    }
  }

  lemma {:induction false} UnlinkClean(h: Http, src: string, verb: Verb, l: Listener)
    requires Clean(h)
    ensures Clean(Unlink(h, src, verb, l))
  {
    QueueWithoutMembers(h.man.queue, src, verb, l);
    FilterMembers((e: Entry) => !EntryHits(e, src, verb, l), h.man.waiting);
  }

  /** After the reader's own unlink nothing of it remains but unsubscriptions. */
  lemma {:induction false} UnlinkReader(h: Http, r: Reader, l': Listener, l: Listener, rl: Reader)
    requires Clean(h) && l' != NULL_LISTENER && !r.verb.Unsubscribe? && InvFor(h, rl, l) && (l == l' ==> rl == r)
    ensures var h' := Unlink(h, r.s, r.verb, l');
            && (l != l' ==> InvFor(h', rl, l))
            && (l == l' ==> AllUnsubs(Of(Pipe(h'), l), l) && ChanOf(h'.chan, l, "", false))
  {
    var p := Of(Pipe(h), l);
    UnlinkChan(h.chan, l', l, rl.s, Linked(p, rl, l));
    if l != l' || !r.verb.Subscribe? {
      UnlinkKeepsPipe(h, r.s, r.verb, l', l);
    } else {
      UnlinkStrips(h, r, l);
    }
  }

  // ---- replies

  /** How many of the answered requests subscribe l. */
  function Subs(ds: seq<SrcData>, l: Listener): nat {
    if ds == [] then 0
    else
      var d := ds[|ds| - 1];
      Subs(ds[..|ds| - 1], l) + if d.lis == l && (d.verb.Subscribe? || d.verb.SubscribeAlt?) then 1 else 0
  }

  /** Without an unsubscription of l the answered subscriptions are added to what was there. */
  lemma {:induction false} UpdateAdds(chan: seq<Sub>, ds: seq<SrcData>, src: string, l: Listener, x: string)
    requires forall d :: d in ds ==> !(d.lis == l && d.verb.Unsubscribe?)
    ensures multiset(UpdateChan(chan, ds, src))[Sub(x, l)]
            == multiset(chan)[Sub(x, l)] + if x == src then Subs(ds, l) else 0
  {
    if ds != [] {
      var front, d := ds[..|ds| - 1], ds[|ds| - 1];
      assert d in ds;
      UpdateAdds(chan, front, src, l, x);
      if d.verb.Unsubscribe? { WithoutListenerCount(UpdateChan(chan, front, src), d.lis, Sub(x, l)); }
    }
  }

  /** Without a subscription of l a listener that was not on the channel stays off it. */
  lemma {:induction false} UpdateStaysOff(chan: seq<Sub>, ds: seq<SrcData>, src: string, l: Listener, x: string)
    requires multiset(chan)[Sub(x, l)] == 0 && Subs(ds, l) == 0
    ensures multiset(UpdateChan(chan, ds, src))[Sub(x, l)] == 0
  {
    if ds != [] {
      var front, d := ds[..|ds| - 1], ds[|ds| - 1];
      UpdateStaysOff(chan, front, src, l, x);
      if d.verb.Unsubscribe? { WithoutListenerCount(UpdateChan(chan, front, src), d.lis, Sub(x, l)); }
    }
  }

  lemma {:induction false} SubsAppend(a: seq<SrcData>, b: seq<SrcData>, l: Listener)
    ensures Subs(a + b, l) == Subs(a, l) + Subs(b, l)
  {
    if b == [] {
      assert a + b == a;
    } else {
      assert (a + b)[..|a + b| - 1] == a + b[..|b| - 1];
      SubsAppend(a, b[..|b| - 1], l);
    }
  }

  /** The subscriptions to src among the entries. */
  function SubsTo(w: seq<Entry>, src: string, l: Listener): nat {
    if w == [] then 0 else SubsTo(w[..|w| - 1], src, l) + if w[|w| - 1].key == src && IsSub(w[|w| - 1], l) then 1 else 0
  }

  lemma {:induction false} SubsOfValues(w: seq<Entry>, src: string, l: Listener)
    requires forall e :: e in w ==> !e.data.verb.SubscribeAlt?
    ensures Subs(Values(w, src), l) == SubsTo(w, src, l)
  {
    if w != [] {
      var front, e := w[..|w| - 1], w[|w| - 1];
      assert e in w;
      SubsOfValues(front, src, l);
      if e.key == src {
        SubsAppend([e.data], Values(front, src), l);
        assert [e.data][..0] == [];
      } else {
        assert Values(w, src) == Values(front, src);
      }
    }
  }

  lemma {:induction false} SubsToOf(w: seq<Entry>, src: string, l: Listener)
    ensures SubsTo(w, src, l) == SubsTo(Of(w, l), src, l)
  {
    if w != [] {
      var front, e := w[..|w| - 1], w[|w| - 1];
      SubsToOf(front, src, l);
      if IsSub(e, l) || IsUnsub(e, l) {
        assert Of(w, l)[..|Of(front, l)|] == Of(front, l);
      } else {
        assert Of(w, l) == Of(front, l);
      }
    }
  }

  lemma {:induction false} NoSubsTo(p: seq<Entry>, src: string, l: Listener)
    requires forall k :: 0 <= k < |p| ==> !(p[k].key == src && IsSub(p[k], l))
    ensures SubsTo(p, src, l) == 0
  {
    if p != [] {
      NoSubsTo(p[..|p| - 1], src, l);
    }
  }

  lemma {:induction false} WritesAreNotSubs(t: map<string, SrcData>, ks: seq<string>, l: Listener)
    requires forall k :: k in ks ==> k in t && t[k].verb.Write?
    ensures Subs(DataAt(t, ks), l) == 0
    ensures forall d :: d in DataAt(t, ks) ==> d.verb.Write?
  {
    if ks != [] {
      assert ks[|ks| - 1] in ks;
      WritesAreNotSubs(t, ks[..|ks| - 1], l);
    }
  }

  lemma {:induction false} ValuesAreWaiting(w: seq<Entry>, src: string, d: SrcData)
    requires d in Values(w, src)
    ensures Entry(src, d) in w
  {
    ValuesOf(w, src);
    assert multiset(Values(w, src))[d] > 0;
  }

  lemma {:induction false} AnsweredSubs(h: Http, da: CuData, l: Listener)
    requires Clean(h)
    ensures Subs(Answered(h, da), l) == SubsTo(Of(h.man.waiting, l), SrcOf(da), l)
    ensures forall d ::
              d in Answered(h, da) && d.lis == l && d.verb.Unsubscribe? ==>
              Entry(SrcOf(da), d) in h.man.waiting
  {
    var src, w, t := SrcOf(da), h.man.waiting, h.man.targets;
    SortedKeysCover(t.Keys);
    WritesAreNotSubs(t, SortedKeys(t.Keys), l);
    SubsAppend(Values(w, src), AllTargets(t), l);
    SubsOfValues(w, src, l);
    SubsToOf(w, src, l);
    forall d | d in Answered(h, da) && d.lis == l && d.verb.Unsubscribe? ensures Entry(src, d) in w {
      if d in Values(w, src) { ValuesAreWaiting(w, src, d); }
    }
  }

  lemma {:induction false} WithoutKeyUnsubs(p: seq<Entry>, src: string, l: Listener)
    requires AllUnsubs(p, l)
    ensures AllUnsubs(WithoutKey(p, src), l)
  {
    FilterMembers((e: Entry) => e.key != src, p);
  }

  lemma {:induction false} WithoutKeySub(p: seq<Entry>, src: string, l: Listener)
    requires HasSub(p, l)
    ensures WithoutKey(p, src) == WithoutKey(p[..|p| - 1], src) + if p[|p| - 1].key != src then [p[|p| - 1]] else []
  {
    assert p == p[..|p| - 1] + [p[|p| - 1]];
    FilterSnoc((e: Entry) => e.key != src, p[..|p| - 1], p[|p| - 1]);
  }

  /** A reply that answers no subscription of l keeps the invariant of l. */
  lemma {:induction false} ReplyWithoutSub(h: Http, da: CuData, r: Reader, l: Listener)
    requires Clean(h) && InvFor(h, r, l)
    requires SubsTo(Of(h.man.waiting, l), SrcOf(da), l) == 0
    ensures InvFor(LisUpdate(h, da), r, l)
  {
    var src, w, q, h' := SrcOf(da), h.man.waiting, Entries(h.man.queue), LisUpdate(h, da);
    var pw, pq := Of(w, l), Of(q, l);
    OfAppend(w, q, l);
    OfAppend(WithoutKey(w, src), q, l);
    OfWithoutKey(w, src, l);
    AnsweredSubs(h, da, l);
    var p, p' := pw + pq, WithoutKey(pw, src) + pq;
    assert Of(Pipe(h), l) == p && Of(Pipe(h'), l) == p';
    if p == [] {
      OfMembers(w, l);
      forall x: string ensures multiset(h'.chan)[Sub(x, l)] == multiset(h.chan)[Sub(x, l)] {
        UpdateAdds(h.chan, Answered(h, da), src, l, x);
      }
    } else {
      forall x: string ensures multiset(h'.chan)[Sub(x, l)] == 0 {
        UpdateStaysOff(h.chan, Answered(h, da), src, l, x);
      }
      ShapeWithoutKey(pw, pq, src, r, l);
    }
  }

  lemma {:induction false} ShapeSplit(pw: seq<Entry>, pq: seq<Entry>, r: Reader, l: Listener)
    requires pq != []
    ensures Shape(pw + pq, r, l) <==> AllUnsubs(pw, l) && Shape(pq, r, l)
    ensures HasSub(pw + pq, l) <==> HasSub(pq, l)
  {
    var p := pw + pq;
    AllUnsubsAppend(pw, pq, l);
    AllUnsubsAppend(pw, pq[..|pq| - 1], l);
    assert p[..|p| - 1] == pw + pq[..|pq| - 1] && p[|p| - 1] == pq[|pq| - 1];
  }

  lemma {:induction false} AllUnsubsAppend(a: seq<Entry>, b: seq<Entry>, l: Listener)
    ensures AllUnsubs(a + b, l) <==> AllUnsubs(a, l) && AllUnsubs(b, l)
  {
    assert forall k :: 0 <= k < |a| ==> (a + b)[k] == a[k];
    assert forall k :: 0 <= k < |b| ==> (a + b)[|a| + k] == b[k];
  }

  lemma {:induction false} ShapeWithoutKey(pw: seq<Entry>, pq: seq<Entry>, src: string, r: Reader, l: Listener)
    requires Shape(pw + pq, r, l) && SubsTo(pw, src, l) == 0
    ensures Shape(WithoutKey(pw, src) + pq, r, l)
    ensures HasSub(WithoutKey(pw, src) + pq, l) <==> HasSub(pw + pq, l)
  {
    if pq != [] {
      ShapeSplit(pw, pq, r, l);
      ShapeSplit(WithoutKey(pw, src), pq, r, l);
      WithoutKeyUnsubs(pw, src, l);
    } else {
      assert pw + [] == pw && WithoutKey(pw, src) + [] == WithoutKey(pw, src);
      if AllUnsubs(pw, l) {
        WithoutKeyUnsubs(pw, src, l);
      } else {
        assert pw[|pw| - 1].key != src;
        WithoutKeySub(pw, src, l);
        WithoutKeyUnsubs(pw[..|pw| - 1], src, l);
      }
    }
  }

  lemma {:induction false} ShapeFront(p: seq<Entry>, r: Reader, l: Listener)
    requires Shape(p, r, l)
    ensures forall j :: 0 <= j < |p| - 1 ==> IsUnsub(p[j], l)
  {
    if !AllUnsubs(p, l) {
      forall j | 0 <= j < |p| - 1 ensures IsUnsub(p[j], l) { assert p[..|p| - 1][j] == p[j]; }
    }
  }

  /** Among requests without a waiting unsubscription, an answered subscription is the only one. */
  lemma {:induction false} OnlySub(pw: seq<Entry>, pq: seq<Entry>, src: string, r: Reader, l: Listener)
    requires Shape(pw + pq, r, l) && SubsTo(pw, src, l) > 0
    requires forall k :: 0 <= k < |pw| ==> !IsUnsub(pw[k], l)
    ensures pq == [] && |pw| == 1 && Current(pw[0], r, l) && src == r.s
    ensures SubsTo(pw, src, l) == 1 && WithoutKey(pw, src) == []
  {
    var p := pw + pq;
    var k := WhereSub(pw, src, l);
    assert p[k] == pw[k] && !AllUnsubs(p, l);
    ShapeFront(p, r, l);
    assert k == |p| - 1;
    assert pq == [] && p == pw;
    assert k == 0 && pw[..0] == [];
    WithoutKeySub(pw, src, l);
  }

  /** A reply that answers the subscription of l puts l on the channel, once. */
  lemma {:induction false} ReplyWithSub(h: Http, da: CuData, r: Reader, l: Listener)
    requires Clean(h) && InvFor(h, r, l) && InOrderFor(h, SrcOf(da), l)
    requires SubsTo(Of(h.man.waiting, l), SrcOf(da), l) > 0
    ensures InvFor(LisUpdate(h, da), r, l)
  {
    var src, w, q, h' := SrcOf(da), h.man.waiting, Entries(h.man.queue), LisUpdate(h, da);
    var pw, pq := Of(w, l), Of(q, l);
    OfAppend(w, q, l);
    OfAppend(WithoutKey(w, src), q, l);
    OfWithoutKey(w, src, l);
    NoUnsubWaiting(h, src, l);
    OnlySub(pw, pq, src, r, l);
    assert Of(Pipe(h'), l) == [] + [];
    AnsweredSubs(h, da, l);
    assert forall d :: d in Answered(h, da) ==> !(d.lis == l && d.verb.Unsubscribe?) by {
      forall d | d in Answered(h, da) && d.lis == l && d.verb.Unsubscribe? ensures false {
        InOfWaiting(w, Entry(src, d), l);
      }
    }
    forall x: string ensures multiset(h'.chan)[Sub(x, l)] == if x == r.s then 1 else 0 {
      UpdateAdds(h.chan, Answered(h, da), src, l, x);
    }
  }

  lemma {:induction false} InOfWaiting(w: seq<Entry>, e: Entry, l: Listener)
    requires e in w && IsUnsub(e, l)
    ensures exists k :: 0 <= k < |Of(w, l)| && IsUnsub(Of(w, l)[k], l)
  {
    OfMembers(w, l);
    assert e in Of(w, l);
  }

  lemma {:induction false} NoUnsubWaiting(h: Http, src: string, l: Listener)
    requires InOrderFor(h, src, l) && SubsTo(Of(h.man.waiting, l), src, l) > 0
    ensures forall k :: 0 <= k < |Of(h.man.waiting, l)| ==> !IsUnsub(Of(h.man.waiting, l)[k], l)
  {
    var pw := Of(h.man.waiting, l);
    OfMembers(h.man.waiting, l);
    var k := WhereSub(pw, src, l);
    assert pw[k] in h.man.waiting;
  }

  lemma {:induction false} WhereSub(p: seq<Entry>, src: string, l: Listener) returns (k: nat)
    requires SubsTo(p, src, l) > 0
    ensures k < |p| && p[k].key == src && IsSub(p[k], l)
  {
    if p[|p| - 1].key == src && IsSub(p[|p| - 1], l) {
      k := |p| - 1;
    } else {
      k := WhereSub(p[..|p| - 1], src, l);
    }
  }

  lemma {:induction false} ReplyKeepsInv(s: Sys, da: CuData, chunk: int, chan: string)
    requires Inv(s) && Allowed(s, Answer(da))
    ensures Inv(Step(s, Answer(da), chunk, chan))
  {
    if !IsAuthRequest(da) {
      var s' := Step(s, Answer(da), chunk, chan);
      ReplyClean(s.http, da);
      forall l: Listener ensures InvFor(s'.http, ReaderOf(s', l), l) {
        assert InvFor(s.http, ReaderOf(s, l), l);
        ReplyKeepsInvFor(s.http, da, ReaderOf(s, l), l);
      }
    }
  }

  lemma {:induction false} ReplyClean(h: Http, da: CuData)
    requires Clean(h)
    ensures Clean(LisUpdate(h, da))
  {
    FilterMembers((e: Entry) => e.key != SrcOf(da), h.man.waiting);
  }

  lemma {:induction false} ReplyKeepsInvFor(h: Http, da: CuData, r: Reader, l: Listener)
    requires Clean(h) && InvFor(h, r, l) && InOrderFor(h, SrcOf(da), l)
    ensures InvFor(LisUpdate(h, da), r, l)
  {
    if SubsTo(Of(h.man.waiting, l), SrcOf(da), l) == 0 {
      ReplyWithoutSub(h, da, r, l);
    } else {
      ReplyWithSub(h, da, r, l);
    }
  }

  // ---- every step keeps the invariant

  /** The reader's method is never an unsubscription. */
  ghost predicate ReadersOk(s: Sys) {
    forall l :: l in s.readers ==> !s.readers[l].verb.Unsubscribe?
  }

  lemma {:induction false} EnqueuePlain(h: Http, i: SrcItem, r: Reader, l: Listener)
    requires InvFor(h, r, l) && !i.verb.Subscribe? && !i.verb.Unsubscribe?
    ensures InvFor(h.(man := Enqueue(h.man, i)), r, l)
  {
    PipeEnqueue(h, i, l);
    assert Of(Pipe(h.(man := Enqueue(h.man, i))), l) == Of(Pipe(h), l);
  }

  lemma {:induction false} EnqueueKeepsInv(s: Sys, i: SrcItem, chunk: int, chan: string)
    requires Inv(s) && Allowed(s, Request(i))
    ensures Inv(Step(s, Request(i), chunk, chan))
  {
    var s' := Step(s, Request(i), chunk, chan);
    forall l: Listener ensures InvFor(s'.http, ReaderOf(s', l), l) {
      assert InvFor(s.http, ReaderOf(s, l), l);
      EnqueuePlain(s.http, i, ReaderOf(s, l), l);
    }
  }

  lemma {:induction false} NoSubGood(p: seq<Entry>, chan: seq<Sub>, r: Reader, l: Listener)
    requires AllUnsubs(p, l) && ChanOf(chan, l, "", false) && !(r.s != "" && r.verb.Subscribe?)
    ensures Good(p, chan, r, l)
  {
    assert ChanOf(chan, l, r.s, false);
  }

  lemma {:induction false} NewSubGood(p: seq<Entry>, chan: seq<Sub>, e: Entry, l: Listener)
    requires AllUnsubs(p, l) && ChanOf(chan, l, "", false) && IsSub(e, l) && e.key != ""
    ensures Good(p + [e], chan, Reader(e.key, Subscribe), l)
  {
    assert (p + [e])[..|p|] == p;
    assert ChanOf(chan, l, e.key, false);
  }

  /** A new subscription joins the requests behind the unsubscriptions that are left. */
  lemma {:induction false} SetFor(h: Http, r: Reader, l: Listener, src: string, single: bool, chan: string,
          options: CuData)
    requires InvFor(h, r, l) && !(r.s != "" && r.verb.Subscribe?)
    ensures var (h', r') := SetSource(h, r, src, l, single, chan, options); InvFor(h', r', l)
  {
    var p, i := Of(Pipe(h), l), SetItem(src, l, single, chan, options);
    assert AllUnsubs(p, l) && ChanOf(h.chan, l, "", false);
    if src != "" {
      PipeEnqueue(h, i, l);
      if single { NoSubGood(p, h.chan, Reader(src, Read), l); }
      else { NewSubGood(p, h.chan, Entry(i.src, DataOf(i)), l); }
    } else {
      NoSubGood(p, h.chan, r.(s := ""), l);
    }
  }

  /** A request of one listener changes nothing for another. */
  lemma {:induction false} EnqueueOther(h: Http, i: SrcItem, r: Reader, l: Listener)
    requires InvFor(h, r, l) && l != i.l
    ensures InvFor(h.(man := Enqueue(h.man, i)), r, l)
  {
    PipeEnqueue(h, i, l);
    assert Of(Pipe(h.(man := Enqueue(h.man, i))), l) == Of(Pipe(h), l);
  }

  lemma {:induction false} SetKeepsInv(s: Sys, e: Event, chunk: int, chan: string)
    requires Inv(s) && e.SetReader? && Allowed(s, e)
    ensures Inv(Step(s, e, chunk, chan))
  {
    var s', r := Step(s, e, chunk, chan), ReaderOf(s, e.l);
    forall l: Listener ensures InvFor(s'.http, ReaderOf(s', l), l) {
      assert InvFor(s.http, ReaderOf(s, l), l);
      if l == e.l {
        SetFor(s.http, r, l, e.src, e.single, chan, e.options);
      } else if e.src != "" {
        EnqueueOther(s.http, SetItem(e.src, e.l, e.single, chan, e.options), ReaderOf(s, l), l);
      }
    }
  }

  lemma {:induction false} UnsubJoins(p: seq<Entry>, e: Entry, r: Reader, l: Listener)
    requires AllUnsubs(p, l) && IsUnsub(e, l) && r.s == ""
    ensures Shape(p + [e], r, l) && !Linked(p + [e], r, l)
  {
  }

  /** After its unset the reader's listener has unsubscriptions outstanding and is on no channel. */
  lemma {:induction false} UnsetOwn(h: Http, r: Reader, l: Listener, chan: string)
    requires Clean(h) && l != NULL_LISTENER && !r.verb.Unsubscribe? && InvFor(h, r, l)
    ensures var (h', r') := UnsetSource(h, r, l, chan); InvFor(h', r', l)
  {
    var h1, i := Unlink(h, r.s, r.verb, l), MakeItem(r.s, l, Unsubscribe, chan, Invalid, map[]);
    UnlinkReader(h, r, l, l, r);
    if r.verb.Subscribe? {
      PipeEnqueue(h1, i, l);
      UnsubJoins(Of(Pipe(h1), l), Entry(i.src, DataOf(i)), r.(s := ""), l);
    }
  }

  lemma {:induction false} UnsetOther(h: Http, r: Reader, l': Listener, chan: string, rl: Reader, l: Listener)
    requires Clean(h) && l' != NULL_LISTENER && !r.verb.Unsubscribe? && InvFor(h, rl, l) && l != l'
    ensures InvFor(UnsetSource(h, r, l', chan).0, rl, l)
  {
    var h1 := Unlink(h, r.s, r.verb, l');
    UnlinkReader(h, r, l', l, rl);
    assert InvFor(h1, rl, l);
    if r.verb.Subscribe? {
      EnqueueOther(h1, MakeItem(r.s, l', Unsubscribe, chan, Invalid, map[]), rl, l);
    }
  }

  lemma {:induction false} UnsetKeepsInv(s: Sys, l': Listener, chunk: int, chan: string)
    requires Inv(s) && ReadersOk(s) && l' != NULL_LISTENER
    ensures Inv(Step(s, UnsetReader(l'), chunk, chan))
  {
    var s', r := Step(s, UnsetReader(l'), chunk, chan), ReaderOf(s, l');
    UnlinkClean(s.http, r.s, r.verb, l');
    forall l: Listener ensures InvFor(s'.http, ReaderOf(s', l), l) {
      assert InvFor(s.http, ReaderOf(s, l), l);
      if l == l' { UnsetOwn(s.http, r, l, chan); } else { UnsetOther(s.http, r, l', chan, ReaderOf(s, l), l); }
    }
  }

  lemma {:induction false} DestroyKeepsInv(s: Sys, l': Listener, chunk: int, chan: string)
    requires Inv(s) && ReadersOk(s) && l' != NULL_LISTENER
    ensures Inv(Step(s, DestroyReader(l'), chunk, chan))
  {
    var s', r := Step(s, DestroyReader(l'), chunk, chan), ReaderOf(s, l');
    UnlinkClean(s.http, r.s, r.verb, l');
    forall l: Listener ensures InvFor(s'.http, ReaderOf(s', l), l) {
      assert InvFor(s.http, ReaderOf(s, l), l);
      UnlinkReader(s.http, r, l', l, ReaderOf(s, l));
    }
  }

  lemma {:induction false} ClearKeepsInv(s: Sys, e: Event, chunk: int, chan: string)
    requires Inv(s) && e.ClearTarget? && Allowed(s, e)
    ensures Inv(Step(s, e, chunk, chan))
  {
    var s' := Step(s, e, chunk, chan);
    UnlinkClean(s.http, e.src, e.verb, e.l);
    forall l: Listener ensures InvFor(s'.http, ReaderOf(s', l), l) {
      assert InvFor(s.http, ReaderOf(s, l), l);
      UnlinkKeepsPipe(s.http, e.src, e.verb, e.l, l);
      UnlinkChan(s.http.chan, e.l, l, ReaderOf(s, l).s, Linked(Of(Pipe(s.http), l), ReaderOf(s, l), l));
    }
  }

  lemma {:induction false} StepKeepsInv(s: Sys, e: Event, chunk: int, chan: string)
    requires Inv(s) && ReadersOk(s) && Allowed(s, e)
    ensures Inv(Step(s, e, chunk, chan)) && ReadersOk(Step(s, e, chunk, chan))
  {
    match e
    case SetReader(_, _, _, _) => SetKeepsInv(s, e, chunk, chan);
    case UnsetReader(l) => UnsetKeepsInv(s, l, chunk, chan);
    case DestroyReader(l) => DestroyKeepsInv(s, l, chunk, chan);
    case Request(i) => EnqueueKeepsInv(s, i, chunk, chan);
    case ClearTarget(_, _, _) => ClearKeepsInv(s, e, chunk, chan);
    case Timer => TimerKeepsInv(s, chunk, chan);
    case Answer(da) => ReplyKeepsInv(s, da, chunk, chan);
    case _ =>
      var s' := Step(s, e, chunk, chan);
      forall l: Listener ensures InvFor(s'.http, ReaderOf(s', l), l) { assert InvFor(s.http, ReaderOf(s, l), l); }
  }

  lemma {:induction false} RunKeepsInv(es: seq<Event>, chunk: int, chan: string)
    requires Admissible(es, chunk, chan)
    ensures Inv(Run(es, chunk, chan)) && ReadersOk(Run(es, chunk, chan))
  {
    if es != [] {
      RunKeepsInv(es[..|es| - 1], chunk, chan);
      StepKeepsInv(Run(es[..|es| - 1], chunk, chan), es[|es| - 1], chunk, chan);
    }
  }

  /** Channel agreement: at every step of every admissible run the channel map agrees with the readers. */
  lemma {:induction false} ChannelAgreement(es: seq<Event>, chunk: int, chan: string)
    requires Admissible(es, chunk, chan)
    ensures Agree(Run(es, chunk, chan))
  {
    RunKeepsInv(es, chunk, chan);
    InvAgrees(Run(es, chunk, chan));
  }

  // ---- the order of the replies

  /** Replies in dispatch order, with no name dispatched again while unanswered, are in order. */
  lemma {:induction false} DispatchOrderSuffices(s: Sys, src: string)
    requires Inv(s)
    requires forall i, j :: 0 <= i < j < |s.http.man.waiting| ==> s.http.man.waiting[i].key != s.http.man.waiting[j].key
    requires s.http.man.waiting != [] ==> s.http.man.waiting[0].key == src
    ensures InOrder(s.http, src)
  {
    var h, w := s.http, s.http.man.waiting;
    forall l: Listener, e, u | e in w && u in w && e.key == src && IsSub(e, l) && IsUnsub(u, l) ensures false {
      assert InvFor(h, ReaderOf(s, l), l);
      var i :| 0 <= i < |w| && w[i] == e;
      var j :| 0 <= j < |w| && w[j] == u;
      assert i == 0 && j > 0;
      SubBeforeUnsub(w, Entries(h.man.queue), j, ReaderOf(s, l), l);
    }
  }

  lemma {:induction false} SubBeforeUnsub(w: seq<Entry>, q: seq<Entry>, j: nat, r: Reader, l: Listener)
    requires 0 < j < |w| && IsSub(w[0], l) && IsUnsub(w[j], l)
    ensures !Shape(Of(w + q, l), r, l)
  {
    assert w + q == [w[0]] + (w[1..] + q) && w[1..][j - 1] == w[j];
    OfAppend([w[0]], w[1..] + q, l);
    assert [w[0]][..0] == [] && Of([w[0]], l) == [w[0]];
    OfMembers(w[1..] + q, l);
    var p := Of(w + q, l);
    assert w[j] in w[1..] + q && w[j] in Of(w[1..] + q, l);
    assert p[0] == w[0] && |p| >= 2;
    if Shape(p, r, l) { ShapeFront(p, r, l); }
  }

  lemma {:induction false} UpdateChanAppend(chan: seq<Sub>, a: seq<SrcData>, b: seq<SrcData>, src: string)
    ensures UpdateChan(chan, a + b, src) == UpdateChan(UpdateChan(chan, a, src), b, src)
  {
    if b == [] {
      assert a + b == a;
    } else {
      assert (a + b)[..|a + b| - 1] == a + b[..|b| - 1];
      UpdateChanAppend(chan, a, b[..|b| - 1], src);
    }
  }

  /** An answered unsubscription of l, with no subscription of l among the answers, takes l off the channel. */
  lemma {:induction false} UnsubEvicts(chan: seq<Sub>, ds: seq<SrcData>, src: string, l: Listener, x: string)
    requires Subs(ds, l) == 0 && exists d :: d in ds && d.lis == l && d.verb.Unsubscribe?
    ensures multiset(UpdateChan(chan, ds, src))[Sub(x, l)] == 0
  {
    var front, d := ds[..|ds| - 1], ds[|ds| - 1];
    if d.lis == l && d.verb.Unsubscribe? {
      WithoutListenerCount(UpdateChan(chan, front, src), l, Sub(x, l));
    } else {
      assert exists d' :: d' in front && d'.lis == l && d'.verb.Unsubscribe?;
      UnsubEvicts(chan, front, src, l, x);
      if d.verb.Unsubscribe? { WithoutListenerCount(UpdateChan(chan, front, src), d.lis, Sub(x, l)); }
    }
  }

  lemma {:induction false} ValuesSnoc(w: seq<Entry>, e: Entry, src: string)
    ensures Values(w + [e], src) == (if e.key == src then [e.data] else []) + Values(w, src)
  {
    assert (w + [e])[..|w|] == w;
  }

  lemma {:induction false} ValuesAppend(a: seq<Entry>, b: seq<Entry>, src: string)
    ensures Values(a + b, src) == Values(b, src) + Values(a, src)
  {
    if b == [] {
      assert a + b == a;
    } else {
      var front, e := b[..|b| - 1], b[|b| - 1];
      assert b == front + [e] && a + b == (a + front) + [e];
      ValuesAppend(a, front, src);
      ValuesSnoc(front, e, src);
      ValuesSnoc(a + front, e, src);
    }
  }

  lemma {:induction false} AnsweredSplit(h: Http, da: CuData, a: seq<Entry>, b: seq<Entry>)
    requires h.man.waiting == a + b
    ensures LisUpdate(h, da).chan
            == UpdateChan(UpdateChan(h.chan, Values(b, SrcOf(da)), SrcOf(da)),
                          Values(a, SrcOf(da)) + AllTargets(h.man.targets), SrcOf(da))
  {
    var src, t := SrcOf(da), AllTargets(h.man.targets);
    ValuesAppend(a, b, src);
    AnsweredIs(h, da);
    Associate(Values(b, src), Values(a, src), t);
    UpdateChanAppend(h.chan, Values(b, src), Values(a, src) + t, src);
  }

  lemma {:induction false} AnsweredIs(h: Http, da: CuData)
    ensures LisUpdate(h, da).chan
            == UpdateChan(h.chan, Values(h.man.waiting, SrcOf(da)) + AllTargets(h.man.targets), SrcOf(da))
  {
  }

  lemma {:induction false} OlderAnswers(h: Http, a: seq<Entry>, src: string, l: Listener, d: SrcData)
    requires Clean(h) && a <= h.man.waiting && SubsTo(a, src, l) == 0 && Entry(src, d) in a
    ensures Subs(Values(a, src) + AllTargets(h.man.targets), l) == 0
    ensures d in Values(a, src) + AllTargets(h.man.targets)
  {
    var t := h.man.targets;
    SortedKeysCover(t.Keys);
    WritesAreNotSubs(t, SortedKeys(t.Keys), l);
    forall e | e in a ensures !e.data.verb.SubscribeAlt? { assert e in h.man.waiting; }
    SubsOfValues(a, src, l);
    SubsAppend(Values(a, src), AllTargets(t), l);
    ValuesOf(a, src);
    assert multiset(a)[Entry(src, d)] > 0;
    assert d in Values(a, src);
  }

  /**
   * One reply that answers an unsubscription of l and no earlier subscription takes l off the channel, even
   * when it also answers a later subscription: the newest request is handled first.
   */
  lemma {:induction false} ReplyEvicts(h: Http, da: CuData, l: Listener, k: nat, x: string)
    requires Clean(h) && k < |h.man.waiting| && h.man.waiting[k].key == SrcOf(da) && IsUnsub(h.man.waiting[k], l)
    requires SubsTo(h.man.waiting[..k + 1], SrcOf(da), l) == 0
    ensures multiset(LisUpdate(h, da).chan)[Sub(x, l)] == 0
  {
    var src, w := SrcOf(da), h.man.waiting;
    var a, b, d := w[..k + 1], w[k + 1..], w[k].data;
    assert w == a + b && a[k] == w[k] == Entry(src, d);
    AnsweredSplit(h, da, a, b);
    OlderAnswers(h, a, src, l, d);
    UnsubEvicts(UpdateChan(h.chan, Values(b, src), src), Values(a, src) + AllTargets(h.man.targets), src, l, x);
  }

  /** In the invariant an unsubscription that waits with a subscription of the same listener is the older one. */
  lemma {:induction false} UnsubIsOlder(h: Http, r: Reader, l: Listener, j: nat, k: nat)
    requires InvFor(h, r, l)
    requires j < |h.man.waiting| && k < |h.man.waiting|
    requires IsUnsub(h.man.waiting[j], l) && IsSub(h.man.waiting[k], l)
    ensures j < k && h.man.waiting[k].key == r.s && r.verb.Subscribe? && r.s != ""
    ensures forall i :: 0 <= i < |h.man.waiting| && IsSub(h.man.waiting[i], l) ==> i == k
  {
    var w, q := h.man.waiting, Entries(h.man.queue);
    forall i | 0 <= i < |w| && IsSub(w[i], l)
      ensures w[i].key == r.s && r.verb.Subscribe? && r.s != ""
      ensures forall m :: i < m < |w| ==> !IsSub(w[m], l) && !IsUnsub(w[m], l)
    {
      NothingAfterSub(w, q, i, r, l);
    }
  }

  /** Nothing of l follows its subscription. */
  lemma {:induction false} NothingAfterSub(w: seq<Entry>, q: seq<Entry>, i: nat, r: Reader, l: Listener)
    requires i < |w| && IsSub(w[i], l) && Shape(Of(w + q, l), r, l)
    ensures Current(w[i], r, l)
    ensures forall m :: i < m < |w| ==> !IsSub(w[m], l) && !IsUnsub(w[m], l)
  {
    var a, e, b := w[..i], w[i], w[i + 1..] + q;
    assert w + q == a + ([e] + b);
    OfAppend(a, [e] + b, l);
    OfAppend([e], b, l);
    assert [e][..0] == [] && Of([e], l) == [e];
    var p := Of(w + q, l);
    assert p[|Of(a, l)|] == e;
    ShapeFront(p, r, l);
    assert Of(b, l) == [];
    OfMembers(b, l);
    forall m | i < m < |w| ensures !IsSub(w[m], l) && !IsUnsub(w[m], l) {
      assert w[m] == b[m - i - 1];
    }
  }

  lemma {:induction false} LateEviction(s: Sys, l: Listener, u: Entry, src: string, stale: CuData, chunk: int,
          chan: string)
    requires Clean(s.http) && !Unanswered(s.http, l) && u in s.http.man.waiting && IsUnsub(u, l)
    requires u.key == SrcOf(stale) && !IsAuthRequest(stale)
    requires ReaderOf(s, l) == Reader(src, Subscribe) && src != ""
    ensures !AgreeFor(Step(s, Answer(stale), chunk, chan), l, src)
  {
    var s', h' := Step(s, Answer(stale), chunk, chan), LisUpdate(s.http, stale);
    StaleEvicts(s.http, stale, l, u, src);
    assert s'.readers == s.readers && s'.http.chan == h'.chan && s'.http.man == h'.man;
    Lost(s', l, src);
  }

  /**
   * The order of the replies is needed. Whenever a subscription of l is answered while an unsubscription of
   * l still waits, l is lost: at once when both are for one source, else when the other reply arrives. Its
   * reader stays subscribed and answered, and is on no channel.
   */
  lemma {:induction false} OutOfOrderLoses(s: Sys, l: Listener, j: nat, k: nat, answer: CuData, stale: CuData,
          chunk: int, chan: string)
    requires Inv(s)
    requires j < |s.http.man.waiting| && k < |s.http.man.waiting|
    requires IsUnsub(s.http.man.waiting[j], l) && IsSub(s.http.man.waiting[k], l)
    requires !IsAuthRequest(answer) && SrcOf(answer) == s.http.man.waiting[k].key
    requires !IsAuthRequest(stale) && SrcOf(stale) == s.http.man.waiting[j].key
    ensures SrcOf(answer) == SrcOf(stale) ==> !AgreeFor(Step(s, Answer(answer), chunk, chan), l, SrcOf(answer))
    ensures SrcOf(answer) != SrcOf(stale) ==>
              !AgreeFor(Step(Step(s, Answer(answer), chunk, chan), Answer(stale), chunk, chan), l, SrcOf(answer))
  {
    var s1 := Step(s, Answer(answer), chunk, chan);
    AnsweredEarly(s, l, j, k, answer, chunk, chan);
    if SrcOf(answer) == SrcOf(stale) {
      EvictedAtOnce(s, l, j, answer, chunk, chan);
    } else {
      LateEviction(s1, l, s.http.man.waiting[j], SrcOf(answer), stale, chunk, chan);
    }
  }

  /** The subscription is answered, its reader set to the source; an unsubscription for another source waits on. */
  lemma {:induction false} AnsweredEarly(s: Sys, l: Listener, j: nat, k: nat, answer: CuData, chunk: int, chan: string)
    requires Inv(s) && j < |s.http.man.waiting| && k < |s.http.man.waiting|
    requires IsUnsub(s.http.man.waiting[j], l) && IsSub(s.http.man.waiting[k], l)
    requires !IsAuthRequest(answer) && SrcOf(answer) == s.http.man.waiting[k].key
    ensures var s1 := Step(s, Answer(answer), chunk, chan);
            && Clean(s1.http) && !Unanswered(s1.http, l)
            && ReaderOf(s1, l) == Reader(SrcOf(answer), Subscribe) && SrcOf(answer) != ""
            && (s.http.man.waiting[j].key != SrcOf(answer) ==> s.http.man.waiting[j] in s1.http.man.waiting)
    ensures forall i :: 0 <= i <= j ==> !IsSub(s.http.man.waiting[i], l)
  {
    var h, r := s.http, ReaderOf(s, l);
    assert InvFor(h, r, l);
    UnsubIsOlder(h, r, l, j, k);
    AnswerTakesSub(h, r, l, k, answer);
    var s1 := Step(s, Answer(answer), chunk, chan);
    assert s1.http == LisUpdate(h, answer) && s1.readers == s.readers;
    assert h.man.waiting[j] in h.man.waiting;
  }

  /** The state after further replies. */
  ghost function AfterReplies(s: Sys, das: seq<CuData>, chunk: int, chan: string): Sys {
    if das == [] then s else Step(AfterReplies(s, das[..|das| - 1], chunk, chan), Answer(das[|das| - 1]), chunk, chan)
  }

  /** Each of them comes in order for l. */
  ghost predicate RepliesInOrder(s: Sys, das: seq<CuData>, l: Listener, chunk: int, chan: string) {
    das == [] ||
    var front, da := das[..|das| - 1], das[|das| - 1];
    && RepliesInOrder(s, front, l, chunk, chan)
    && (IsAuthRequest(da) || InOrderFor(AfterReplies(s, front, chunk, chan).http, SrcOf(da), l))
  }

  /** l agrees with the channel now and after every further reply that comes in order for it. */
  ghost predicate StaysAgreed(s: Sys, l: Listener, chunk: int, chan: string) {
    forall das :: RepliesInOrder(s, das, l, chunk, chan) ==> AgreesIn(AfterReplies(s, das, chunk, chan), l)
  }

  ghost predicate AgreesIn(s: Sys, l: Listener) { forall src: string :: AgreeFor(s, l, src) }

  lemma {:induction false} RepliesKeepInvFor(s: Sys, das: seq<CuData>, l: Listener, chunk: int, chan: string)
    requires Clean(s.http) && InvFor(s.http, ReaderOf(s, l), l) && RepliesInOrder(s, das, l, chunk, chan)
    ensures var s' := AfterReplies(s, das, chunk, chan);
            Clean(s'.http) && s'.readers == s.readers && InvFor(s'.http, ReaderOf(s', l), l)
  {
    if das != [] {
      var front, da := das[..|das| - 1], das[|das| - 1];
      RepliesKeepInvFor(s, front, l, chunk, chan);
      if !IsAuthRequest(da) {
        var m := AfterReplies(s, front, chunk, chan);
        ReplyClean(m.http, da);
        ReplyKeepsInvFor(m.http, da, ReaderOf(s, l), l);
      }
    }
  }

  lemma {:induction false} InvForStays(s: Sys, l: Listener, chunk: int, chan: string)
    requires Clean(s.http) && InvFor(s.http, ReaderOf(s, l), l)
    ensures StaysAgreed(s, l, chunk, chan)
  {
    forall das | RepliesInOrder(s, das, l, chunk, chan) ensures AgreesIn(AfterReplies(s, das, chunk, chan), l) {
      RepliesKeepInvFor(s, das, l, chunk, chan);
      InvForAgrees(AfterReplies(s, das, chunk, chan), l);
    }
  }

  /** A subscription answered early is lost at once, or by a reply that comes in order: that of the unsubscription. */
  lemma {:induction false} EarlyIsLost(s: Sys, e: Entry, u: Entry, da: CuData, l: Listener, chunk: int, chan: string)
    requires Inv(s) && !IsAuthRequest(da) && e in s.http.man.waiting && u in s.http.man.waiting
    requires e.key == SrcOf(da) && IsSub(e, l) && IsUnsub(u, l)
    ensures !StaysAgreed(Step(s, Answer(da), chunk, chan), l, chunk, chan)
  {
    var w, s1 := s.http.man.waiting, Step(s, Answer(da), chunk, chan);
    var k :| 0 <= k < |w| && w[k] == e;
    var j :| 0 <= j < |w| && w[j] == u;
    AnsweredEarly(s, l, j, k, da, chunk, chan);
    if u.key == SrcOf(da) {
      EvictedAtOnce(s, l, j, da, chunk, chan);
      assert AfterReplies(s1, [], chunk, chan) == s1 && RepliesInOrder(s1, [], l, chunk, chan);
    } else {
      var stale: CuData := map["src" := Scalar(u.key)];
      LateEviction(s1, l, u, SrcOf(da), stale, chunk, chan);
      LastReply(s1, stale, l, chunk, chan);
    }
  }

  lemma {:induction false} LastReply(s: Sys, da: CuData, l: Listener, chunk: int, chan: string)
    requires !Unanswered(s.http, l)
    ensures RepliesInOrder(s, [da], l, chunk, chan)
    ensures AfterReplies(s, [da], chunk, chan) == Step(s, Answer(da), chunk, chan)
  {
    assert [da][..0] == [];
    assert RepliesInOrder(s, [], l, chunk, chan) && InOrderFor(s.http, SrcOf(da), l);
  }

  /**
   * A listener agrees with the channel after a reply, and after every further reply that comes in order for it,
   * if and only if the reply itself comes in order for it.
   */
  lemma {:induction false} InOrderIff(s: Sys, da: CuData, l: Listener, chunk: int, chan: string)
    requires Inv(s) && !IsAuthRequest(da)
    ensures StaysAgreed(Step(s, Answer(da), chunk, chan), l, chunk, chan) <==> InOrderFor(s.http, SrcOf(da), l)
  {
    var w := s.http.man.waiting;
    if InOrderFor(s.http, SrcOf(da), l) {
      assert InvFor(s.http, ReaderOf(s, l), l);
      ReplyClean(s.http, da);
      ReplyKeepsInvFor(s.http, da, ReaderOf(s, l), l);
      InvForStays(Step(s, Answer(da), chunk, chan), l, chunk, chan);
    } else {
      var e, u :| e in w && u in w && e.key == SrcOf(da) && IsSub(e, l) && IsUnsub(u, l);
      EarlyIsLost(s, e, u, da, l, chunk, chan);
    }
  }

  /** The order of the replies is also just what keeps the invariant behind the agreement. */
  lemma {:induction false} InOrderKeepsIff(s: Sys, da: CuData, chunk: int, chan: string)
    requires Inv(s) && !IsAuthRequest(da)
    ensures Inv(Step(s, Answer(da), chunk, chan)) <==> InOrder(s.http, SrcOf(da))
  {
    if InOrder(s.http, SrcOf(da)) {
      ReplyKeepsInv(s, da, chunk, chan);
    } else {
      var w, s1 := s.http.man.waiting, Step(s, Answer(da), chunk, chan);
      var l: Listener, e, u :| e in w && u in w && e.key == SrcOf(da) && IsSub(e, l) && IsUnsub(u, l);
      EarlyIsLost(s, e, u, da, l, chunk, chan);
      if Inv(s1) {
        assert InvFor(s1.http, ReaderOf(s1, l), l);
        InvForStays(s1, l, chunk, chan);
      }
    }
  }

  lemma {:induction false} EvictedAtOnce(s: Sys, l: Listener, j: nat, answer: CuData, chunk: int, chan: string)
    requires Clean(s.http) && j < |s.http.man.waiting| && IsUnsub(s.http.man.waiting[j], l)
    requires !IsAuthRequest(answer) && SrcOf(answer) == s.http.man.waiting[j].key && SrcOf(answer) != ""
    requires forall i :: 0 <= i <= j ==> !IsSub(s.http.man.waiting[i], l)
    requires var s1 := Step(s, Answer(answer), chunk, chan);
             !Unanswered(s1.http, l) && ReaderOf(s1, l) == Reader(SrcOf(answer), Subscribe)
    ensures !AgreeFor(Step(s, Answer(answer), chunk, chan), l, SrcOf(answer))
  {
    var w, src := s.http.man.waiting, SrcOf(answer);
    assert forall i :: 0 <= i <= j ==> w[..j + 1][i] == w[i];
    NoSubsTo(w[..j + 1], src, l);
    ReplyEvicts(s.http, answer, l, j, src);
    Lost(Step(s, Answer(answer), chunk, chan), l, src);
  }

  lemma {:induction false} Lost(s: Sys, l: Listener, src: string)
    requires ReaderOf(s, l) == Reader(src, Subscribe) && src != "" && !Unanswered(s.http, l)
    requires multiset(s.http.chan)[Sub(src, l)] == 0
    ensures !AgreeFor(s, l, src)
  {
  }

  /** The answer to the subscription leaves none of l queued or waiting. */
  lemma {:induction false} AnswerTakesSub(h: Http, r: Reader, l: Listener, k: nat, answer: CuData)
    requires InvFor(h, r, l) && Clean(h) && k < |h.man.waiting| && IsSub(h.man.waiting[k], l)
    requires SrcOf(answer) == h.man.waiting[k].key
    requires forall i :: 0 <= i < |h.man.waiting| && IsSub(h.man.waiting[i], l) ==> i == k
    ensures !Unanswered(LisUpdate(h, answer), l) && Clean(LisUpdate(h, answer))
    ensures forall e :: e in h.man.waiting && e.key != SrcOf(answer) ==> e in LisUpdate(h, answer).man.waiting
  {
    SubQueuedTwice(h, r, l, k);
    FilterMembers((e: Entry) => e.key != SrcOf(answer), h.man.waiting);
  }

  lemma {:induction false} StaleEvicts(h: Http, stale: CuData, l: Listener, u: Entry, x: string)
    requires Clean(h) && !Unanswered(h, l) && u in h.man.waiting && IsUnsub(u, l) && u.key == SrcOf(stale)
    ensures multiset(LisUpdate(h, stale).chan)[Sub(x, l)] == 0 && !Unanswered(LisUpdate(h, stale), l)
  {
    var m :| 0 <= m < |h.man.waiting| && h.man.waiting[m] == u;
    NoSubsTo(h.man.waiting[..m + 1], SrcOf(stale), l);
    ReplyEvicts(h, stale, l, m, x);
    FilterMembers((e: Entry) => e.key != SrcOf(stale), h.man.waiting);
  }

  /** A listener whose subscription waits has none in the queue. */
  lemma {:induction false} SubQueuedTwice(h: Http, r: Reader, l: Listener, k: nat)
    requires InvFor(h, r, l) && k < |h.man.waiting| && IsSub(h.man.waiting[k], l)
    ensures forall i :: i in h.man.queue ==> !(i.l == l && i.verb.Subscribe?)
  {
    var w, q := h.man.waiting, Entries(h.man.queue);
    forall i | i in h.man.queue && i.l == l && i.verb.Subscribe? ensures false {
      EntriesIn(h.man.queue, i);
      var e := Entry(i.src, DataOf(i));
      var n :| 0 <= n < |q| && q[n] == e;
      assert (w + q) + [] == w + q && (w + q)[|w| + n] == e && (w + q)[k] == w[k];
      NothingAfterSub(w + q, [], k, r, l);
    }
  }

  /**
   * Such a state is one quick reset away: a reader that is unset and set again to the same source before the
   * next timeout has both requests dispatched together.
   */
  lemma {:induction false} QuickResetRaces(s: Sys, l: Listener, src: string, options: CuData, chunk: int, chan: string)
    requires s.http.man.queue == [] && ReaderOf(s, l) == Reader(src, Subscribe) && src != "" && chunk >= 2
    ensures var s' := Step(Step(Step(s, UnsetReader(l), chunk, chan), SetReader(l, src, false, options), chunk, chan),
            Timer, chunk, chan);
            Racing(s', l, src)
  {
    var u, n := MakeItem(src, l, Unsubscribe, chan, Invalid, map[]), SetItem(src, l, false, chan, options);
    var s1 := Step(s, UnsetReader(l), chunk, chan);
    QuickUnset(s, l, src, chunk, chan);
    var s2 := Step(s1, SetReader(l, src, false, options), chunk, chan);
    assert s2.http.man.queue == [u, n];
    PairDispatched(s2.http, u, n, chunk);
  }

  lemma {:induction false} RunSnoc(es: seq<Event>, e: Event, chunk: int, chan: string)
    ensures Run(es + [e], chunk, chan) == Step(Run(es, chunk, chan), e, chunk, chan)
    ensures Admissible(es, chunk, chan) && Allowed(Run(es, chunk, chan), e) ==> Admissible(es + [e], chunk, chan)
  {
    assert (es + [e])[..|es|] == es;
  }

  /** A reader set to a source, its subscription dispatched and answered. */
  function Subscribing(l: Listener, src: string, answer: CuData): seq<Event> {
    [SetReader(l, src, false, map[])] + [Timer] + [Answer(answer)]
  }

  /** The reader unset and set again before the next timeout. */
  function Resetting(l: Listener, src: string): seq<Event> {
    [UnsetReader(l)] + [SetReader(l, src, false, map[])] + [Timer]
  }

  /** The reader is subscribed to the source, with no request left queued or waiting. */
  ghost predicate Settled(s: Sys, l: Listener, src: string) {
    s.http.man.queue == [] && s.http.man.waiting == [] && ReaderOf(s, l) == Reader(src, Subscribe)
  }

  lemma {:induction false} OneDispatched(h: Http, n: SrcItem, chunk: int)
    requires h.man.queue == [n] && !n.verb.Write? && chunk > 0
    ensures Timeout(h, chunk).man.queue == []
    ensures Timeout(h, chunk).man.waiting == h.man.waiting + [Entry(n.src, DataOf(n))]
  {
    assert Chunk(h.man, chunk) == [n] && [] + [n] == [n];
    Snoc(map[], [], n);
  }

  lemma {:induction false} FirstSet(l: Listener, src: string, chunk: int, chan: string)
    requires l != NULL_LISTENER && src != "" && chunk > 0
    ensures var es := [SetReader(l, src, false, map[])] + [Timer];
            var s := Run(es, chunk, chan);
            && Admissible(es, chunk, chan) && s.http.man.queue == [] && ReaderOf(s, l) == Reader(src, Subscribe)
            && s.http.man.waiting == [Entry(src, DataOf(SetItem(src, l, false, chan, map[])))]
  {
    var e, n := SetReader(l, src, false, map[]), SetItem(src, l, false, chan, map[]);
    RunSnoc([], e, chunk, chan);
    assert [] + [e] == [e];
    RunSnoc([e], Timer, chunk, chan);
    var s1 := Run([e], chunk, chan);
    assert s1.http.man.queue == [n] && s1.http.man.waiting == [];
    OneDispatched(s1.http, n, chunk);
  }

  lemma {:induction false} Settling(s: Sys, l: Listener, src: string, d: SrcData, answer: CuData, chunk: int,
          chan: string)
    requires s.http.man.queue == [] && s.http.man.waiting == [Entry(src, d)] && ReaderOf(s, l) == Reader(src, Subscribe)
    requires d.verb.Subscribe? && SrcOf(answer) == src && !IsAuthRequest(answer)
    ensures Allowed(s, Answer(answer)) && Settled(Step(s, Answer(answer), chunk, chan), l, src)
  {
    var w := s.http.man.waiting;
    assert w[..0] == [] && WithoutKey(w, src) == [];
  }

  lemma {:induction false} Subscribed(l: Listener, src: string, answer: CuData, chunk: int, chan: string)
    requires l != NULL_LISTENER && src != "" && chunk > 0 && SrcOf(answer) == src && !IsAuthRequest(answer)
    ensures Admissible(Subscribing(l, src, answer), chunk, chan)
    ensures Settled(Run(Subscribing(l, src, answer), chunk, chan), l, src)
  {
    var es := [SetReader(l, src, false, map[])] + [Timer];
    FirstSet(l, src, chunk, chan);
    Settling(Run(es, chunk, chan), l, src, DataOf(SetItem(src, l, false, chan, map[])), answer, chunk, chan);
    RunSnoc(es, Answer(answer), chunk, chan);
  }

  lemma {:induction false} ResetAllowed(s: Sys, l: Listener, src: string, chunk: int, chan: string)
    requires l != NULL_LISTENER
    ensures Allowed(s, UnsetReader(l))
    ensures Allowed(Step(s, UnsetReader(l), chunk, chan), SetReader(l, src, false, map[]))
  {
    assert ReaderOf(Step(s, UnsetReader(l), chunk, chan), l).s == "";
  }

  lemma {:induction false} ResetRun(es: seq<Event>, l: Listener, src: string, chunk: int, chan: string)
    requires Admissible(es, chunk, chan) && l != NULL_LISTENER
    ensures Admissible(es + Resetting(l, src), chunk, chan)
    ensures Run(es + Resetting(l, src), chunk, chan) ==
            Step(Step(Step(Run(es, chunk, chan), UnsetReader(l), chunk, chan), SetReader(l, src, false, map[]), chunk,
                chan), Timer, chunk, chan)
  {
    var u, e := UnsetReader(l), SetReader(l, src, false, map[]);
    var a := es + [u];
    var b := a + [e];
    assert es + Resetting(l, src) == b + [Timer];
    ResetAllowed(Run(es, chunk, chan), l, src, chunk, chan);
    RunSnoc(es, u, chunk, chan);
    RunSnoc(a, e, chunk, chan);
    RunSnoc(b, Timer, chunk, chan);
  }

  /** Both requests of the listener for the source wait, the unsubscription first. */
  ghost predicate Racing(s: Sys, l: Listener, src: string) {
    var w := s.http.man.waiting;
    |w| >= 2 && IsUnsub(w[|w| - 2], l) && IsSub(w[|w| - 1], l) && w[|w| - 2].key == w[|w| - 1].key == src
  }

  lemma {:induction false} RaceLost(es: seq<Event>, l: Listener, src: string, answer: CuData, chunk: int, chan: string)
    requires Admissible(es, chunk, chan) && Racing(Run(es, chunk, chan), l, src)
    requires SrcOf(answer) == src && !IsAuthRequest(answer)
    ensures Agree(Run(es, chunk, chan)) && !Agree(Run(es + [Answer(answer)], chunk, chan))
  {
    var s := Run(es, chunk, chan);
    ChannelAgreement(es, chunk, chan);
    RunKeepsInv(es, chunk, chan);
    RaceAnswered(s, l, src, answer, chunk, chan);
    RunSnoc(es, Answer(answer), chunk, chan);
  }

  lemma {:induction false} RaceAnswered(s: Sys, l: Listener, src: string, answer: CuData, chunk: int, chan: string)
    requires Inv(s) && Racing(s, l, src) && SrcOf(answer) == src && !IsAuthRequest(answer)
    ensures !Agree(Step(s, Answer(answer), chunk, chan))
  {
    var n := |s.http.man.waiting|;
    OutOfOrderLoses(s, l, n - 2, n - 1, answer, answer, chunk, chan);
    assert !AgreeFor(Step(s, Answer(answer), chunk, chan), l, src);
  }

  /**
   * From the start: a reader is set, dispatched and answered, then unset and set again within one timeout. Every
   * step so far is admissible; the one reply that answers both requests loses the reader.
   */
  lemma {:induction false} ResetLosesReader(l: Listener, src: string, answer: CuData, chunk: int, chan: string)
    requires l != NULL_LISTENER && src != "" && chunk >= 2 && SrcOf(answer) == src && !IsAuthRequest(answer)
    ensures var es := Subscribing(l, src, answer) + Resetting(l, src);
            && Admissible(es, chunk, chan) && Agree(Run(es, chunk, chan))
            && !Agree(Run(es + [Answer(answer)], chunk, chan))
  {
    var first := Subscribing(l, src, answer);
    Subscribed(l, src, answer, chunk, chan);
    ResetRun(first, l, src, chunk, chan);
    QuickResetRaces(Run(first, chunk, chan), l, src, map[], chunk, chan);
    RaceLost(first + Resetting(l, src), l, src, answer, chunk, chan);
  }

  // ---- a subscribed reader set again

  /** The reader is subscribed to a source. */
  predicate Linking(r: Reader) { r.s != "" && r.verb.Subscribe? }

  ghost predicate QueuedSub(h: Http, l: Listener) { exists i :: i in h.man.queue && i.l == l && i.verb.Subscribe? }

  /** A listener whose reader has just been set is owed nothing by the channel yet. */
  lemma {:induction false} JustSet(s: Sys, l: Listener, src: string, single: bool, options: CuData, chunk: int,
          chan: string)
    requires Linking(ReaderOf(s, l))
    ensures var s' := Step(s, SetReader(l, src, single, options), chunk, chan);
            && (Linking(ReaderOf(s', l)) ==> QueuedSub(s'.http, l))
            && s'.http.man.waiting == s.http.man.waiting && s'.http.man.targets == s.http.man.targets
            && s'.http.chan == s.http.chan
  {
    if src != "" && !single {
      var q := Step(s, SetReader(l, src, single, options), chunk, chan).http.man.queue;
      assert q[|q| - 1] == SetItem(src, l, single, chan, options) && q[|q| - 1] in q;
    }
  }

  lemma {:induction false} SetElsewhere(s: Sys, l: Listener, src: string, single: bool, options: CuData, chunk: int,
          chan: string, l': Listener, x: string)
    requires AgreeFor(s, l', x) && l' != l
    ensures AgreeFor(Step(s, SetReader(l, src, single, options), chunk, chan), l', x)
  {
    var s' := Step(s, SetReader(l, src, single, options), chunk, chan);
    assert forall i :: i in s'.http.man.queue && i.l == l' <==> i in s.http.man.queue && i.l == l';
    assert Unanswered(s'.http, l') <==> Unanswered(s.http, l');
  }

  /**
   * A reader that is subscribed must not be set again: whatever the new source, the agreement is lost at once
   * unless the old subscription is still unanswered, and the listener stays on the channel for the old source.
   */
  lemma {:induction false} SetAgainIff(s: Sys, l: Listener, src: string, single: bool, options: CuData, chunk: int,
          chan: string)
    requires Agree(s) && Linking(ReaderOf(s, l))
    ensures var s' := Step(s, SetReader(l, src, single, options), chunk, chan);
            && (Agree(s') <==> Unanswered(s.http, l))
            && (!Unanswered(s.http, l) ==> multiset(s'.http.chan)[Sub(ReaderOf(s, l).s, l)] == 1)
  {
    var s', before := Step(s, SetReader(l, src, single, options), chunk, chan), ReaderOf(s, l).s;
    JustSet(s, l, src, single, options, chunk, chan);
    assert AgreeFor(s, l, before);
    if Unanswered(s.http, l) {
      forall l': Listener, x: string ensures AgreeFor(s', l', x) {
        assert AgreeFor(s, l', x);
        if l' != l { SetElsewhere(s, l, src, single, options, chunk, chan, l', x); }
      }
    } else {
      assert !AgreeFor(s', l, before);
    }
  }

  lemma {:induction false} SubsToPositive(w: seq<Entry>, k: nat, l: Listener)
    requires k < |w| && IsSub(w[k], l)
    ensures SubsTo(w, w[k].key, l) > 0
  {
    if k < |w| - 1 { SubsToPositive(w[..|w| - 1], k, l); }
  }

  /** A reply that answers the waiting subscription of a reader puts its listener on the channel. */
  lemma {:induction false} SubscriptionAnswered(s: Sys, l: Listener, k: nat, da: CuData)
    requires Inv(s) && k < |s.http.man.waiting| && IsSub(s.http.man.waiting[k], l)
    requires SrcOf(da) == s.http.man.waiting[k].key && InOrderFor(s.http, SrcOf(da), l)
    ensures Linking(ReaderOf(s, l)) && SrcOf(da) == ReaderOf(s, l).s
    ensures multiset(LisUpdate(s.http, da).chan)[Sub(SrcOf(da), l)] == 1
  {
    var h, w, r := s.http, s.http.man.waiting, ReaderOf(s, l);
    assert InvFor(h, r, l);
    forall i | 0 <= i < |w| && IsSub(w[i], l)
      ensures Current(w[i], r, l) && forall m :: i < m < |w| ==> !IsSub(w[m], l)
    {
      NothingAfterSub(w, Entries(h.man.queue), i, r, l);
    }
    AnswerTakesSub(h, r, l, k, da);
    SubsToPositive(w, k, l);
    SubsToOf(w, SrcOf(da), l);
    ReplyWithSub(h, da, r, l);
    UnansweredIff(LisUpdate(h, da), r, l);
  }

  /** And when a subscription that waits at the second set is answered, its listener is on the channel undue. */
  lemma {:induction false} SetAgainLoses(s: Sys, l: Listener, src: string, single: bool, options: CuData, k: nat,
          da: CuData, chunk: int, chan: string)
    requires Inv(s) && k < |s.http.man.waiting| && IsSub(s.http.man.waiting[k], l)
    requires SrcOf(da) == s.http.man.waiting[k].key && InOrderFor(s.http, SrcOf(da), l) && !IsAuthRequest(da)
    ensures var s1 := Step(s, SetReader(l, src, single, options), chunk, chan);
            !AgreeFor(Step(s1, Answer(da), chunk, chan), l, SrcOf(da))
  {
    SubscriptionAnswered(s, l, k, da);
    JustSet(s, l, src, single, options, chunk, chan);
    AnsweredUndue(s, Step(s, SetReader(l, src, single, options), chunk, chan), l, da, chunk, chan);
  }

  lemma {:induction false} AnsweredUndue(s: Sys, s1: Sys, l: Listener, da: CuData, chunk: int, chan: string)
    requires s1.http.man.waiting == s.http.man.waiting && s1.http.man.targets == s.http.man.targets
    requires s1.http.chan == s.http.chan && multiset(LisUpdate(s.http, da).chan)[Sub(SrcOf(da), l)] == 1
    requires (Linking(ReaderOf(s1, l)) ==> QueuedSub(s1.http, l)) && !IsAuthRequest(da)
    ensures !AgreeFor(Step(s1, Answer(da), chunk, chan), l, SrcOf(da))
  {
    var s2 := Step(s1, Answer(da), chunk, chan);
    assert s2.http.chan == LisUpdate(s.http, da).chan && s2.http.man.queue == s1.http.man.queue;
    assert QueuedSub(s1.http, l) ==> Unanswered(s2.http, l);
  }

  // ---- what a reader asks for

  /** A reader set to a source asks for it once: a single-shot or manual one reads it, any other one subscribes. */
  lemma {:induction false} SetAsks(s: Sys, l: Listener, src: string, single: bool, options: CuData, chunk: int,
          chan: string)
    requires src != ""
    ensures var s' := Step(s, SetReader(l, src, single, options), chunk, chan);
            && s'.http == s.http.(man := s'.http.man)
            && s'.http.man == s.http.man.(queue := s'.http.man.queue, timer := true)
            && s'.http.man.queue == s.http.man.queue
                 + [SrcItem(src, l, if single then Read else Subscribe, if single then "" else chan, Invalid, options)]
            && ReaderOf(s', l) == Reader(src, if single then Read else Subscribe)
  {
  }

  /** Unset, it takes its request back, leaves the channel, and unsubscribes exactly if it had subscribed. */
  lemma {:induction false} UnsetAsks(s: Sys, l: Listener, chunk: int, chan: string)
    ensures var s', r := Step(s, UnsetReader(l), chunk, chan), ReaderOf(s, l);
            && s'.http.man == (var m := Cancel(s.http.man, r.s, r.verb, l);
                 if r.verb == Subscribe
                 then m.(queue := m.queue + [SrcItem(r.s, l, Unsubscribe, chan, Invalid, map[])], timer := true) else m)
            && (forall x :: multiset(s'.http.chan)[x] == if x.lis == l then 0 else multiset(s.http.chan)[x])
            && ReaderOf(s', l) == r.(s := "")
  {
    forall x
      ensures multiset(WithoutListener(s.http.chan, l))[x] == if x.lis == l then 0 else multiset(s.http.chan)[x]
    {
      WithoutListenerCount(s.http.chan, l, x);
    }
  }

  /** Every request an event makes for l is one that reads. */
  predicate ReadsOnly(e: Event, l: Listener) {
    && (e.SetReader? && e.l == l ==> e.single)
    && (e.Request? && e.item.l == l ==> e.item.verb != Subscribe && e.item.verb != SubscribeAlt)
  }

  /** Nothing queued, waiting or on the channel subscribes l. */
  ghost predicate NotSubscribing(s: Sys, l: Listener) {
    && (forall i :: i in s.http.man.queue && i.l == l ==> i.verb != Subscribe && i.verb != SubscribeAlt)
    && (forall e ::
          e in s.http.man.waiting && e.data.lis == l ==> e.data.verb != Subscribe && e.data.verb != SubscribeAlt)
    && (forall t :: t in s.http.man.targets ==> s.http.man.targets[t].verb == Write)
    && (forall x :: x in s.http.chan ==> x.lis != l)
  }

  lemma {:induction false} TickNotSubscribing(s: Sys, l: Listener, chunk: int, chan: string)
    requires NotSubscribing(s, l)
    ensures NotSubscribing(Step(s, Timer, chunk, chan), l)
  {
    var done := Chunk(s.http.man, chunk);
    EntriesOf(done);
    TargetsOf(s.http.man.targets, done);
    assert forall i :: i in done ==> i in s.http.man.queue;
  }

  lemma {:induction false} UnlinkNotSubscribing(h: Http, readers: map<Listener, Reader>, src: string, verb: Verb,
          l': Listener, l: Listener)
    requires NotSubscribing(Sys(h, readers), l)
    ensures NotSubscribing(Sys(Unlink(h, src, verb, l'), readers), l)
  {
    QueueWithoutMembers(h.man.queue, src, verb, l');
    FilterMembers((e: Entry) => !EntryHits(e, src, verb, l'), h.man.waiting);
    FilterMembers((x: Sub) => x.lis != l', h.chan);
  }

  lemma {:induction false} UpdateNotSubscribing(chan: seq<Sub>, ds: seq<SrcData>, src: string, l: Listener)
    requires forall x :: x in chan ==> x.lis != l
    requires forall d :: d in ds && d.lis == l ==> d.verb != Subscribe && d.verb != SubscribeAlt
    ensures forall x :: x in UpdateChan(chan, ds, src) ==> x.lis != l
  {
    if ds != [] {
      var front, d := ds[..|ds| - 1], ds[|ds| - 1];
      assert d in ds;
      UpdateNotSubscribing(chan, front, src, l);
      FilterMembers((x: Sub) => x.lis != d.lis, UpdateChan(chan, front, src));
    }
  }

  lemma {:induction false} AnsweredMembers(h: Http, da: CuData, d: SrcData)
    requires d in Answered(h, da)
    ensures Entry(SrcOf(da), d) in h.man.waiting || exists t :: t in h.man.targets && h.man.targets[t] == d
  {
    if d in Values(h.man.waiting, SrcOf(da)) {
      ValuesAreWaiting(h.man.waiting, SrcOf(da), d);
    } else {
      SortedKeysCover(h.man.targets.Keys);
      var ks := SortedKeys(h.man.targets.Keys);
      var j :| 0 <= j < |ks| && AllTargets(h.man.targets)[j] == d;
      assert ks[j] in ks;
    }
  }

  lemma {:induction false} ReplyNotSubscribing(s: Sys, da: CuData, l: Listener, chunk: int, chan: string)
    requires NotSubscribing(s, l)
    ensures NotSubscribing(Step(s, Answer(da), chunk, chan), l)
  {
    if !IsAuthRequest(da) {
      FilterMembers((e: Entry) => e.key != SrcOf(da), s.http.man.waiting);
      forall d | d in Answered(s.http, da) && d.lis == l ensures d.verb != Subscribe && d.verb != SubscribeAlt {
        AnsweredMembers(s.http, da, d);
      }
      UpdateNotSubscribing(s.http.chan, Answered(s.http, da), SrcOf(da), l);
    }
  }

  lemma {:induction false} StepNotSubscribing(s: Sys, e: Event, l: Listener, chunk: int, chan: string)
    requires NotSubscribing(s, l) && ReadsOnly(e, l)
    ensures NotSubscribing(Step(s, e, chunk, chan), l)
  {
    match e
    case UnsetReader(l') => UnlinkNotSubscribing(s.http, s.readers, ReaderOf(s, l').s, ReaderOf(s, l').verb, l', l);
    case DestroyReader(l') => UnlinkNotSubscribing(s.http, s.readers, ReaderOf(s, l').s, ReaderOf(s, l').verb, l', l);
    case ClearTarget(src, verb, l') => UnlinkNotSubscribing(s.http, s.readers, src, verb, l', l);
    case Timer => TickNotSubscribing(s, l, chunk, chan);
    case Answer(da) => ReplyNotSubscribing(s, da, l, chunk, chan);
    case _ =>
  }

  /** In every run, a listener whose readers are all single-shot or manual is never on the channel. */
  lemma {:induction false} SingleStaysOff(es: seq<Event>, l: Listener, chunk: int, chan: string)
    requires forall e :: e in es ==> ReadsOnly(e, l)
    ensures NotSubscribing(Run(es, chunk, chan), l)
  {
    if es != [] {
      var front := es[..|es| - 1];
      SingleStaysOff(front, l, chunk, chan);
      assert es[|es| - 1] in es;
      StepNotSubscribing(Run(front, chunk, chan), es[|es| - 1], l, chunk, chan);
    }
  }

  // ---- runs whose replies come in dispatch order

  /** No source has two requests waiting, and a reply is for the source that waits longest. */
  ghost predicate HeadOfLine(s: Sys, e: Event) {
    e.Answer? && !IsAuthRequest(e.da) ==>
      && (forall i, j :: 0 <= i < j < |s.http.man.waiting| ==> s.http.man.waiting[i].key != s.http.man.waiting[j].key)
      && (s.http.man.waiting != [] ==> s.http.man.waiting[0].key == SrcOf(e.da))
  }

  /** The clients' discipline alone, whatever the order of the replies. */
  ghost predicate Disciplined(s: Sys, e: Event) { e.Answer? || Allowed(s, e) }

  ghost predicate InLine(es: seq<Event>, chunk: int, chan: string) {
    es == [] ||
    (InLine(es[..|es| - 1], chunk, chan)
     && var s := Run(es[..|es| - 1], chunk, chan); HeadOfLine(s, es[|es| - 1]) && Disciplined(s, es[|es| - 1]))
  }

  lemma {:induction false} InLineAdmissible(es: seq<Event>, chunk: int, chan: string)
    requires InLine(es, chunk, chan)
    ensures Admissible(es, chunk, chan)
  {
    if es != [] {
      var front, e := es[..|es| - 1], es[|es| - 1];
      InLineAdmissible(front, chunk, chan);
      RunKeepsInv(front, chunk, chan);
      if e.Answer? && !IsAuthRequest(e.da) { DispatchOrderSuffices(Run(front, chunk, chan), SrcOf(e.da)); }
    }
  }

  /** Channel agreement over whole runs of disciplined clients whose replies come in dispatch order. */
  lemma {:induction false} DispatchOrderAgrees(es: seq<Event>, chunk: int, chan: string)
    requires InLine(es, chunk, chan)
    ensures Agree(Run(es, chunk, chan))
  {
    InLineAdmissible(es, chunk, chan);
    ChannelAgreement(es, chunk, chan);
  }

  lemma {:induction false} QuickUnset(s: Sys, l: Listener, src: string, chunk: int, chan: string)
    requires s.http.man.queue == [] && ReaderOf(s, l) == Reader(src, Subscribe)
    ensures Step(s, UnsetReader(l), chunk, chan).http.man.queue == [MakeItem(src, l, Unsubscribe, chan, Invalid, map[])]
  {
  }

  lemma {:induction false} PairDispatched(h: Http, a: SrcItem, b: SrcItem, chunk: int)
    requires h.man.queue == [a, b] && chunk >= 2 && !a.verb.Write? && !b.verb.Write?
    ensures Timeout(h, chunk).man.waiting == h.man.waiting + [Entry(a.src, DataOf(a)), Entry(b.src, DataOf(b))]
  {
    assert Chunk(h.man, chunk) == [a] + [b];
    Snoc(map[], [a], b);
    Snoc(map[], [], a);
    assert [] + [a] == [a];
  }
}
