/** Whole runs of the HTTP engine: unlink safety, the waiting reads and the pending writes. */
module HttpRuns {
  import opened Seqs
  import opened HttpTypes
  import opened SrcMan
  import opened Channel
  import opened Bundle
  import opened HttpEngine

  datatype Event =
    | Request(item: SrcItem)
    | Unlinked(src: string, verb: Verb, l: Listener)
    | Timer
    | Answer(da: CuData)
    | Id(id: nat)
    | Creds(user: string)
    | Auth(authorised: bool, user: string, message: string)
    | AuthFailed(message: string)
    | Message(a: seq<CuData>)

  ghost function Step(h: Http, e: Event, chunk: int): Http {
    match e
    case Request(i) => h.(man := Enqueue(h.man, i))
    case Unlinked(src, verb, l) => Unlink(h, src, verb, l)
    case Timer => Timeout(h, chunk)
    case Answer(da) => Reply(h, da)
    case Id(id) => h.(gate := IdReady(h.gate, id))
    case Creds(user) => CredsReady(h, user)
    case Auth(ok, user, message) => AuthReply(h, ok, user, message)
    case AuthFailed(message) => AuthError(h, message)
    case Message(a) => ChannelMessage(h, a)
  }

  ghost function Run(h: Http, es: seq<Event>, chunk: int): Http
    decreases |es|
  {
    if es == [] then h else Step(Run(h, es[..|es| - 1], chunk), es[|es| - 1], chunk)
  }

  lemma {:induction false} RunAppend(h: Http, a: seq<Event>, b: seq<Event>, chunk: int)
    ensures Run(h, a + b, chunk) == Run(Run(h, a, chunk), b, chunk)
    decreases |b|
  {
    if b == [] {
      assert a + b == a;
    } else {
      assert (a + b)[..|a + b| - 1] == a + b[..|b| - 1];
      RunAppend(h, a, b[..|b| - 1], chunk);
    }
  }

  // ---- unlink safety

  /** A request that would update l when it is answered. */
  predicate ItemCalls(i: SrcItem, l: Listener) { i.l == l && !i.verb.Unsubscribe? }

  predicate DataCalls(d: SrcData, l: Listener) { d.lis == l && !d.verb.Unsubscribe? }

  /** Nothing queued, waiting, pending or on the channel can call l. */
  ghost predicate Quiet(h: Http, l: Listener) {
    && (forall i :: i in h.man.queue ==> !ItemCalls(i, l))
    && (forall e :: e in h.man.waiting ==> !DataCalls(e.data, l))
    && (forall t :: t in h.man.targets ==> !DataCalls(h.man.targets[t], l))
    && (forall s :: s in h.chan ==> s.lis != l)
  }

  ghost predicate NoCallOf(calls: seq<Call>, l: Listener) { forall c :: c in calls ==> c.lis != l }

  lemma {:induction false} UpdateCallsQuiet(ds: seq<SrcData>, da: CuData, l: Listener)
    requires forall d :: d in ds ==> !DataCalls(d, l)
    ensures NoCallOf(UpdateCalls(ds, da), l)
  {
    if ds != [] {
      assert ds[|ds| - 1] in ds;
      UpdateCallsQuiet(ds[..|ds| - 1], da, l);
    }
  }

  lemma {:induction false} UpdateChanQuiet(chan: seq<Sub>, ds: seq<SrcData>, src: string, l: Listener)
    requires forall d :: d in ds ==> !DataCalls(d, l)
    requires forall s :: s in chan ==> s.lis != l
    ensures forall s :: s in UpdateChan(chan, ds, src) ==> s.lis != l
  {
    if ds != [] {
      var d := ds[|ds| - 1];
      assert d in ds;
      UpdateChanQuiet(chan, ds[..|ds| - 1], src, l);
      FilterMembers((s: Sub) => s.lis != d.lis, UpdateChan(chan, ds[..|ds| - 1], src));
    }
  }

  lemma {:induction false} ErrorCallsQuiet(t: map<string, SrcData>, ks: seq<string>, msg: string, extra: CuData,
          l: Listener)
    requires forall k :: k in t ==> t[k].lis != l
    ensures NoCallOf(ErrorCalls(t, ks, msg, extra), l)
  {
    if ks != [] {
      ErrorCallsQuiet(t, ks[..|ks| - 1], msg, extra, l);
    }
  }

  lemma {:induction false} ValuesIn(w: seq<Entry>, src: string)
    ensures forall d :: d in Values(w, src) ==> Entry(src, d) in w
  {
    if w != [] {
      ValuesIn(w[..|w| - 1], src);
    }
  }

  lemma {:induction false} AnsweredQuiet(h: Http, da: CuData, l: Listener)
    requires Quiet(h, l)
    ensures forall d :: d in Answered(h, da) ==> !DataCalls(d, l)
  {
    ValuesIn(h.man.waiting, SrcOf(da));
    SortedKeysCover(h.man.targets.Keys);
    var ks := SortedKeys(h.man.targets.Keys);
    forall d | d in AllTargets(h.man.targets) ensures !DataCalls(d, l) {
      var j :| 0 <= j < |ks| && AllTargets(h.man.targets)[j] == d;
      assert ks[j] in ks;
    }
  }

  /** Pending entries only ever hold writes, so a quiet listener has no pending target at all. */
  ghost predicate TargetsAreWrites(h: Http) {
    forall t :: t in h.man.targets ==> h.man.targets[t].verb.Write?
  }

  lemma {:induction false} StepKeepsWrites(h: Http, e: Event, chunk: int)
    requires TargetsAreWrites(h)
    ensures TargetsAreWrites(Step(h, e, chunk))
  {
    TargetsOf(h.man.targets, Chunk(h.man, chunk));
  }

  lemma {:induction false} ReachableTargetsAreWrites(es: seq<Event>, chunk: int)
    ensures TargetsAreWrites(Run(EMPTY_HTTP, es, chunk))
    decreases |es|
  {
    if es != [] {
      ReachableTargetsAreWrites(es[..|es| - 1], chunk);
      StepKeepsWrites(Run(EMPTY_HTTP, es[..|es| - 1], chunk), es[|es| - 1], chunk);
    }
  }

  lemma {:induction false} TimerKeepsQuiet(h: Http, chunk: int, l: Listener)
    requires Quiet(h, l)
    ensures Quiet(Timeout(h, chunk), l)
  {
    var done := Chunk(h.man, chunk);
    EntriesOf(done);
    TargetsOf(h.man.targets, done);
    assert forall i :: i in done ==> i in h.man.queue;
  }

  lemma {:induction false} MessageKeepsQuiet(h: Http, a: seq<CuData>, l: Listener)
    requires forall s :: s in h.chan ==> s.lis != l
    ensures NoCallOf(Route(h.chan, a), l)
  {
    if |a| == 1 { CallsForCount(h.chan, NameOf(a[0]), a[0]); }
  }

  lemma {:induction false} WithoutKeyIn(w: seq<Entry>, src: string)
    ensures forall e :: e in WithoutKey(w, src) ==> e in w && e.key != src
  {
    FilterMembers((e: Entry) => e.key != src, w);
  }

  lemma {:induction false} CancelKeepsQuiet(h: Http, src: string, verb: Verb, l': Listener, l: Listener)
    requires Quiet(h, l)
    ensures Quiet(Unlink(h, src, verb, l'), l)
  {
    QueueWithoutMembers(h.man.queue, src, verb, l');
    FilterMembers((e: Entry) => !EntryHits(e, src, verb, l'), h.man.waiting);
    FilterMembers((s: Sub) => s.lis != l', h.chan);
  }

  lemma {:induction false} StepKeepsQuiet(h: Http, e: Event, chunk: int, l: Listener)
    requires Quiet(h, l) && TargetsAreWrites(h)
    requires e.Request? ==> !ItemCalls(e.item, l)
    ensures Quiet(Step(h, e, chunk), l)
    ensures exists cs :: Step(h, e, chunk).calls == h.calls + cs && NoCallOf(cs, l)
  {
    var h' := Step(h, e, chunk);
    assert h.calls == h.calls + [];
    match e
    case Request(i) =>
    case Unlinked(src, verb, l') => CancelKeepsQuiet(h, src, verb, l', l);
    case Timer => TimerKeepsQuiet(h, chunk, l);
    case Answer(da) =>
      if !IsAuthRequest(da) {
        AnsweredQuiet(h, da, l);
        UpdateCallsQuiet(Answered(h, da), da, l);
        UpdateChanQuiet(h.chan, Answered(h, da), SrcOf(da), l);
        WithoutKeyIn(h.man.waiting, SrcOf(da));
      }
    case Id(id) =>
    case Creds(user) => ErrorCallsQuiet(h.man.targets, SortedKeys(h.man.targets.Keys), "invalid user name", map[], l);
    case Auth(ok, user, message) =>
      ErrorCallsQuiet(h.man.targets, SortedKeys(h.man.targets.Keys), message, map["user" := Scalar(user)], l);
    case AuthFailed(message) => ErrorCallsQuiet(h.man.targets, SortedKeys(h.man.targets.Keys), message, map[], l);
    case Message(a) => MessageKeepsQuiet(h, a, l);
  }

  /** Once quiet, a listener is not called in any run that makes no new request for it. */
  lemma {:induction false} QuietRun(h: Http, es: seq<Event>, chunk: int, l: Listener)
    requires Quiet(h, l) && TargetsAreWrites(h)
    requires forall e :: e in es && e.Request? ==> !ItemCalls(e.item, l)
    ensures Quiet(Run(h, es, chunk), l)
    ensures TargetsAreWrites(Run(h, es, chunk))
    ensures h.calls <= Run(h, es, chunk).calls && NoCallOf(Run(h, es, chunk).calls[|h.calls|..], l)
    decreases |es|
  {
    if es != [] {
      var front, e := es[..|es| - 1], es[|es| - 1];
      QuietRun(h, front, chunk, l);
      var m := Run(h, front, chunk);
      StepKeepsQuiet(m, e, chunk, l);
      StepKeepsWrites(m, e, chunk);
      var cs :| Step(m, e, chunk).calls == m.calls + cs && NoCallOf(cs, l);
      assert (m.calls + cs)[|h.calls|..] == m.calls[|h.calls|..] + cs;
    }
  }

  /** The requests of l that would call it, other than its (src, verb) request. */
  ghost predicate OnlyRequest(h: Http, src: string, verb: Verb, l: Listener) {
    && (forall i :: i in h.man.queue && ItemCalls(i, l) ==> i.src == src && i.verb == verb)
    && (forall e :: e in h.man.waiting && DataCalls(e.data, l) ==> e.key == src && e.data.verb == verb)
    && (forall t :: t in h.man.targets && DataCalls(h.man.targets[t], l) ==> t == src && h.man.targets[t].verb == verb)
  }

  ghost predicate InWaitMaps(h: Http, l: Listener) {
    || (exists e :: e in h.man.waiting && DataCalls(e.data, l))
    || (exists t :: t in h.man.targets && DataCalls(h.man.targets[t], l))
  }

  ghost predicate QueueHit(h: Http, src: string, verb: Verb, l: Listener) {
    exists i :: i in h.man.queue && Hits(i, src, verb, l)
  }

  /**
   * Unlinking silences l exactly when l has no other request outstanding and its request is not in a wait
   * map while the queue also holds something to remove: a queue hit ends the search.
   */
  lemma {:induction false} UnlinkQuietIff(h: Http, src: string, verb: Verb, l: Listener)
    requires l != NULL_LISTENER && !verb.Unsubscribe?
    ensures Quiet(Unlink(h, src, verb, l), l)
            <==> OnlyRequest(h, src, verb, l) && !(QueueHit(h, src, verb, l) && InWaitMaps(h, l))
  {
    FilterMembers((s: Sub) => s.lis != l, h.chan);
    QueueQuietIff(h.man.queue, src, verb, l);
    if QueueHit(h, src, verb, l) {
      UnlinkInQueue(h, src, verb, l);
    } else {
      UnlinkInMaps(h, src, verb, l);
    }
  }

  lemma {:induction false} QueueQuietIff(q: seq<SrcItem>, src: string, verb: Verb, l: Listener)
    requires l != NULL_LISTENER
    ensures (forall i :: i in QueueWithout(q, src, verb, l) ==> !ItemCalls(i, l))
            <==> forall i :: i in q && ItemCalls(i, l) ==> i.src == src && i.verb == verb
  {
    QueueWithoutMembers(q, src, verb, l);
  }

  lemma {:induction false} UnlinkInQueue(h: Http, src: string, verb: Verb, l: Listener)
    requires l != NULL_LISTENER && QueueHit(h, src, verb, l)
    ensures var h' := Unlink(h, src, verb, l);
            h'.man == h.man.(queue := QueueWithout(h.man.queue, src, verb, l))
  {
    QueueWithoutMembers(h.man.queue, src, verb, l);
  }

  lemma {:induction false} UnlinkInMaps(h: Http, src: string, verb: Verb, l: Listener)
    requires l != NULL_LISTENER && !QueueHit(h, src, verb, l)
    ensures var h' := Unlink(h, src, verb, l);
            && h'.man.queue == h.man.queue
            && ((forall e :: e in h'.man.waiting ==> !DataCalls(e.data, l))
                <==> forall e :: e in h.man.waiting && DataCalls(e.data, l) ==> e.key == src && e.data.verb == verb)
            && ((forall t :: t in h'.man.targets ==> !DataCalls(h'.man.targets[t], l))
                <==> forall t ::
                       t in h.man.targets && DataCalls(h.man.targets[t], l) ==>
                       t == src && h.man.targets[t].verb == verb)
  {
    QueueWithoutMembers(h.man.queue, src, verb, l);
    FilterMembers((e: Entry) => !EntryHits(e, src, verb, l), h.man.waiting);
    var w, w' := h.man.waiting, WaitingWithout(h.man.waiting, src, verb, l);
    assert forall e :: e in w' <==> e in w && !EntryHits(e, src, verb, l);
    var t, t' := h.man.targets, TargetsWithout(h.man.targets, src, verb, l);
    assert forall k :: k in t' <==> k in t && !EntryHits(Entry(k, t[k]), src, verb, l);
  }

  /**
   * Unlink safety: in every reachable state, when the reader's request is the only one outstanding for l and
   * it is outstanding once, then after the unlink and the enqueuing of the unsubscription no reply and no
   * channel message calls l, wherever its request was, until something else is requested for it.
   */
  lemma {:induction false} UnlinkSafety(before: seq<Event>, src: string, verb: Verb, l: Listener, unsub: SrcItem,
          after: seq<Event>, chunk: int)
    requires l != NULL_LISTENER && !verb.Unsubscribe?
    requires OnlyRequest(Run(EMPTY_HTTP, before, chunk), src, verb, l)
    requires !(QueueHit(Run(EMPTY_HTTP, before, chunk), src, verb, l) && InWaitMaps(Run(EMPTY_HTTP, before, chunk), l))
    requires unsub.l == l && unsub.verb.Unsubscribe?
    requires forall e :: e in after && e.Request? ==> !ItemCalls(e.item, l)
    ensures var h := Run(EMPTY_HTTP, before, chunk);
            var h' := Run(h, [Unlinked(src, verb, l), Request(unsub)] + after, chunk);
            h.calls <= h'.calls && NoCallOf(h'.calls[|h.calls|..], l)
  {
    var h := Run(EMPTY_HTTP, before, chunk);
    var start := [Unlinked(src, verb, l), Request(unsub)];
    ReachableTargetsAreWrites(before, chunk);
    RunAppend(h, start, after, chunk);
    UnlinkQuietIff(h, src, verb, l);
    assert start[..1] == [Unlinked(src, verb, l)] && start[..1][..0] == [];
    var h1 := Unlink(h, src, verb, l);
    var h2 := h1.(man := Enqueue(h1.man, unsub));
    assert Run(h, start[..1], chunk) == Step(Run(h, [], chunk), start[0], chunk);
    assert Run(h, start, chunk) == Step(h1, start[1], chunk) == h2;
    StepKeepsWrites(h, Unlinked(src, verb, l), chunk);
    QuietRun(h2, after, chunk, l);
  }

  // ---- every waiting read is answered at most once

  /** The reads a step moves to the wait map, takes from it on a reply, and removes from it on a cancellation. */
  function Dispatched(h: Http, e: Event, chunk: int): multiset<Entry> {
    if e.Timer? then multiset(Entries(Chunk(h.man, chunk))) else multiset{}
  }

  function Taken(h: Http, e: Event): multiset<Entry> {
    if e.Answer? && !IsAuthRequest(e.da) then multiset(WithKey(h.man.waiting, SrcOf(e.da))) else multiset{}
  }

  function Revoked(h: Http, e: Event): multiset<Entry> {
    if e.Unlinked? && |QueueWithout(h.man.queue, e.src, e.verb, e.l)| == |h.man.queue|
    then multiset(WaitingHits(h.man.waiting, e.src, e.verb, e.l)) else multiset{}
  }

  function WithKey(w: seq<Entry>, src: string): seq<Entry> { Filter((e: Entry) => e.key == src, w) }

  function WaitingHits(w: seq<Entry>, src: string, verb: Verb, l: Listener): seq<Entry> {
    Filter((e: Entry) => EntryHits(e, src, verb, l), w)
  }

  ghost function DispatchedIn(h: Http, es: seq<Event>, chunk: int): multiset<Entry>
    decreases |es|
  {
    if es == [] then multiset{}
    else DispatchedIn(h, es[..|es| - 1], chunk) + Dispatched(Run(h, es[..|es| - 1], chunk), es[|es| - 1], chunk)
  }

  ghost function TakenIn(h: Http, es: seq<Event>, chunk: int): multiset<Entry>
    decreases |es|
  {
    if es == [] then multiset{}
    else TakenIn(h, es[..|es| - 1], chunk) + Taken(Run(h, es[..|es| - 1], chunk), es[|es| - 1])
  }

  ghost function RevokedIn(h: Http, es: seq<Event>, chunk: int): multiset<Entry>
    decreases |es|
  {
    if es == [] then multiset{}
    else RevokedIn(h, es[..|es| - 1], chunk) + Revoked(Run(h, es[..|es| - 1], chunk), es[|es| - 1])
  }

  lemma {:induction false} StepAccounts(h: Http, e: Event, chunk: int)
    ensures multiset(Step(h, e, chunk).man.waiting) + Taken(h, e) + Revoked(h, e)
            == multiset(h.man.waiting) + Dispatched(h, e, chunk)
  {
    var w := h.man.waiting;
    match e
    case Answer(da) =>
      FilterPartition((e: Entry) => e.key != SrcOf(da), (e: Entry) => e.key == SrcOf(da), w);
    case Unlinked(src, verb, l) =>
      FilterPartition((e: Entry) => !EntryHits(e, src, verb, l), (e: Entry) => EntryHits(e, src, verb, l), w);
    case _ =>
  }

  /** In every run the waiting reads are the dispatched reads less those taken by replies and those cancelled. */
  lemma {:induction false} WaitingIsAccounted(es: seq<Event>, chunk: int)
    ensures multiset(Run(EMPTY_HTTP, es, chunk).man.waiting) + TakenIn(EMPTY_HTTP, es, chunk)
            + RevokedIn(EMPTY_HTTP, es, chunk)
            == DispatchedIn(EMPTY_HTTP, es, chunk)
    decreases |es|
  {
    if es != [] {
      var front := es[..|es| - 1];
      WaitingIsAccounted(front, chunk);
      var h, e := Run(EMPTY_HTTP, front, chunk), es[|es| - 1];
      StepAccounts(h, e, chunk);
      Balance(multiset(h.man.waiting), multiset(Step(h, e, chunk).man.waiting),
              TakenIn(EMPTY_HTTP, front, chunk), Taken(h, e), RevokedIn(EMPTY_HTTP, front, chunk), Revoked(h, e),
              DispatchedIn(EMPTY_HTTP, front, chunk), Dispatched(h, e, chunk));
    }
  }

  lemma {:induction false} Balance(w: multiset<Entry>, w': multiset<Entry>, t: multiset<Entry>, dt: multiset<Entry>,
                r: multiset<Entry>, dr: multiset<Entry>, d: multiset<Entry>, dd: multiset<Entry>)
    requires w' + dt + dr == w + dd && w + t + r == d
    ensures w' + (t + dt) + (r + dr) == d + dd
  {
    assert w' + (t + dt) + (r + dr) == (w' + dt + dr) + t + r;
  }

  /** How many entries for src ask for an update of l. */
  function UpdatesFor(w: seq<Entry>, src: string, l: Listener): nat {
    if w == [] then 0
    else UpdatesFor(w[..|w| - 1], src, l) + if w[|w| - 1].key == src && DataCalls(w[|w| - 1].data, l) then 1 else 0
  }

  lemma {:induction false} UpdateCallsAppend(a: seq<SrcData>, b: seq<SrcData>, da: CuData)
    ensures UpdateCalls(a + b, da) == UpdateCalls(a, da) + UpdateCalls(b, da)
  {
    if b == [] {
      assert a + b == a;
    } else {
      assert (a + b)[..|a + b| - 1] == a + b[..|b| - 1];
      UpdateCallsAppend(a, b[..|b| - 1], da);
    }
  }

  lemma {:induction false} UpdateCallsOne(d: SrcData, da: CuData)
    ensures UpdateCalls([d], da) == if d.lis != NULL_LISTENER && !d.verb.Unsubscribe? then [Call(d.lis, da)] else []
  {
    assert [d][..0] == [];
  }

  lemma {:induction false} ReadCalls(w: seq<Entry>, src: string, da: CuData, l: Listener)
    requires l != NULL_LISTENER
    ensures multiset(UpdateCalls(Values(w, src), da))[Call(l, da)] == UpdatesFor(w, src, l)
  {
    if w != [] {
      var front, last := w[..|w| - 1], w[|w| - 1];
      ReadCalls(front, src, da, l);
      if last.key == src {
        UpdateCallsAppend([last.data], Values(front, src), da);
        UpdateCallsOne(last.data, da);
      } else {
        assert Values(w, src) == Values(front, src);
      }
    }
  }

  /** The guard is needed: a queue hit leaves a waiting request of l behind, and its reply still calls l. */
  lemma {:induction false} UnlinkMissesWaiting(h: Http, src: string, verb: Verb, l: Listener, e: Entry, da: CuData)
    requires l != NULL_LISTENER && QueueHit(h, src, verb, l)
    requires e in h.man.waiting && e.key == src && DataCalls(e.data, l)
    requires SrcOf(da) == src && !IsAuthRequest(da)
    ensures Call(l, da) in Reply(Unlink(h, src, verb, l), da).calls
  {
    UnlinkInQueue(h, src, verb, l);
    var w := h.man.waiting;
    ReadCalls(w, src, da, l);
    UpdatesForPositive(w, src, l, e);
    UpdateCallsAppend(Values(w, src), AllTargets(h.man.targets), da);
    assert Call(l, da) in UpdateCalls(Values(w, src), da);
  }

  lemma {:induction false} UpdatesForPositive(w: seq<Entry>, src: string, l: Listener, e: Entry)
    requires e in w && e.key == src && DataCalls(e.data, l)
    ensures UpdatesFor(w, src, l) > 0
  {
    if e != w[|w| - 1] {
      UpdatesForPositive(w[..|w| - 1], src, l, e);
    }
  }

  lemma {:induction false} ReadDispatched(i: SrcItem)
    requires !i.verb.Write?
    ensures Run(EMPTY_HTTP, [Request(i)], 100).man.queue == [i]
    ensures Run(EMPTY_HTTP, [Request(i), Timer], 100).man.queue == []
    ensures Run(EMPTY_HTTP, [Request(i), Timer], 100).man.waiting == [Entry(i.src, DataOf(i))]
  {
    var h1 := Step(EMPTY_HTTP, Request(i), 100);
    assert [Request(i)][..0] == [] && [Request(i), Timer][..1] == [Request(i)];
    assert h1.man.queue == [i] && Chunk(h1.man, 100) == [i];
    assert [i][..0] == [] && Entries([i]) == [Entry(i.src, DataOf(i))];
  }

  /** Requesting a read again before its first answer reaches that state. */
  lemma {:induction false} ReadTwiceIsMissed()
    ensures var i := MakeItem("a", 1, Read, "", Invalid, map[]);
            var h := Run(EMPTY_HTTP, [Request(i), Timer, Request(i)], 100);
            QueueHit(h, "a", Read, 1) && Entry("a", DataOf(i)) in h.man.waiting && DataCalls(DataOf(i), 1)
  {
    var i := MakeItem("a", 1, Read, "", Invalid, map[]);
    var es := [Request(i), Timer, Request(i)];
    assert es[..2] == [Request(i), Timer] && es[..2][..1] == [Request(i)] && es[..2][..1][..0] == [];
    ReadDispatched(i);
    var h := Step(Run(EMPTY_HTTP, es[..2], 100), Request(i), 100);
    assert h.man.queue == [i] && Hits(i, "a", Read, 1);
  }

  /**
   * A non-auth reply consumes every waiting read of its source, and calls each listener exactly once for
   * each of them whose method is not "u"; the remaining calls are those of the pending writes.
   */
  lemma {:induction false} ReplyAnswersOnce(h: Http, da: CuData, l: Listener)
    requires l != NULL_LISTENER && !IsAuthRequest(da)
    ensures var h' := Reply(h, da);
            && (forall e :: e in h'.man.waiting ==> e.key != SrcOf(da))
            && |h.calls| <= |h'.calls| && h'.calls[..|h.calls|] == h.calls
            && multiset(h'.calls[|h.calls|..])[Call(l, da)]
               == UpdatesFor(h.man.waiting, SrcOf(da), l)
                   + multiset(UpdateCalls(AllTargets(h.man.targets), da))[Call(l, da)]
  {
    var v, t := Values(h.man.waiting, SrcOf(da)), AllTargets(h.man.targets);
    WithoutKeyIn(h.man.waiting, SrcOf(da));
    UpdateCallsAppend(v, t, da);
    ReadCalls(h.man.waiting, SrcOf(da), da, l);
    assert Reply(h, da).calls[|h.calls|..] == UpdateCalls(v + t, da);
  }

  // ---- over a run, the reads answered and the calls made for them

  /** The entries taken by replies, in the order of the replies. */
  ghost function TakenList(h: Http, es: seq<Event>, chunk: int): seq<Entry>
    decreases |es|
  {
    if es == [] then []
    else TakenList(h, es[..|es| - 1], chunk) + TakenBy(Run(h, es[..|es| - 1], chunk), es[|es| - 1])
  }

  ghost function TakenBy(h: Http, e: Event): seq<Entry> {
    if e.Answer? && !IsAuthRequest(e.da) then WithKey(h.man.waiting, SrcOf(e.da)) else []
  }

  /** The calls that replies make for waiting reads. */
  ghost function ReadCallsIn(h: Http, es: seq<Event>, chunk: int): seq<Call>
    decreases |es|
  {
    if es == [] then []
    else ReadCallsIn(h, es[..|es| - 1], chunk) + ReadCallsBy(Run(h, es[..|es| - 1], chunk), es[|es| - 1])
  }

  ghost function ReadCallsBy(h: Http, e: Event): seq<Call> {
    if e.Answer? && !IsAuthRequest(e.da) then UpdateCalls(Values(h.man.waiting, SrcOf(e.da)), e.da) else []
  }

  /** How many of the entries ask for an update of l. */
  function Owed(w: seq<Entry>, l: Listener): nat {
    if w == [] then 0 else Owed(w[..|w| - 1], l) + if DataCalls(w[|w| - 1].data, l) then 1 else 0
  }

  function CallCount(cs: seq<Call>, l: Listener): nat {
    if cs == [] then 0 else CallCount(cs[..|cs| - 1], l) + if cs[|cs| - 1].lis == l then 1 else 0
  }

  lemma {:induction false} OwedAppend(a: seq<Entry>, b: seq<Entry>, l: Listener)
    ensures Owed(a + b, l) == Owed(a, l) + Owed(b, l)
  {
    if b == [] {
      assert a + b == a;
    } else {
      assert (a + b)[..|a + b| - 1] == a + b[..|b| - 1];
      OwedAppend(a, b[..|b| - 1], l);
    }
  }

  lemma {:induction false} CallCountAppend(a: seq<Call>, b: seq<Call>, l: Listener)
    ensures CallCount(a + b, l) == CallCount(a, l) + CallCount(b, l)
  {
    if b == [] {
      assert a + b == a;
    } else {
      assert (a + b)[..|a + b| - 1] == a + b[..|b| - 1];
      CallCountAppend(a, b[..|b| - 1], l);
    }
  }

  lemma {:induction false} OwedForKey(w: seq<Entry>, src: string, da: CuData, l: Listener)
    requires l != NULL_LISTENER
    ensures CallCount(UpdateCalls(Values(w, src), da), l) == Owed(WithKey(w, src), l)
  {
    if w != [] {
      var front, last := w[..|w| - 1], w[|w| - 1];
      OwedForKey(front, src, da, l);
      FilterSnoc((e: Entry) => e.key == src, front, last);
      assert w == front + [last];
      if last.key == src {
        UpdateCallsAppend([last.data], Values(front, src), da);
        UpdateCallsOne(last.data, da);
        CallCountAppend(UpdateCalls([last.data], da), UpdateCalls(Values(front, src), da), l);
        OwedAppend(WithKey(front, src), [last], l);
        OneOwed(last, da, l);
      } else {
        assert Values(w, src) == Values(front, src) && WithKey(w, src) == WithKey(front, src);
      }
    }
  }

  lemma {:induction false} OneOwed(e: Entry, da: CuData, l: Listener)
    requires l != NULL_LISTENER
    ensures Owed([e], l) == CallCount(UpdateCalls([e.data], da), l)
  {
    UpdateCallsOne(e.data, da);
    assert [e][..0] == [];
    if UpdateCalls([e.data], da) != [] { assert UpdateCalls([e.data], da)[..0] == []; }
  }

  /**
   * In every run the read calls of l are as many as the waiting reads of l, other than "u", that replies have
   * taken; the entries taken are those the account of the waiting reads speaks of.
   */
  lemma {:induction false} ReadCallsMatchTaken(h: Http, es: seq<Event>, chunk: int, l: Listener)
    requires l != NULL_LISTENER
    ensures CallCount(ReadCallsIn(h, es, chunk), l) == Owed(TakenList(h, es, chunk), l)
    ensures multiset(TakenList(h, es, chunk)) == TakenIn(h, es, chunk)
    decreases |es|
  {
    if es != [] {
      var front, e := es[..|es| - 1], es[|es| - 1];
      ReadCallsMatchTaken(h, front, chunk, l);
      var m := Run(h, front, chunk);
      CallCountAppend(ReadCallsIn(h, front, chunk), ReadCallsBy(m, e), l);
      OwedAppend(TakenList(h, front, chunk), TakenBy(m, e), l);
      if e.Answer? && !IsAuthRequest(e.da) { OwedForKey(m.man.waiting, SrcOf(e.da), e.da, l); }
      assert multiset(TakenBy(m, e)) == Taken(m, e);
    }
  }

  /** And each reply makes its read calls first, then those of the pending writes, and no other call. */
  lemma {:induction false} ReplyCalls(h: Http, da: CuData)
    requires !IsAuthRequest(da)
    ensures Reply(h, da).calls
         == h.calls + (ReadCallsBy(h, Answer(da)) + UpdateCalls(AllTargets(h.man.targets), da))
  {
    UpdateCallsAppend(Values(h.man.waiting, SrcOf(da)), AllTargets(h.man.targets), da);
  }

  // ---- pending writes

  /** What a step does to the target map, as events of its own. */
  datatype TargetEvent = Wrote(item: SrcItem) | Drained | Dropped(targets: set<string>)

  function WritesOf(q: seq<SrcItem>): (xs: seq<TargetEvent>)
    ensures OnlyWrites(xs)
  {
    if q == [] then []
    else WritesOf(q[..|q| - 1]) + if q[|q| - 1].verb.Write? then [Wrote(q[|q| - 1])] else []
  }

  predicate OnlyWrites(xs: seq<TargetEvent>) { forall x :: x in xs && x.Wrote? ==> x.item.verb.Write? }

  /** What is pending is the write that was requested: its listener, value, method, options and channel. */
  predicate IsWriteOf(d: SrcData, i: SrcItem) {
    && i.verb.Write? && d.verb.Write? && d.lis == i.l
    && d.wrVal == i.wrVal && d.options == i.options && d.channel == i.channel
  }

  /** The targets a cancellation removes. */
  function HitTargets(t: map<string, SrcData>, src: string, verb: Verb, l: Listener): set<string> {
    set k | k in t && EntryHits(Entry(k, t[k]), src, verb, l)
  }

  ghost function TargetEvents(h: Http, e: Event, chunk: int): seq<TargetEvent> {
    match e
    case Timer => WritesOf(Chunk(h.man, chunk))
    case Answer(da) => if IsAuthRequest(da) then [] else [Drained]
    case Creds(user) => if user == "" then [Drained] else []
    case Auth(ok, _, _) => if ok then [] else [Drained]
    case AuthFailed(_) => [Drained]
    case Unlinked(src, verb, l) =>
      if |QueueWithout(h.man.queue, src, verb, l)| == |h.man.queue|
      then [Dropped(HitTargets(h.man.targets, src, verb, l))] else []
    case _ => []
  }

  ghost function TargetHistory(es: seq<Event>, chunk: int): seq<TargetEvent>
    decreases |es|
  {
    if es == [] then []
    else
      var front := es[..|es| - 1];
      TargetHistory(front, chunk) + TargetEvents(Run(EMPTY_HTTP, front, chunk), es[|es| - 1], chunk)
  }

  predicate Concerns(x: TargetEvent, t: string) {
    match x
    case Wrote(item) => item.src == t
    case Drained => true
    case Dropped(targets) => t in targets
  }

  /** Event i is the last one of the history that concerns t. */
  ghost predicate IsLast(hist: seq<TargetEvent>, i: nat, t: string) {
    i < |hist| && Concerns(hist[i], t) && forall j :: i < j < |hist| ==> !Concerns(hist[j], t)
  }

  /** m maps each target to its last write, for the targets not drained or dropped since. */
  ghost predicate Explains(hist: seq<TargetEvent>, m: map<string, SrcData>) {
    forall t :: (t in m <==> exists i: nat :: IsLast(hist, i, t) && hist[i].Wrote?)
                && (t in m ==> exists i: nat :: IsLast(hist, i, t) && hist[i].Wrote? && IsWriteOf(m[t], hist[i].item))
  }

  function Apply(m: map<string, SrcData>, x: TargetEvent): map<string, SrcData> {
    match x
    case Wrote(i) => m[i.src := DataOf(i)]
    case Drained => map[]
    case Dropped(ts) => m - ts
  }

  function ApplyAll(m: map<string, SrcData>, xs: seq<TargetEvent>): map<string, SrcData> {
    if xs == [] then m else Apply(ApplyAll(m, xs[..|xs| - 1]), xs[|xs| - 1])
  }

  lemma {:induction false} LastSnoc(hist: seq<TargetEvent>, x: TargetEvent, t: string, i: nat)
    ensures IsLast(hist + [x], i, t) <==> if Concerns(x, t) then i == |hist| else IsLast(hist, i, t)
  {
    if Concerns(x, t) && i < |hist| {
      assert Concerns((hist + [x])[|hist|], t);
    }
    if !Concerns(x, t) && IsLast(hist, i, t) {
      assert (hist + [x])[i] == hist[i];
      forall j | i < j < |hist + [x]| ensures !Concerns((hist + [x])[j], t) {
        if j < |hist| { assert (hist + [x])[j] == hist[j]; }
      }
    }
    if IsLast(hist + [x], i, t) && i < |hist| {
      forall j | i < j < |hist| ensures !Concerns(hist[j], t) { assert (hist + [x])[j] == hist[j]; }
    }
  }

  lemma {:induction false} ApplyExplains(hist: seq<TargetEvent>, m: map<string, SrcData>, x: TargetEvent)
    requires Explains(hist, m) && (x.Wrote? ==> x.item.verb.Write?)
    ensures Explains(hist + [x], Apply(m, x))
  {
    var hist', m' := hist + [x], Apply(m, x);
    forall t
      ensures (t in m' <==> exists i: nat :: IsLast(hist', i, t) && hist'[i].Wrote?)
      ensures t in m' ==> exists i: nat :: IsLast(hist', i, t) && hist'[i].Wrote? && IsWriteOf(m'[t], hist'[i].item)
    {
      forall i: nat ensures IsLast(hist', i, t) <==> if Concerns(x, t) then i == |hist| else IsLast(hist, i, t) {
        LastSnoc(hist, x, t, i);
      }
      if Concerns(x, t) {
        assert IsLast(hist', |hist|, t);
      } else if t in m {
        var i: nat :| IsLast(hist, i, t) && hist[i].Wrote? && IsWriteOf(m[t], hist[i].item);
        assert IsLast(hist', i, t) && hist'[i] == hist[i];
      } else {
        forall i: nat | IsLast(hist', i, t) ensures !hist'[i].Wrote? { assert hist'[i] == hist[i]; }
      }
    }
  }

  lemma {:induction false} ApplyAllExplains(hist: seq<TargetEvent>, m: map<string, SrcData>, xs: seq<TargetEvent>)
    requires Explains(hist, m) && OnlyWrites(xs)
    ensures Explains(hist + xs, ApplyAll(m, xs))
  {
    if xs == [] {
      assert hist + xs == hist;
    } else {
      ApplyAllExplains(hist, m, xs[..|xs| - 1]);
      assert hist + xs == hist + xs[..|xs| - 1] + [xs[|xs| - 1]];
      ApplyExplains(hist + xs[..|xs| - 1], ApplyAll(m, xs[..|xs| - 1]), xs[|xs| - 1]);
    }
  }

  lemma {:induction false} WritesApply(t: map<string, SrcData>, q: seq<SrcItem>)
    ensures Targets(t, q) == ApplyAll(t, WritesOf(q))
  {
    if q != [] {
      WritesApply(t, q[..|q| - 1]);
      var front := WritesOf(q[..|q| - 1]);
      if q[|q| - 1].verb.Write? {
        assert WritesOf(q)[..|front|] == front;
      } else {
        assert WritesOf(q) == front;
      }
    }
  }

  lemma {:induction false} ApplyOne(m: map<string, SrcData>, x: TargetEvent)
    ensures ApplyAll(m, [x]) == Apply(m, x)
  {
    assert [x][..0] == [];
  }

  lemma {:induction false} StepApplies(h: Http, e: Event, chunk: int)
    ensures Step(h, e, chunk).man.targets == ApplyAll(h.man.targets, TargetEvents(h, e, chunk))
  {
    match e
    case Timer => WritesApply(h.man.targets, Chunk(h.man, chunk));
    case Unlinked(src, verb, l) =>
      var hit := HitTargets(h.man.targets, src, verb, l);
      ApplyOne(h.man.targets, Dropped(hit));
      assert TargetsWithout(h.man.targets, src, verb, l) == h.man.targets - hit;
    case _ => ApplyOne(h.man.targets, Drained);
  }

  /**
   * In every run the target map holds, for each target, the last write dispatched to it, unless the map was
   * drained or the target cancelled after that write.
   */
  lemma {:induction false} TargetsAreLastWrites(es: seq<Event>, chunk: int)
    ensures Explains(TargetHistory(es, chunk), Run(EMPTY_HTTP, es, chunk).man.targets)
    decreases |es|
  {
    if es != [] {
      var front, e := es[..|es| - 1], es[|es| - 1];
      TargetsAreLastWrites(front, chunk);
      var h := Run(EMPTY_HTTP, front, chunk);
      StepApplies(h, e, chunk);
      ApplyAllExplains(TargetHistory(front, chunk), h.man.targets, TargetEvents(h, e, chunk));
    }
  }

  /** After a successful authorisation one bundle is posted: one write per pending target; nothing else changes. */
  lemma {:induction false} AuthorisedRepostsAll(h: Http, user: string, message: string)
    ensures var h' := AuthReply(h, true, user, message);
            && h'.man == h.man && h'.chan == h.chan && h'.calls == h.calls
            && h'.gate.posts == h.gate.posts + [XecPost(Rebuild(h.man.targets))]
            && |Rebuild(h.man.targets)| == |h.man.targets|
            && (forall t :: t in h.man.targets ==> exists i :: i in Rebuild(h.man.targets) && i.src == t)
            && (forall i :: i in Rebuild(h.man.targets) ==>
                              i.src in h.man.targets
                              && var d := h.man.targets[i.src];
                                 i.l == d.lis && i.verb == d.verb && i.wrVal == d.wrVal && i.options == d.options)
  {
    RebuildIsExact(h.man.targets);
    forall t | t in h.man.targets ensures exists i :: i in Rebuild(h.man.targets) && i.src == t {
      var j :| 0 <= j < |h.man.targets| && Rebuild(h.man.targets)[j].src == t;
      assert Rebuild(h.man.targets)[j] in Rebuild(h.man.targets);
    }
  }

  /** The last event of the history that concerns t is a write to it. */
  ghost predicate LastWritten(hist: seq<TargetEvent>, t: string) {
    exists i: nat :: IsLast(hist, i, t) && hist[i].Wrote?
  }

  lemma {:induction false} Reposted(h: Http, user: string, message: string, t: string)
    ensures AuthReply(h, true, user, message).gate.posts == h.gate.posts + [XecPost(Rebuild(h.man.targets))]
    ensures (exists i :: i in Rebuild(h.man.targets) && i.src == t) <==> t in h.man.targets
  {
    AuthorisedRepostsAll(h, user, message);
  }

  predicate SameWrite(i: SrcItem, x: SrcItem) {
    i.src == x.src && i.l == x.l && i.verb == x.verb && i.wrVal == x.wrVal && i.options == x.options
  }

  /** The last event of the history that concerns i's target is the write i. */
  ghost predicate IsLastWrite(hist: seq<TargetEvent>, i: SrcItem) {
    exists n: nat :: IsLast(hist, n, i.src) && hist[n].Wrote? && SameWrite(i, hist[n].item)
  }

  /** What an authorisation posts for a target is the last write to it. */
  lemma {:induction false} RepostIsLast(es: seq<Event>, i: SrcItem, chunk: int)
    requires i in Rebuild(Run(EMPTY_HTTP, es, chunk).man.targets)
    ensures IsLastWrite(TargetHistory(es, chunk), i)
  {
    TargetsAreLastWrites(es, chunk);
    RebuiltIsLast(TargetHistory(es, chunk), Run(EMPTY_HTTP, es, chunk).man.targets, i);
  }

  lemma {:induction false} RebuiltIsLast(hist: seq<TargetEvent>, m: map<string, SrcData>, i: SrcItem)
    requires Explains(hist, m) && i in Rebuild(m)
    ensures IsLastWrite(hist, i)
  {
    var j := RebuiltFrom(m, i);
    var n: nat :| IsLast(hist, n, i.src) && hist[n].Wrote? && IsWriteOf(m[i.src], hist[n].item);
    assert SameWrite(i, hist[n].item);
  }

  lemma {:induction false} RebuiltFrom(m: map<string, SrcData>, i: SrcItem) returns (j: nat)
    requires i in Rebuild(m)
    ensures i.src in m && i == RebuildItem(i.src, m[i.src])
  {
    RebuildAt(m);
    j :| 0 <= j < |Rebuild(m)| && Rebuild(m)[j] == i;
  }

  /**
   * In every run, an authorisation posts again the writes to just those targets whose last write was neither
   * answered, failed nor cancelled since its dispatch.
   */
  lemma {:induction false} RepostIff(es: seq<Event>, user: string, message: string, t: string, chunk: int)
    ensures var h := Run(EMPTY_HTTP, es, chunk);
            var posts := AuthReply(h, true, user, message).gate.posts;
            && posts == h.gate.posts + [XecPost(Rebuild(h.man.targets))]
            && ((exists i :: i in Rebuild(h.man.targets) && i.src == t) <==> LastWritten(TargetHistory(es, chunk), t))
  {
    TargetsAreLastWrites(es, chunk);
    Reposted(Run(EMPTY_HTTP, es, chunk), user, message, t);
  }

  lemma {:induction false} UpdateCallsHas(ds: seq<SrcData>, da: CuData, d: SrcData)
    requires d in ds && d.lis != NULL_LISTENER && !d.verb.Unsubscribe?
    ensures Call(d.lis, da) in UpdateCalls(ds, da)
  {
    if d != ds[|ds| - 1] { UpdateCallsHas(ds[..|ds| - 1], da, d); }
  }

  lemma {:induction false} TargetIsAnswered(h: Http, da: CuData, t: string)
    requires t in h.man.targets
    ensures h.man.targets[t] in Answered(h, da)
  {
    var ts := h.man.targets;
    SortedKeysCover(ts.Keys);
    var j :| 0 <= j < |SortedKeys(ts.Keys)| && SortedKeys(ts.Keys)[j] == t;
    assert AllTargets(ts)[j] == ts[t];
    assert ts[t] in AllTargets(ts);
  }

  /**
   * The first reply that asks for no authorisation answers every pending write, whatever source it is for; an
   * authorisation that comes after it posts nothing again.
   */
  lemma {:induction false} AnyReplyEndsWrites(h: Http, da: CuData, user: string, message: string, t: string)
    requires !IsAuthRequest(da) && t in h.man.targets && TargetsAreWrites(h) && h.man.targets[t].lis != NULL_LISTENER
    ensures var h' := Reply(h, da);
            && h.calls <= h'.calls && Call(h.man.targets[t].lis, da) in h'.calls[|h.calls|..]
            && AuthReply(h', true, user, message).gate.posts == h.gate.posts + [XecPost([])]
  {
    var cs := UpdateCalls(Answered(h, da), da);
    TargetIsAnswered(h, da, t);
    UpdateCallsHas(Answered(h, da), da, h.man.targets[t]);
    assert (h.calls + cs)[|h.calls|..] == cs;
    RebuildIsExact(map[]);
  }

  lemma {:induction false} OneWrite(i: SrcItem)
    requires i.verb.Write?
    ensures var h := Timeout(EMPTY_HTTP.(man := Enqueue(EMPTY_MAN, i)), 100);
            h.man.targets == map[i.src := DataOf(i)] && h.gate.posts == [XecPost([i])] && h.calls == []
  {
    assert Chunk(Enqueue(EMPTY_MAN, i), 100) == [i] && [] + [i] == [i];
    Snoc(map[], [], i);
  }

  lemma {:induction false} WriteDispatched(i: SrcItem)
    requires i.verb.Write?
    ensures var h := Run(EMPTY_HTTP, [Request(i), Timer], 100);
            h.man.targets == map[i.src := DataOf(i)] && h.gate.posts == [XecPost([i])] && h.calls == []
  {
    assert [Request(i), Timer][..1] == [Request(i)] && [Request(i)][..0] == [];
    assert Run(EMPTY_HTTP, [Request(i)], 100) == Step(EMPTY_HTTP, Request(i), 100);
    OneWrite(i);
  }

  /** So a write can be lost: the reply for another source comes before the authorisation of the write. */
  lemma {:induction false} WriteIsLost(i: SrcItem, da: CuData, user: string, message: string)
    requires i.verb.Write? && i.l != NULL_LISTENER && !IsAuthRequest(da) && SrcOf(da) != i.src
    ensures var h := Run(EMPTY_HTTP, [Request(i), Timer] + [Answer(da)] + [Auth(true, user, message)], 100);
            h.gate.posts == [XecPost([i]), XecPost([])] && Call(i.l, da) in h.calls
  {
    var start, h := [Request(i), Timer], Run(EMPTY_HTTP, [Request(i), Timer], 100);
    WriteDispatched(i);
    AnyReplyEndsWrites(h, da, user, message, i.src);
    assert (start + [Answer(da)])[..2] == start;
    assert (start + [Answer(da)] + [Auth(true, user, message)])[..3] == start + [Answer(da)];
  }

  lemma {:induction false} ErrorCallsCount(t: map<string, SrcData>, ks: seq<string>, msg: string, extra: CuData,
          k: string)
    requires Distinct(ks) && k in t && t[k].lis != NULL_LISTENER && "src" !in extra
    ensures multiset(ErrorCalls(t, ks, msg, extra))[Call(t[k].lis, WriteError(msg, extra, k))]
            == if k in ks then 1 else 0
  {
    if ks != [] {
      var front, x := ks[..|ks| - 1], ks[|ks| - 1];
      ErrorCallsCount(t, front, msg, extra, k);
      assert ks == front + [x];
      assert WriteError(msg, extra, k)["src"] == Scalar(k) && WriteError(msg, extra, x)["src"] == Scalar(x);
    }
  }

  lemma {:induction false} ErrorCallsOnly(t: map<string, SrcData>, ks: seq<string>, msg: string, extra: CuData)
    ensures forall c :: c in ErrorCalls(t, ks, msg, extra) ==>
                          exists k :: k in ks && k in t && t[k].lis != NULL_LISTENER
                              && c == Call(t[k].lis, WriteError(msg, extra, k))
  {
    if ks != [] {
      ErrorCallsOnly(t, ks[..|ks| - 1], msg, extra);
    }
  }

  /** A refused or failed authorisation tells each pending write's listener once, nobody else, and empties the map. */
  lemma {:induction false} FailureNotifiesEachTarget(h: Http, msg: string, extra: CuData, k: string)
    requires "src" !in extra
    ensures var h' := FailTargets(h, msg, extra);
            && h'.man.targets == map[] && h'.man.queue == h.man.queue && h'.man.waiting == h.man.waiting
            && h'.calls == h.calls + AllErrorCalls(h.man.targets, msg, extra)
            && (k in h.man.targets && h.man.targets[k].lis != NULL_LISTENER ==>
                  var c := Call(h.man.targets[k].lis, WriteError(msg, extra, k));
                  multiset(AllErrorCalls(h.man.targets, msg, extra))[c] == 1)
            && (forall c :: c in AllErrorCalls(h.man.targets, msg, extra) ==>
                              exists t :: t in h.man.targets
                                  && c == Call(h.man.targets[t].lis, WriteError(msg, extra, t)))
  {
    var ks := SortedKeys(h.man.targets.Keys);
    SortedKeysEnumerate(h.man.targets.Keys);
    ErrorCallsOnly(h.man.targets, ks, msg, extra);
    if k in h.man.targets && h.man.targets[k].lis != NULL_LISTENER {
      ErrorCallsCount(h.man.targets, ks, msg, extra, k);
    }
  }
}
