/**
 * One request from its making to its answer: what a reply does, in terms of its fields; what the engine keeps of a
 * request in every run; and how a request of each kind ends when it is alone.
 */
module RequestLife {
  import opened Bundle
  import opened Channel
  import opened HttpEngine
  import opened HttpRuns
  import opened HttpTypes
  import opened Seqs
  import opened SrcMan

  // ---- what a reply does

  /** The gateway asks for an authorisation before it writes. */
  predicate AsksToAuthorise(da: CuData) {
    "auth_url" in da && "method" in da && (da["method"] == Scalar("write") || da["method"] == Vector(["write"]))
  }

  /** Only one word joins to a word without a comma. */
  lemma {:induction false} JoinsToWord(items: seq<string>, word: string)
    requires ',' !in word && word != ""
    ensures Join(items) == word <==> items == [word]
  {
    if |items| > 1 { assert Join(items)[|items[0]|] == ','; }
  }

  lemma {:induction false} AuthorisationIff(da: CuData)
    ensures IsAuthRequest(da) <==> AsksToAuthorise(da)
  {
    if "method" in da && da["method"].Vector? { JoinsToWord(da["method"].items, "write"); }
  }

  /** A reply that asks for an authorisation calls nobody and leaves every request waiting. */
  lemma {:induction false} AuthorisationWaits(h: Http, da: CuData)
    requires AsksToAuthorise(da)
    ensures Reply(h, da) == h
  {
    AuthorisationIff(da);
  }

  /** The name a reply is about. */
  predicate About(da: CuData, src: string) { if "src" in da then da["src"] == Scalar(src) else src == "" }

  /** The waiting reads of src that an answer updates l for. */
  function ReadsFor(w: seq<Entry>, src: string, l: Listener): nat {
    |Filter((e: Entry) => e.key == src && e.data.lis == l && e.data.verb != Unsubscribe, w)|
  }

  /** The targets among ks with a pending write of l. */
  function TargetsFor(t: map<string, SrcData>, ks: seq<string>, l: Listener): set<string> {
    set k | k in ks && k in t && t[k].lis == l && t[k].verb != Unsubscribe
  }

  function WritesFor(t: map<string, SrcData>, l: Listener): nat {
    |set k | k in t && t[k].lis == l && t[k].verb != Unsubscribe|
  }

  lemma {:induction false} UpdatesAreReads(w: seq<Entry>, src: string, l: Listener)
    ensures UpdatesFor(w, src, l) == ReadsFor(w, src, l)
  {
    if w != [] { UpdatesAreReads(w[..|w| - 1], src, l); }
  }

  lemma {:induction false} TargetsForSnoc(t: map<string, SrcData>, ks: seq<string>, k: string, l: Listener)
    requires k in t && k !in ks
    ensures |TargetsFor(t, ks + [k], l)|
            == |TargetsFor(t, ks, l)| + if t[k].lis == l && t[k].verb != Unsubscribe then 1 else 0
  {
    var before, after := TargetsFor(t, ks, l), TargetsFor(t, ks + [k], l);
    assert k !in before && after == if t[k].lis == l && t[k].verb != Unsubscribe then before + {k} else before;
  }

  /** The requests that an answer updates l for. */
  function Asking(ds: seq<SrcData>, l: Listener): nat {
    |Filter((d: SrcData) => d.lis == l && d.verb != Unsubscribe, ds)|
  }

  lemma {:induction false} CallsAreAsked(ds: seq<SrcData>, da: CuData, l: Listener)
    requires l != NULL_LISTENER
    ensures multiset(UpdateCalls(ds, da))[Call(l, da)] == Asking(ds, l)
  {
    if ds != [] { CallsAreAsked(ds[..|ds| - 1], da, l); }
  }

  lemma {:induction false} AskingTargets(t: map<string, SrcData>, ks: seq<string>, l: Listener)
    requires Distinct(ks) && forall k :: k in ks ==> k in t
    ensures Asking(DataAt(t, ks), l) == |TargetsFor(t, ks, l)|
  {
    if ks != [] {
      var front, last := ks[..|ks| - 1], ks[|ks| - 1];
      assert ks == front + [last] && last in ks && last !in front;
      AskingTargets(t, front, l);
      TargetsForSnoc(t, front, last, l);
      FilterSnoc((d: SrcData) => d.lis == l && d.verb != Unsubscribe, DataAt(t, front), t[last]);
    }
  }

  lemma {:induction false} SameTargets(t: map<string, SrcData>, ks: seq<string>, l: Listener)
    requires forall k :: k in ks <==> k in t
    ensures |TargetsFor(t, ks, l)| == WritesFor(t, l)
  {
    assert TargetsFor(t, ks, l) == set k | k in t && t[k].lis == l && t[k].verb != Unsubscribe;
  }

  lemma {:induction false} CallsOfAllTargets(t: map<string, SrcData>, da: CuData, l: Listener)
    requires l != NULL_LISTENER
    ensures multiset(UpdateCalls(AllTargets(t), da))[Call(l, da)] == WritesFor(t, l)
  {
    SortedKeysEnumerate(t.Keys);
    AskingTargets(t, SortedKeys(t.Keys), l);
    SameTargets(t, SortedKeys(t.Keys), l);
    CallsAreAsked(AllTargets(t), da, l);
  }

  /**
   * Any other reply takes the waiting reads of its source and every pending write, and calls each listener once for
   * each of them that is not an unsubscription.
   */
  lemma {:induction false} ReplyTakes(h: Http, da: CuData, src: string, l: Listener)
    requires !AsksToAuthorise(da) && About(da, src) && l != NULL_LISTENER
    ensures var h' := Reply(h, da);
            && h'.man.targets == map[] && h'.man.queue == h.man.queue && h'.gate == h.gate
            && (forall e :: multiset(h'.man.waiting)[e] == if e.key == src then 0 else multiset(h.man.waiting)[e])
            && h.calls <= h'.calls
            && multiset(h'.calls[|h.calls|..])[Call(l, da)]
               == ReadsFor(h.man.waiting, src, l) + WritesFor(h.man.targets, l)
  {
    AuthorisationIff(da);
    ReplyAnswersOnce(h, da, l);
    UpdatesAreReads(h.man.waiting, src, l);
    CallsOfAllTargets(h.man.targets, da, l);
    forall e
      ensures multiset(WithoutKey(h.man.waiting, src))[e] == if e.key == src then 0 else multiset(h.man.waiting)[e]
    {
      FilterCount((x: Entry) => x.key != src, h.man.waiting, e);
    }
  }

  function Answers(das: seq<CuData>): (es: seq<Event>)
    ensures |es| == |das| && forall k :: 0 <= k < |das| ==> es[k] == Answer(das[k])
  {
    if das == [] then [] else Answers(das[..|das| - 1]) + [Answer(das[|das| - 1])]
  }

  /** The elements of one reply are handled one after the other, each in the state the previous one left. */
  lemma {:induction false} RepliesInTurn(h: Http, das: seq<CuData>, chunk: int)
    ensures Replies(h, das) == Run(h, Answers(das), chunk)
  {
    if das != [] {
      RepliesInTurn(h, das[..|das| - 1], chunk);
      assert Answers(das)[..|das| - 1] == Answers(das[..|das| - 1]);
    }
  }

  /** The three ways a write fails to be authorised: what is said, and to whom it is said. */
  ghost predicate Fails(h: Http, h': Http, told: map<string, CuData>) {
    && h'.man == h.man.(targets := map[]) && h'.gate == h.gate && h'.chan == h.chan && h.calls <= h'.calls
    && told.Keys == h.man.targets.Keys
    && (forall t :: t in told && h.man.targets[t].lis != NULL_LISTENER ==>
          multiset(h'.calls[|h.calls|..])[Call(h.man.targets[t].lis, told[t])] == 1)
    && (forall c :: c in h'.calls[|h.calls|..] ==>
          exists t :: t in told && c == Call(h.man.targets[t].lis, told[t]) && c.lis != NULL_LISTENER)
  }

  lemma {:induction false} FailureTells(h: Http, msg: string, extra: CuData, told: map<string, CuData>)
    requires "src" !in extra && told.Keys == h.man.targets.Keys
    requires forall t :: t in told ==> told[t] == WriteError(msg, extra, t)
    ensures Fails(h, FailTargets(h, msg, extra), told)
  {
    var h' := FailTargets(h, msg, extra);
    var ks := SortedKeys(h.man.targets.Keys);
    assert h'.calls[|h.calls|..] == AllErrorCalls(h.man.targets, msg, extra);
    SortedKeysEnumerate(h.man.targets.Keys);
    ErrorCallsOnly(h.man.targets, ks, msg, extra);
    forall t | t in told && h.man.targets[t].lis != NULL_LISTENER
      ensures multiset(h'.calls[|h.calls|..])[Call(h.man.targets[t].lis, told[t])] == 1
    {
      FailureNotifiesEachTarget(h, msg, extra, t);
    }
  }

  /** What the listener of a failed write is told. */
  function Told(msg: string, t: string): CuData {
    map["msg" := Scalar(msg), "err" := Scalar("true"), "is_result" := Scalar("true"), "src" := Scalar(t)]
  }

  /** An empty user name fails every pending write, and says so; any other lets them wait. */
  lemma {:induction false} EmptyUserFails(h: Http, user: string)
    ensures user != "" ==> CredsReady(h, user) == h
    ensures user == "" ==> Fails(h, CredsReady(h, user), map t | t in h.man.targets :: Told("invalid user name", t))
  {
    FailureTells(h, "invalid user name", map[], map t | t in h.man.targets :: Told("invalid user name", t));
  }

  /** A refused authorisation fails every pending write with the message of the refusal and the user's name. */
  lemma {:induction false} RefusalFails(h: Http, user: string, msg: string)
    ensures Fails(h, AuthReply(h, false, user, msg),
                  map t | t in h.man.targets :: Told(msg, t)["user" := Scalar(user)])
  {
    FailureTells(h, msg, map["user" := Scalar(user)],
                 map t | t in h.man.targets :: Told(msg, t)["user" := Scalar(user)]);
  }

  /** And so does an authorisation that cannot be asked for, without the user's name. */
  lemma {:induction false} AuthErrorFails(h: Http, msg: string)
    ensures Fails(h, AuthError(h, msg), map t | t in h.man.targets :: Told(msg, t))
  {
    FailureTells(h, msg, map[], map t | t in h.man.targets :: Told(msg, t));
  }

  // ---- what the engine keeps of a request

  /** The entry has the listener, the method, the channel and the options of the request. */
  predicate Keeps(d: SrcData, i: SrcItem) {
    d.lis == i.l && d.verb == i.verb && d.channel == i.channel && d.options == i.options
  }

  ghost predicate ReadAsked(es: seq<Event>, e: Entry) {
    exists i :: Request(i) in es && i.src == e.key && i.verb != Write && Keeps(e.data, i)
  }

  ghost predicate WriteAsked(es: seq<Event>, t: string, d: SrcData) {
    exists i :: Request(i) in es && i.src == t && i.verb == Write && Keeps(d, i) && d.wrVal == i.wrVal
  }

  ghost predicate AllAsked(es: seq<Event>, h: Http) {
    && (forall i :: i in h.man.queue ==> Request(i) in es)
    && (forall e :: e in h.man.waiting ==> ReadAsked(es, e))
    && (forall t :: t in h.man.targets ==> WriteAsked(es, t, h.man.targets[t]))
  }

  lemma {:induction false} TickAsked(es: seq<Event>, h: Http, chunk: int)
    requires AllAsked(es, h)
    ensures AllAsked(es, Timeout(h, chunk))
  {
    var done, h' := Chunk(h.man, chunk), Timeout(h, chunk);
    EntriesOf(done);
    TargetsOf(h.man.targets, done);
    assert forall i :: i in done ==> Request(i) in es;
    forall e | e in h'.man.waiting ensures ReadAsked(es, e) {
      if e !in h.man.waiting {
        var i :| i in done && !i.verb.Write? && e == Entry(i.src, DataOf(i));
        assert Request(i) in es && Keeps(e.data, i);
      }
    }
    forall t | t in h'.man.targets ensures WriteAsked(es, t, h'.man.targets[t]) {
      if !(t in h.man.targets && h'.man.targets[t] == h.man.targets[t]) {
        var i :| i in done && i.verb.Write? && i.src == t && h'.man.targets[t] == DataOf(i);
        assert Request(i) in es && Keeps(h'.man.targets[t], i);
      }
    }
  }

  lemma {:induction false} AskedStays(es: seq<Event>, x: Event, h: Http)
    requires AllAsked(es, h)
    ensures AllAsked(es + [x], h)
  {
    forall e | e in h.man.waiting ensures ReadAsked(es + [x], e) {
      var i :| Request(i) in es && i.src == e.key && i.verb != Write && Keeps(e.data, i);
      assert Request(i) in es + [x];
    }
    forall t | t in h.man.targets ensures WriteAsked(es + [x], t, h.man.targets[t]) {
      var d := h.man.targets[t];
      var i :| Request(i) in es && i.src == t && i.verb == Write && Keeps(d, i) && d.wrVal == i.wrVal;
      assert Request(i) in es + [x];
    }
  }

  lemma {:induction false} StepAsked(es: seq<Event>, h: Http, x: Event, chunk: int)
    requires AllAsked(es, h) && (x.Request? ==> x in es)
    ensures AllAsked(es, Step(h, x, chunk))
  {
    match x
    case Timer => TickAsked(es, h, chunk);
    case Unlinked(src, verb, l) =>
      QueueWithoutMembers(h.man.queue, src, verb, l);
      FilterMembers((e: Entry) => !EntryHits(e, src, verb, l), h.man.waiting);
    case Answer(da) => WithoutKeyIn(h.man.waiting, SrcOf(da));
    case _ =>
  }

  /**
   * In every run whatever waits was requested: each waiting read with its source, listener, method, channel and
   * options, each pending write with its target, listener, channel, options and the value to write.
   */
  lemma {:induction false} PendingWasAsked(es: seq<Event>, chunk: int)
    ensures AllAsked(es, Run(EMPTY_HTTP, es, chunk))
    decreases |es|
  {
    if es != [] {
      var front, x := es[..|es| - 1], es[|es| - 1];
      PendingWasAsked(front, chunk);
      assert es == front + [x];
      AskedStays(front, x, Run(EMPTY_HTTP, front, chunk));
      StepAsked(es, Run(EMPTY_HTTP, front, chunk), x, chunk);
    }
  }

  /** Every write was made without a channel, as the constructor makes it. */
  ghost predicate PlainWrites(es: seq<Event>) { forall i :: Request(i) in es && i.verb == Write ==> i.channel == "" }

  /** An authorisation posts again nothing but requests of the run, each just as it was made. */
  lemma {:induction false} RepostsAsMade(es: seq<Event>, chunk: int)
    requires PlainWrites(es)
    ensures forall i :: i in Rebuild(Run(EMPTY_HTTP, es, chunk).man.targets) ==> Request(i) in es
  {
    var t := Run(EMPTY_HTTP, es, chunk).man.targets;
    PendingWasAsked(es, chunk);
    RebuildAt(t);
    forall i | i in Rebuild(t) ensures Request(i) in es {
      var j :| 0 <= j < |Rebuild(t)| && Rebuild(t)[j] == i;
      var k := SortedKeys(t.Keys)[j];
      assert i == RebuildItem(k, t[k]) && WriteAsked(es, k, t[k]);
      var x :| Request(x) in es && x.src == k && x.verb == Write && Keeps(t[k], x) && t[k].wrVal == x.wrVal;
      assert i == x;
    }
  }

  // ---- a request alone

  /** The engine after one request and one tick. */
  ghost function Sent(i: SrcItem): Http { Timeout(EMPTY_HTTP.(man := Enqueue(EMPTY_MAN, i)), 100) }

  lemma {:induction false} SentRun(i: SrcItem, rest: seq<Event>)
    ensures Run(EMPTY_HTTP, [Request(i), Timer] + rest, 100) == Run(Sent(i), rest, 100)
  {
    assert [Request(i), Timer][..1] == [Request(i)] && [Request(i)][..0] == [];
    assert Run(EMPTY_HTTP, [Request(i)], 100) == Step(EMPTY_HTTP, Request(i), 100);
    RunAppend(EMPTY_HTTP, [Request(i), Timer], rest, 100);
  }

  lemma {:induction false} OneChunk(i: SrcItem)
    ensures var m := Enqueue(EMPTY_MAN, i); Chunk(m, 100) == [i] && Tick(m, 100).queue == []
    ensures Entries([i]) == if i.verb.Write? then [] else [Entry(i.src, DataOf(i))]
    ensures Targets(map[], [i]) == if i.verb.Write? then map[i.src := DataOf(i)] else map[]
    ensures Reads([i]) == (if i.verb.Write? then [] else [i]) && Writes([i]) == if i.verb.Write? then [i] else []
  {
    assert Chunk(Enqueue(EMPTY_MAN, i), 100) == [i] && [] + [i] == [i];
    Snoc(map[], [], i);
  }

  lemma {:induction false} ReadSent(src: string, l: Listener, verb: Verb, chan: string, options: CuData)
    requires !verb.Write?
    ensures var i := MakeItem(src, l, verb, chan, Invalid, options);
            var h := Sent(i);
            && h.man.queue == [] && h.man.targets == map[] && h.chan == [] && h.calls == []
            && |h.man.waiting| == 1 && h.man.waiting == [Entry(src, h.man.waiting[0].data)]
            && h.man.waiting[0].data.lis == l && h.man.waiting[0].data.verb == verb
            && h.gate == if verb in {Subscribe, SubscribeAlt, Unsubscribe} then Gate(0, [i], [], 1, [])
                         else Gate(0, [], [], 0, [SrcPost([i], 0)])
  {
    var i := MakeItem(src, l, verb, chan, Invalid, options);
    OneChunk(i);
    assert [i][..0] == [] && (NeedClientId([i]) <==> verb in {Subscribe, SubscribeAlt, Unsubscribe});
    assert Sent(i).gate == BundleReady(EMPTY_GATE, [i], []);
    var none: seq<SrcItem> := [];
    assert none + [i] == [i] && none + none == none;
  }

  /** What one answer to one waiting request does. */
  lemma {:induction false} OneAnswer(h: Http, da: CuData, src: string, d: SrcData)
    requires h.man.waiting == [Entry(src, d)] && h.man.targets == map[]
    requires !AsksToAuthorise(da) && About(da, src) && d.lis != NULL_LISTENER
    ensures var h' := Reply(h, da);
            && h'.man == h.man.(waiting := []) && h'.gate == h.gate
            && h'.calls == h.calls + (if d.verb == Unsubscribe then [] else [Call(d.lis, da)])
            && (d.verb in {Subscribe, SubscribeAlt} ==> h'.chan == h.chan + [Sub(src, d.lis)])
            && (d.verb == Unsubscribe ==>
                  forall x :: multiset(h'.chan)[x] == if x.lis == d.lis then 0 else multiset(h.chan)[x])
            && (d.verb !in {Subscribe, SubscribeAlt, Unsubscribe} ==> h'.chan == h.chan)
  {
    AuthorisationIff(da);
    OneWaiting(src, d);
    var ds := Answered(h, da);
    assert AllTargets(map[]) == [] && ds == [d] && [d][..0] == [];
    UpdateCallsOne(d, da);
    OneUpdate(h.chan, src, d);
  }

  lemma {:induction false} OneWaiting(src: string, d: SrcData)
    ensures Values([Entry(src, d)], src) == [d] && WithoutKey([Entry(src, d)], src) == []
  {
    assert [Entry(src, d)][..0] == [];
  }

  lemma {:induction false} OneUpdate(chan: seq<Sub>, src: string, d: SrcData)
    ensures var chan' := UpdateChan(chan, [d], src);
            && (d.verb in {Subscribe, SubscribeAlt} ==> chan' == chan + [Sub(src, d.lis)])
            && (d.verb == Unsubscribe ==>
                  forall x :: multiset(chan')[x] == if x.lis == d.lis then 0 else multiset(chan)[x])
            && (d.verb !in {Subscribe, SubscribeAlt, Unsubscribe} ==> chan' == chan)
  {
    assert [d][..0] == [];
    forall x ensures multiset(WithoutListener(chan, d.lis))[x] == if x.lis == d.lis then 0 else multiset(chan)[x] {
      WithoutListenerCount(chan, d.lis, x);
    }
  }

  /**
   * A read, a subscription or an unsubscription is posted, at once unless it needs a client id; its answer calls its
   * listener, unless it is an unsubscription, and puts it on the channel exactly if it is a subscription.
   */
  lemma {:induction false} ReadEnds(src: string, l: Listener, verb: Verb, chan: string, options: CuData, da: CuData)
    requires !verb.Write? && l != NULL_LISTENER && !AsksToAuthorise(da) && About(da, src)
    ensures var i := MakeItem(src, l, verb, chan, Invalid, options);
            var h := Run(EMPTY_HTTP, [Request(i), Timer] + [Answer(da)], 100);
            && h.man.queue == [] && h.man.waiting == [] && h.man.targets == map[]
            && h.gate == (if verb in {Subscribe, SubscribeAlt, Unsubscribe} then Gate(0, [i], [], 1, [])
                          else Gate(0, [], [], 0, [SrcPost([i], 0)]))
            && h.calls == (if verb == Unsubscribe then [] else [Call(l, da)])
            && h.chan == if verb in {Subscribe, SubscribeAlt} then [Sub(src, l)] else []
  {
    var i := MakeItem(src, l, verb, chan, Invalid, options);
    SentRun(i, [Answer(da)]);
    LastRun(Sent(i), da);
    ReadSent(src, l, verb, chan, options);
    OneAnswer(Sent(i), da, src, Sent(i).man.waiting[0].data);
  }

  lemma {:induction false} WriteSent(t: string, l: Listener, value: Variant, options: CuData)
    ensures var i := MakeItem(t, l, Write, "", value, options);
            var h := Sent(i);
            && h.man.queue == [] && h.man.waiting == [] && h.man.targets.Keys == {t} && h.chan == [] && h.calls == []
            && Rebuild(h.man.targets) == [i] && h.man.targets[t].lis == l && h.man.targets[t].verb == Write
            && h.gate == Gate(0, [], [], 0, [XecPost([i])])
  {
    var i := MakeItem(t, l, Write, "", value, options);
    OneChunk(i);
    RebuildOne(t, DataOf(i));
  }

  lemma {:induction false} RebuildOne(t: string, d: SrcData)
    ensures Rebuild(map[t := d]) == [RebuildItem(t, d)] && AllTargets(map[t := d]) == [d]
  {
    var m := map[t := d];
    SortedKeysEnumerate(m.Keys);
    assert |m.Keys| == 1 by { assert m.Keys == {t}; }
    RebuildAt(m);
    assert SortedKeys(m.Keys)[0] in m.Keys;
    assert SortedKeys(m.Keys) == [t] && DataAt(m, [t]) == [d];
  }

  /**
   * A write that needs an authorisation: its reply calls nobody, the authorisation posts the same write again, and
   * the reply to that calls its listener.
   */
  lemma {:induction false} WriteEnds(t: string, l: Listener, value: Variant, options: CuData, ask: CuData,
          user: string, msg: string, da: CuData)
    requires l != NULL_LISTENER && AsksToAuthorise(ask) && !AsksToAuthorise(da)
    ensures var i := MakeItem(t, l, Write, "", value, options);
            var start := [Request(i), Timer] + [Answer(ask), Auth(true, user, msg)];
            && i.src == t && i.l == l && i.verb == Write && i.wrVal == value && i.options == options
            && Run(EMPTY_HTTP, start, 100).gate.posts == [XecPost([i]), XecPost([i])]
            && Run(EMPTY_HTTP, start, 100).calls == []
            && Run(EMPTY_HTTP, start + [Answer(da)], 100).calls == [Call(l, da)]
  {
    var i := MakeItem(t, l, Write, "", value, options);
    var mid := [Answer(ask), Auth(true, user, msg)];
    var h := AuthReply(Sent(i), true, user, msg);
    WriteSent(t, l, value, options);
    SentRun(i, mid);
    MidRun(Sent(i), ask, user, msg);
    RunAppend(EMPTY_HTTP, [Request(i), Timer] + mid, [Answer(da)], 100);
    LastRun(h, da);
    WriteAnswered(h, t, da);
  }

  lemma {:induction false} MidRun(h: Http, ask: CuData, user: string, msg: string)
    requires AsksToAuthorise(ask)
    ensures var h' := Run(h, [Answer(ask), Auth(true, user, msg)], 100);
            h' == AuthReply(h, true, user, msg) && h'.gate.posts == h.gate.posts + [XecPost(Rebuild(h.man.targets))]
  {
    var mid := [Answer(ask), Auth(true, user, msg)];
    assert mid[..1] == [Answer(ask)];
    AuthorisationWaits(h, ask);
    LastRun(h, ask);
  }

  lemma {:induction false} LastRun(h: Http, da: CuData)
    ensures Run(h, [Answer(da)], 100) == Reply(h, da)
  {
    assert [Answer(da)][..0] == [];
  }

  lemma {:induction false} WriteAnswered(h: Http, t: string, da: CuData)
    requires h.man.waiting == [] && h.man.targets.Keys == {t} && h.calls == [] && !AsksToAuthorise(da)
    requires h.man.targets[t].lis != NULL_LISTENER && h.man.targets[t].verb == Write
    ensures Reply(h, da).calls == [Call(h.man.targets[t].lis, da)]
  {
    var d := h.man.targets[t];
    AuthorisationIff(da);
    RebuildOne(t, d);
    assert h.man.targets == map[t := d] && Values([], SrcOf(da)) == [];
    assert Answered(h, da) == [d];
    UpdateCallsOne(d, da);
    assert [] + UpdateCalls([d], da) == UpdateCalls([d], da);
  }

  // ---- one request on the wire

  /**
   * What a single request looks like when it is posted: its name and its method, its listener left out, the channel
   * of a subscription or an unsubscription, and the client id if there is one.
   */
  lemma {:induction false} OnTheWire(src: string, l: Listener, verb: Verb, chan: string, options: CuData, id: nat)
    requires !verb.Write?
    ensures var srcs := [MakeItem(src, l, verb, chan, Invalid, options)];
            var root, o := Payload("", srcs, id), PackedItem(srcs, 0);
            && "srcs" in root && root["srcs"] == JArray([JObject(o)]) && "src" in o && o["src"] == JString(src)
            && ("channel" in root <==> verb in {Subscribe, Unsubscribe} && chan != "")
            && ("channel" in root ==> root["channel"] == JString(chan))
            && (o.Keys - {"channel"} == (options.Keys + {"src", "method", "options"}) - {"channel"})
  {
    var srcs := [MakeItem(src, l, verb, chan, Invalid, options)];
    assert srcs[..0] == [];
    PackedRoot(srcs, id);
    PackedSource(srcs, 0);
    assert FirstChannel(srcs, 0) <==> srcs[0].channel != "";
  }

  /** A bundle waits for a client id exactly if one of its requests is called "s", "u" or "S" on the wire. */
  lemma {:induction false} IdNeededIff(srcs: seq<SrcItem>)
    ensures NeedClientId(srcs) <==>
            exists n :: 0 <= n < |srcs| && TextAt(PackedItem(srcs, n), "method") in {"s", "u", "S"}
  {
    NeedsOne(srcs);
    forall n | 0 <= n < |srcs|
      ensures TextAt(PackedItem(srcs, n), "method") in {"s", "u", "S"}
              <==> srcs[n].verb in {Subscribe, Unsubscribe, SubscribeAlt}
    {
      PackedKeys(srcs, n);
      MethodsDiffer(srcs[n].verb, Subscribe);
      MethodsDiffer(srcs[n].verb, Unsubscribe);
      MethodsDiffer(srcs[n].verb, SubscribeAlt);
    }
  }

  lemma {:induction false} NeedsOne(srcs: seq<SrcItem>)
    ensures NeedClientId(srcs)
            <==> exists n :: 0 <= n < |srcs| && srcs[n].verb in {Subscribe, Unsubscribe, SubscribeAlt}
  {
    if srcs != [] {
      NeedsOne(srcs[..|srcs| - 1]);
      assert srcs == srcs[..|srcs| - 1] + [srcs[|srcs| - 1]];
    }
  }
}
