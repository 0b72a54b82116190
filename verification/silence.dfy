/**
 * When a listener is silent: exactly when nothing outstanding can call it, every other case being brought
 * to a call by some run that requests nothing new for it.
 */
module SilenceRuns {
  import opened Seqs
  import opened HttpTypes
  import opened SrcMan
  import opened Channel
  import opened HttpEngine
  import opened HttpRuns

  /** A run that makes no request an answer to which would call l. */
  ghost predicate Harmless(es: seq<Event>, l: Listener) { forall e :: e in es && e.Request? ==> !ItemCalls(e.item, l) }

  ghost predicate Called(h: Http, es: seq<Event>, chunk: int, l: Listener) {
    var cs := Run(h, es, chunk).calls;
    h.calls <= cs && !NoCallOf(cs[|h.calls|..], l)
  }

  /** No run that requests nothing new for l calls it. */
  ghost predicate Silent(h: Http, l: Listener, chunk: int) {
    forall es :: Harmless(es, l) ==> !Called(h, es, chunk, l)
  }

  function ReplyFor(src: string): (da: CuData)
    ensures SrcOf(da) == NameOf(da) == src && !IsAuthRequest(da)
  {
    map["src" := Scalar(src)]
  }

  lemma {:induction false} RunOne(h: Http, e: Event, chunk: int)
    ensures Run(h, [e], chunk) == Step(h, e, chunk)
  {
    assert [e][..0] == [];
  }

  // ---- what is outstanding can be made to call

  lemma {:induction false} AnsweredCalled(h: Http, da: CuData, d: SrcData, chunk: int)
    requires d in Answered(h, da) && d.lis != NULL_LISTENER && !d.verb.Unsubscribe? && !IsAuthRequest(da)
    ensures Called(h, [Answer(da)], chunk, d.lis)
  {
    var cs := UpdateCalls(Answered(h, da), da);
    RunOne(h, Answer(da), chunk);
    UpdateCallsHas(Answered(h, da), da, d);
    assert (h.calls + cs)[|h.calls|..] == cs;
  }

  lemma {:induction false} WaitingAnswered(h: Http, e: Entry, l: Listener, chunk: int)
    requires e in h.man.waiting && DataCalls(e.data, l) && l != NULL_LISTENER
    ensures Called(h, [Answer(ReplyFor(e.key))], chunk, l)
  {
    ValuesOf(h.man.waiting, e.key);
    assert multiset(h.man.waiting)[Entry(e.key, e.data)] > 0;
    assert e.data in Values(h.man.waiting, e.key);
    AnsweredCalled(h, ReplyFor(e.key), e.data, chunk);
  }

  lemma {:induction false} TargetAnswered(h: Http, t: string, l: Listener, chunk: int)
    requires t in h.man.targets && DataCalls(h.man.targets[t], l) && l != NULL_LISTENER
    ensures Called(h, [Answer(ReplyFor(""))], chunk, l)
  {
    TargetIsAnswered(h, ReplyFor(""), t);
    AnsweredCalled(h, ReplyFor(""), h.man.targets[t], chunk);
  }

  lemma {:induction false} SubscribedMessaged(h: Http, s: Sub, chunk: int)
    requires s in h.chan
    ensures Called(h, [Message([ReplyFor(s.src)])], chunk, s.lis)
  {
    var da := ReplyFor(s.src);
    RunOne(h, Message([da]), chunk);
    CallsForCount(h.chan, s.src, da);
    assert multiset(h.chan)[Sub(s.src, s.lis)] > 0;
    assert Call(s.lis, da) in Route(h.chan, [da]);
    assert (h.calls + Route(h.chan, [da]))[|h.calls|..] == Route(h.chan, [da]);
  }

  lemma {:induction false} InMapsAnswered(h: Http, l: Listener, chunk: int) returns (es: seq<Event>)
    requires InWaitMaps(h, l) && l != NULL_LISTENER
    ensures Harmless(es, l) && Called(h, es, chunk, l)
  {
    if e :| e in h.man.waiting && DataCalls(e.data, l) {
      es := [Answer(ReplyFor(e.key))];
      WaitingAnswered(h, e, l, chunk);
    } else {
      var t :| t in h.man.targets && DataCalls(h.man.targets[t], l);
      es := [Answer(ReplyFor(""))];
      TargetAnswered(h, t, l, chunk);
    }
  }

  // ---- a queued request comes to the wait maps, past the requests of others

  ghost predicate QueuedFor(q: seq<SrcItem>, l: Listener) { exists i :: i in q && ItemCalls(i, l) }

  ghost predicate Alone(q: seq<SrcItem>, l: Listener) { forall i :: i in q ==> i.l == l }

  /** The other listeners can cancel their requests, so that no write of theirs replaces one of l. */
  lemma {:induction false} Isolate(h: Http, l: Listener, chunk: int) returns (es: seq<Event>)
    requires QueuedFor(h.man.queue, l) && l != NULL_LISTENER
    ensures Harmless(es, l) && Run(h, es, chunk).calls == h.calls
    ensures var q := Run(h, es, chunk).man.queue; QueuedFor(q, l) && Alone(q, l)
    decreases |h.man.queue|
  {
    if Alone(h.man.queue, l) {
      es := [];
    } else {
      var x :| x in h.man.queue && x.l != l;
      var e := Unlinked(x.src, x.verb, x.l);
      var h' := Step(h, e, chunk);
      QueueWithoutMembers(h.man.queue, x.src, x.verb, x.l);
      var i :| i in h.man.queue && ItemCalls(i, l);
      assert Hits(x, x.src, x.verb, x.l) && !Hits(i, x.src, x.verb, x.l);
      assert i in h'.man.queue;
      var more := Isolate(h', l, chunk);
      RunOne(h, e, chunk);
      RunAppend(h, [e], more, chunk);
      es := [e] + more;
    }
  }

  lemma {:induction false} TargetsHas(t: map<string, SrcData>, q: seq<SrcItem>, i: SrcItem, l: Listener)
    requires i in q && i.verb.Write? && Alone(q, l)
    ensures i.src in Targets(t, q) && DataCalls(Targets(t, q)[i.src], l)
  {
    var front, last := q[..|q| - 1], q[|q| - 1];
    assert last in q && Alone(front, l);
    if i != last { TargetsHas(t, front, i, l); }
  }

  lemma {:induction false} TickBrings(h: Http, l: Listener, chunk: int, i: SrcItem)
    requires Alone(h.man.queue, l) && ItemCalls(i, l) && i in Chunk(h.man, chunk)
    ensures InWaitMaps(Timeout(h, chunk), l)
  {
    var done, h' := Chunk(h.man, chunk), Timeout(h, chunk);
    assert Alone(done, l) by { forall x | x in done ensures x.l == l { assert x in h.man.queue; } }
    if i.verb.Write? {
      TargetsHas(h.man.targets, done, i, l);
      assert i.src in h'.man.targets;
    } else {
      EntriesIn(done, i);
      assert Entry(i.src, DataOf(i)) in h'.man.waiting;
    }
  }

  lemma {:induction false} TicksBring(h: Http, l: Listener, chunk: int) returns (es: seq<Event>)
    requires Alone(h.man.queue, l) && QueuedFor(h.man.queue, l) && chunk > 0
    ensures Harmless(es, l) && Run(h, es, chunk).calls == h.calls && InWaitMaps(Run(h, es, chunk), l)
    decreases |h.man.queue|
  {
    var i :| i in h.man.queue && ItemCalls(i, l);
    var n, h' := ChunkLen(|h.man.queue|, chunk), Timeout(h, chunk);
    RunOne(h, Timer, chunk);
    if i in Chunk(h.man, chunk) {
      TickBrings(h, l, chunk, i);
      es := [Timer];
    } else {
      assert h.man.queue == h.man.queue[..n] + h'.man.queue;
      assert i in h'.man.queue;
      var more := TicksBring(h', l, chunk);
      RunAppend(h, [Timer], more, chunk);
      es := [Timer] + more;
    }
  }

  lemma {:induction false} QueuedCalled(h: Http, l: Listener, chunk: int) returns (es: seq<Event>)
    requires QueuedFor(h.man.queue, l) && l != NULL_LISTENER && chunk > 0
    ensures Harmless(es, l) && Called(h, es, chunk, l)
  {
    var a := Isolate(h, l, chunk);
    var h1 := Run(h, a, chunk);
    var b := TicksBring(h1, l, chunk);
    var h2 := Run(h1, b, chunk);
    var c := InMapsAnswered(h2, l, chunk);
    RunAppend(h, a, b, chunk);
    RunAppend(h, a + b, c, chunk);
    es := a + b + c;
  }

  // ---- main results

  /** A listener that is not quiet is called by some run without a new request for it, and a quiet one by none. */
  lemma {:induction false} SilentIff(h: Http, l: Listener, chunk: int)
    requires l != NULL_LISTENER && TargetsAreWrites(h) && chunk > 0
    ensures Silent(h, l, chunk) <==> Quiet(h, l)
  {
    if Quiet(h, l) {
      forall es | Harmless(es, l) ensures !Called(h, es, chunk, l) { QuietRun(h, es, chunk, l); }
    } else {
      var es: seq<Event>;
      if QueuedFor(h.man.queue, l) {
        es := QueuedCalled(h, l, chunk);
      } else if InWaitMaps(h, l) {
        es := InMapsAnswered(h, l, chunk);
      } else {
        var s :| s in h.chan && s.lis == l;
        es := [Message([ReplyFor(s.src)])];
        SubscribedMessaged(h, s, chunk);
      }
      assert Harmless(es, l) && Called(h, es, chunk, l);
    }
  }

  /**
   * In every reachable state, no later run calls an unlinked listener until something is requested for it
   * exactly when it had no other request outstanding and its request was not in a wait map beside a queue hit.
   */
  lemma {:induction false} UnlinkSilencesIff(before: seq<Event>, src: string, verb: Verb, l: Listener, chunk: int)
    requires l != NULL_LISTENER && !verb.Unsubscribe? && chunk > 0
    ensures var h := Run(EMPTY_HTTP, before, chunk);
            Silent(Unlink(h, src, verb, l), l, chunk)
            <==> OnlyRequest(h, src, verb, l) && !(QueueHit(h, src, verb, l) && InWaitMaps(h, l))
  {
    var h := Run(EMPTY_HTTP, before, chunk);
    ReachableTargetsAreWrites(before, chunk);
    StepKeepsWrites(h, Unlinked(src, verb, l), chunk);
    UnlinkQuietIff(h, src, verb, l);
    SilentIff(Unlink(h, src, verb, l), l, chunk);
  }

  /**
   * A write that shares its tick with a later write to its target is replaced: the tick silences its listener,
   * although a run in which the other listener cancels first would have called it.
   */
  lemma {:induction false} OverwrittenIsSilent(h: Http, a: SrcItem, b: SrcItem, chunk: int)
    requires a.l != NULL_LISTENER && b.l != a.l && a.verb.Write? && b.verb.Write? && a.src == b.src && chunk >= 2
    requires TargetsAreWrites(h) && Quiet(h.(man := h.man.(queue := [])), a.l) && h.man.queue == [a, b]
    ensures Silent(Timeout(h, chunk), a.l, chunk)
    ensures !Silent(h, a.l, chunk)
  {
    var h' := Timeout(h, chunk);
    Snoc(h.man.targets, [a], b);
    Snoc(h.man.targets, [], a);
    assert [] + [a] == [a] && [a] + [b] == [a, b] && Chunk(h.man, chunk) == [a, b];
    assert h'.man.targets == h.man.targets[a.src := DataOf(a)][a.src := DataOf(b)];
    StepKeepsWrites(h, Timer, chunk);
    SilentIff(h', a.l, chunk);
    SilentIff(h, a.l, chunk);
    assert a in h.man.queue;
  }
}
