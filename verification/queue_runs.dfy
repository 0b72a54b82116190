/**
 * Whole runs of the request queue. The reference is a log of everything ever enqueued, with a set of
 * cancelled positions and a cursor between what was dispatched and what was not; it has no queue.
 */
module QueueRuns {
  import opened Seqs
  import opened HttpTypes
  import opened SrcMan

  datatype Op = Put(item: SrcItem) | Revoke(src: string, verb: Verb, l: Listener) | Timeout

  // ---- the manager, with everything it has handed to its listener

  datatype Trace = Trace(man: Man, handedR: seq<SrcItem>, handedW: seq<SrcItem>)

  function TraceStep(t: Trace, op: Op, chunk: int): Trace {
    match op
    case Put(i) => t.(man := Enqueue(t.man, i))
    case Revoke(src, verb, l) => t.(man := Cancel(t.man, src, verb, l))
    case Timeout => Trace(Tick(t.man, chunk),
                          t.handedR + Reads(Chunk(t.man, chunk)),
                          t.handedW + Writes(Chunk(t.man, chunk)))
  }

  function TraceRun(ops: seq<Op>, chunk: int): Trace {
    if ops == [] then Trace(EMPTY_MAN, [], []) else TraceStep(TraceRun(ops[..|ops| - 1], chunk), ops[|ops| - 1], chunk)
  }

  // ---- the reference

  datatype Log = Log(all: seq<SrcItem>, dead: set<nat>, cursor: nat)

  /** The items at positions lo up to hi that were not cancelled, in order. */
  function Pick(all: seq<SrcItem>, dead: set<nat>, lo: nat, hi: nat): (p: seq<SrcItem>)
    requires hi <= |all|
    decreases hi
  {
    if hi <= lo then []
    else Pick(all, dead, lo, hi - 1) + if hi - 1 in dead then [] else [all[hi - 1]]
  }

  /** The cursor after n more items that were not cancelled. */
  function Advance(all: seq<SrcItem>, dead: set<nat>, cursor: nat, n: nat): (c: nat)
    requires cursor <= |all|
    ensures cursor <= c <= |all|
    decreases |all| - cursor
  {
    if n == 0 || cursor == |all| then cursor
    else Advance(all, dead, cursor + 1, if cursor in dead then n else n - 1)
  }

  ghost predicate WellFormed(g: Log) {
    g.cursor <= |g.all| && forall i :: i in g.dead ==> i < |g.all|
  }

  function Pending(g: Log): seq<SrcItem>
    requires g.cursor <= |g.all|
  {
    Pick(g.all, g.dead, g.cursor, |g.all|)
  }

  ghost function LogStep(g: Log, op: Op, chunk: int): (g': Log)
    requires WellFormed(g)
    ensures WellFormed(g')
  {
    match op
    case Put(i) => g.(all := g.all + [i])
    case Revoke(src, verb, l) =>
      g.(dead := g.dead + set i: nat | g.cursor <= i < |g.all| && Hits(g.all[i], src, verb, l))
    case Timeout => g.(cursor := Advance(g.all, g.dead, g.cursor, ChunkLen(|Pending(g)|, chunk)))
  }

  ghost function LogRunFrom(g: Log, ops: seq<Op>, chunk: int): (g': Log)
    requires WellFormed(g)
    ensures WellFormed(g')
    decreases |ops|
  {
    if ops == [] then g else LogStep(LogRunFrom(g, ops[..|ops| - 1], chunk), ops[|ops| - 1], chunk)
  }

  ghost function LogRun(ops: seq<Op>, chunk: int): (g: Log)
    ensures WellFormed(g)
  {
    LogRunFrom(Log([], {}, 0), ops, chunk)
  }

  // ---- facts about Pick and Advance

  lemma {:induction false} PickSplit(all: seq<SrcItem>, dead: set<nat>, lo: nat, mid: nat, hi: nat)
    requires lo <= mid <= hi <= |all|
    ensures Pick(all, dead, lo, hi) == Pick(all, dead, lo, mid) + Pick(all, dead, mid, hi)
    decreases hi
  {
    if mid < hi {
      PickSplit(all, dead, lo, mid, hi - 1);
    }
  }

  lemma {:induction false} PickPut(all: seq<SrcItem>, dead: set<nat>, lo: nat, hi: nat, i: SrcItem)
    requires hi <= |all|
    ensures Pick(all + [i], dead, lo, hi) == Pick(all, dead, lo, hi)
    decreases hi
  {
    if lo < hi {
      PickPut(all, dead, lo, hi - 1, i);
    }
  }

  lemma {:induction false} PickStep(all: seq<SrcItem>, dead: set<nat>, lo: nat, hi: nat)
    requires lo < hi <= |all|
    ensures hi - 1 in dead ==> Pick(all, dead, lo, hi) == Pick(all, dead, lo, hi - 1)
    ensures hi - 1 !in dead ==> Pick(all, dead, lo, hi) == Pick(all, dead, lo, hi - 1) + [all[hi - 1]]
  {
  }

  lemma {:induction false} QueueWithoutSnoc(q: seq<SrcItem>, i: SrcItem, src: string, verb: Verb, l: Listener)
    ensures Hits(i, src, verb, l) ==> QueueWithout(q + [i], src, verb, l) == QueueWithout(q, src, verb, l)
    ensures !Hits(i, src, verb, l) ==> QueueWithout(q + [i], src, verb, l) == QueueWithout(q, src, verb, l) + [i]
  {
    FilterSnoc((i: SrcItem) => !Hits(i, src, verb, l), q, i);
  }

  /** A cancellation filters what lies beyond the cursor and leaves the rest alone. */
  lemma {:induction false} PickRevoke(all: seq<SrcItem>, dead: set<nat>, more: set<nat>, cursor: nat, lo: nat,
          hi: nat, src: string, verb: Verb, l: Listener)
    requires cursor <= lo && hi <= |all|
    requires forall i :: i in more <==> cursor <= i < |all| && Hits(all[i], src, verb, l)
    ensures Pick(all, dead + more, lo, hi) == QueueWithout(Pick(all, dead, lo, hi), src, verb, l)
    ensures |Pick(all, dead + more, lo, hi)| <= |Pick(all, dead, lo, hi)|
    decreases hi
  {
    if lo < hi {
      PickRevoke(all, dead, more, cursor, lo, hi - 1, src, verb, l);
      assert hi - 1 in more <==> Hits(all[hi - 1], src, verb, l);
      PickStep(all, dead, lo, hi);
      PickStep(all, dead + more, lo, hi);
      if hi - 1 !in dead { QueueWithoutSnoc(Pick(all, dead, lo, hi - 1), all[hi - 1], src, verb, l); }
    }
  }

  lemma {:induction false} PickRevokeBefore(all: seq<SrcItem>, dead: set<nat>, more: set<nat>, cursor: nat, lo: nat,
          hi: nat)
    requires hi <= cursor && hi <= |all| && forall i :: i in more ==> cursor <= i
    ensures Pick(all, dead + more, lo, hi) == Pick(all, dead, lo, hi)
    decreases hi
  {
    if lo < hi {
      PickRevokeBefore(all, dead, more, cursor, lo, hi - 1);
    }
  }

  lemma {:induction false} AdvanceCount(all: seq<SrcItem>, dead: set<nat>, cursor: nat, n: nat)
    requires cursor <= |all| && n <= |Pick(all, dead, cursor, |all|)|
    ensures |Pick(all, dead, cursor, Advance(all, dead, cursor, n))| == n
    decreases |all| - cursor
  {
    if n != 0 && cursor != |all| {
      var n' := if cursor in dead then n else n - 1;
      assert |Pick(all, dead, cursor, cursor + 1)| == n - n';
      PickSplit(all, dead, cursor, cursor + 1, |all|);
      AdvanceCount(all, dead, cursor + 1, n');
      PickSplit(all, dead, cursor, cursor + 1, Advance(all, dead, cursor, n));
    }
  }

  lemma {:induction false} AdvancePick(all: seq<SrcItem>, dead: set<nat>, cursor: nat, n: nat)
    requires cursor <= |all| && n <= |Pick(all, dead, cursor, |all|)|
    ensures var c := Advance(all, dead, cursor, n);
            && Pick(all, dead, cursor, c) == Pick(all, dead, cursor, |all|)[..n]
            && Pick(all, dead, c, |all|) == Pick(all, dead, cursor, |all|)[n..]
  {
    AdvanceCount(all, dead, cursor, n);
    PickSplit(all, dead, cursor, Advance(all, dead, cursor, n), |all|);
  }

  // ---- conservation and order

  ghost predicate Simulates(t: Trace, g: Log) {
    && WellFormed(g)
    && t.man.queue == Pending(g)
    && t.handedR == Reads(Pick(g.all, g.dead, 0, g.cursor))
    && t.handedW == Writes(Pick(g.all, g.dead, 0, g.cursor))
  }

  lemma {:induction false} ReadsWritesAppend(a: seq<SrcItem>, b: seq<SrcItem>)
    ensures Reads(a + b) == Reads(a) + Reads(b) && Writes(a + b) == Writes(a) + Writes(b)
  {
    FilterAppend((i: SrcItem) => !i.verb.Write?, a, b);
    FilterAppend((i: SrcItem) => i.verb.Write?, a, b);
  }

  lemma {:induction false} TimeoutSimulates(t: Trace, g: Log, chunk: int)
    requires Simulates(t, g)
    ensures Simulates(TraceStep(t, Timeout, chunk), LogStep(g, Timeout, chunk))
  {
    var n := ChunkLen(|Pending(g)|, chunk);
    AdvancePick(g.all, g.dead, g.cursor, n);
    var c := Advance(g.all, g.dead, g.cursor, n);
    PickSplit(g.all, g.dead, 0, g.cursor, c);
    assert Pick(g.all, g.dead, g.cursor, c) == Chunk(t.man, chunk);
    assert Tick(t.man, chunk).queue == Pick(g.all, g.dead, c, |g.all|);
    ReadsWritesAppend(Pick(g.all, g.dead, 0, g.cursor), Chunk(t.man, chunk));
  }

  lemma {:induction false} StepSimulates(t: Trace, g: Log, op: Op, chunk: int)
    requires Simulates(t, g)
    ensures Simulates(TraceStep(t, op, chunk), LogStep(g, op, chunk))
  {
    match op
    case Put(i) =>
      PickPut(g.all, g.dead, g.cursor, |g.all|, i);
      PickPut(g.all, g.dead, 0, g.cursor, i);
      assert |g.all| !in g.dead;
    case Revoke(src, verb, l) =>
      var more := set i: nat | g.cursor <= i < |g.all| && Hits(g.all[i], src, verb, l);
      PickRevoke(g.all, g.dead, more, g.cursor, g.cursor, |g.all|, src, verb, l);
      PickRevokeBefore(g.all, g.dead, more, g.cursor, 0, g.cursor);
      QueueWithoutMembers(t.man.queue, src, verb, l);
    case Timeout => TimeoutSimulates(t, g, chunk);
  }

  lemma {:induction false} RunSimulates(ops: seq<Op>, chunk: int)
    ensures Simulates(TraceRun(ops, chunk), LogRun(ops, chunk))
  {
    if ops != [] {
      RunSimulates(ops[..|ops| - 1], chunk);
      StepSimulates(TraceRun(ops[..|ops| - 1], chunk), LogRun(ops[..|ops| - 1], chunk), ops[|ops| - 1], chunk);
    }
  }

  /**
   * In every run, the reads handed over followed by the reads still queued are the enqueued reads that no
   * cancellation caught before their dispatch, in order; the same holds for writes.
   */
  lemma {:induction false} Conservation(ops: seq<Op>, chunk: int)
    ensures var t, g := TraceRun(ops, chunk), LogRun(ops, chunk);
            var survivors := Pick(g.all, g.dead, 0, |g.all|);
            && t.handedR + Reads(t.man.queue) == Reads(survivors)
            && t.handedW + Writes(t.man.queue) == Writes(survivors)
  {
    RunSimulates(ops, chunk);
    var g := LogRun(ops, chunk);
    PickSplit(g.all, g.dead, 0, g.cursor, |g.all|);
    FilterAppend((i: SrcItem) => !i.verb.Write?, Pick(g.all, g.dead, 0, g.cursor), Pending(g));
    FilterAppend((i: SrcItem) => i.verb.Write?, Pick(g.all, g.dead, 0, g.cursor), Pending(g));
  }

  /** The log holds every enqueued item, in the order of the enqueue calls. */
  lemma {:induction false} LogIsComplete(ops: seq<Op>, chunk: int)
    ensures LogRun(ops, chunk).all == Enqueued(ops)
  {
    if ops != [] {
      LogIsComplete(ops[..|ops| - 1], chunk);
    }
  }

  function Enqueued(ops: seq<Op>): seq<SrcItem> {
    if ops == [] then []
    else Enqueued(ops[..|ops| - 1]) + match ops[|ops| - 1] case Put(i) => [i] case _ => []
  }

  /** A position is cancelled exactly when some cancel call hit it while it was not yet dispatched. */
  lemma {:induction false} CancelledExactly(ops: seq<Op>, chunk: int, i: nat)
    ensures i in LogRun(ops, chunk).dead <==>
            exists k :: 0 <= k < |ops| && CancelsAt(ops, k, chunk, i)
  {
    if ops != [] {
      var n := |ops| - 1;
      CancelledExactly(ops[..n], chunk, i);
      forall k | 0 <= k < n ensures CancelsAt(ops, k, chunk, i) <==> CancelsAt(ops[..n], k, chunk, i) {
        assert ops[..n][..k] == ops[..k];
      }
      assert i in LogRun(ops, chunk).dead <==> i in LogRun(ops[..n], chunk).dead || CancelsAt(ops, n, chunk, i);
    }
  }

  ghost predicate CancelsAt(ops: seq<Op>, k: nat, chunk: int, i: nat)
    requires k < |ops|
  {
    var g := LogRun(ops[..k], chunk);
    ops[k].Revoke? && g.cursor <= i < |g.all| && Hits(g.all[i], ops[k].src, ops[k].verb, ops[k].l)
  }

  lemma {:induction false} FilterSplits(q: seq<SrcItem>)
    ensures |Reads(q)| + |Writes(q)| == |q|
  {
    if q != [] {
      FilterSplits(q[..|q| - 1]);
    }
  }

  /** One timeout hands over at most chunk items, all of them together. */
  lemma {:induction false} BundleFitsChunk(m: Man, chunk: int)
    ensures |Reads(Chunk(m, chunk))| + |Writes(Chunk(m, chunk))| <= if chunk <= 0 then 0 else chunk
    ensures |Reads(Chunk(m, chunk))| + |Writes(Chunk(m, chunk))| + |Tick(m, chunk).queue| == |m.queue|
  {
    FilterSplits(Chunk(m, chunk));
  }

  // ---- the timer

  /** A non-empty queue keeps the timer running, in every run and for every chunk size. */
  lemma {:induction false} QueueKeepsTimer(ops: seq<Op>, chunk: int)
    ensures TraceRun(ops, chunk).man.queue != [] ==> TraceRun(ops, chunk).man.timer
  {
    if ops != [] {
      QueueKeepsTimer(ops[..|ops| - 1], chunk);
      var op, m := ops[|ops| - 1], TraceRun(ops[..|ops| - 1], chunk).man;
      if op.Revoke? {
        assert m.queue == [] ==> QueueWithout(m.queue, op.src, op.verb, op.l) == [];
      }
    }
  }

  /** The timer stops exactly at a timeout that finds the queue already empty. */
  lemma {:induction false} TimerStopsOnlyWhenEmpty(t: Trace, op: Op, chunk: int)
    requires t.man.timer
    ensures !TraceStep(t, op, chunk).man.timer <==> op.Timeout? && t.man.queue == []
    ensures !TraceStep(t, op, chunk).man.timer ==> TraceStep(t, op, chunk).man.queue == []
  {
    assert Chunk(t.man, chunk) <= t.man.queue;
  }

  // ---- bounded dispatch

  function Timeouts(ops: seq<Op>): nat {
    if ops == [] then 0 else Timeouts(ops[..|ops| - 1]) + if ops[|ops| - 1].Timeout? then 1 else 0
  }

  /** Position i has been dispatched or cancelled. */
  ghost predicate Resolved(g: Log, i: nat) { i < g.cursor || i in g.dead }

  /** The number of queued items ahead of position i. */
  function Ahead(g: Log, i: nat): nat
    requires i <= |g.all|
  {
    |Pick(g.all, g.dead, g.cursor, i)|
  }

  /** Ahead is the queue index of the item: the item at log position i is the queue element there. */
  lemma {:induction false} AheadIsIndex(g: Log, i: nat)
    requires WellFormed(g) && g.cursor <= i < |g.all| && i !in g.dead
    ensures Ahead(g, i) < |Pending(g)| && Pending(g)[Ahead(g, i)] == g.all[i]
  {
    PickSplit(g.all, g.dead, g.cursor, i + 1, |g.all|);
  }

  lemma {:induction false} TimeoutBrings(g: Log, i: nat, chunk: int)
    requires WellFormed(g) && i < |g.all| && !Resolved(g, i) && chunk > 0
    ensures var g' := LogStep(g, Timeout, chunk);
            Resolved(g', i) || Ahead(g', i) + chunk == Ahead(g, i)
  {
    var n := ChunkLen(|Pending(g)|, chunk);
    var c := Advance(g.all, g.dead, g.cursor, n);
    AdvancePick(g.all, g.dead, g.cursor, n);
    AheadIsIndex(g, i);
    if c <= i {
      PickSplit(g.all, g.dead, g.cursor, c, i);
    }
  }

  lemma {:induction false} StepKeepsAhead(g: Log, i: nat, op: Op, chunk: int)
    requires WellFormed(g) && i < |g.all| && !op.Timeout?
    ensures var g' := LogStep(g, op, chunk);
            && i < |g'.all|
            && (Resolved(g, i) ==> Resolved(g', i))
            && Ahead(g', i) <= Ahead(g, i)
  {
    match op
    case Put(x) => PickPut(g.all, g.dead, g.cursor, i, x);
    case Revoke(src, verb, l) =>
      var more := set j: nat | g.cursor <= j < |g.all| && Hits(g.all[j], src, verb, l);
      PickRevoke(g.all, g.dead, more, g.cursor, g.cursor, i, src, verb, l);
  }

  lemma {:induction false} Progress(g: Log, i: nat, ops: seq<Op>, chunk: int)
    requires WellFormed(g) && i < |g.all| && chunk > 0
    ensures var g' := LogRunFrom(g, ops, chunk);
            && i < |g'.all|
            && (Resolved(g, i) ==> Resolved(g', i))
            && (Resolved(g', i) || Ahead(g', i) + Timeouts(ops) * chunk <= Ahead(g, i))
    decreases |ops|
  {
    if ops != [] {
      var front, op := ops[..|ops| - 1], ops[|ops| - 1];
      Progress(g, i, front, chunk);
      var h := LogRunFrom(g, front, chunk);
      if op.Timeout? {
        if !Resolved(h, i) {
          TimeoutBrings(h, i, chunk);
          assert (Timeouts(front) + 1) * chunk == Timeouts(front) * chunk + chunk;
        }
      } else {
        StepKeepsAhead(h, i, op, chunk);
      }
    }
  }

  lemma {:induction false} QuotientBound(k: nat, ticks: nat, chunk: int)
    requires chunk > 0 && ticks >= k / chunk + 1
    ensures ticks * chunk > k
  {
    assert k == (k / chunk) * chunk + k % chunk;
    assert ticks * chunk >= (k / chunk + 1) * chunk;
    assert (k / chunk + 1) * chunk == (k / chunk) * chunk + chunk;
  }

  /**
   * From any reachable state, the item at queue index k is dispatched or cancelled within k/chunk + 1
   * timeouts, whatever is enqueued and cancelled in the meantime.
   */
  lemma {:induction false} BoundedDispatch(ops: seq<Op>, more: seq<Op>, chunk: int, i: nat)
    requires chunk > 0
    requires var g := LogRun(ops, chunk); g.cursor <= i < |g.all| && i !in g.dead
    requires Timeouts(more) >= Ahead(LogRun(ops, chunk), i) / chunk + 1
    ensures var g, q := LogRun(ops, chunk), TraceRun(ops, chunk).man.queue;
            && Ahead(g, i) < |q| && q[Ahead(g, i)] == g.all[i]
            && Resolved(LogRunFrom(g, more, chunk), i)
  {
    RunSimulates(ops, chunk);
    var g := LogRun(ops, chunk);
    AheadIsIndex(g, i);
    Progress(g, i, more, chunk);
    QuotientBound(Ahead(g, i), Timeouts(more), chunk);
  }
}
