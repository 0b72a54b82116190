/** CuHttpSrcMan: the request queue, the two wait maps and the dequeue timer. */
module SrcMan {
  import opened Seqs
  import opened HttpTypes

  /** One entry of the multimap of reads awaiting a reply; the multimap is the list of its entries, oldest first. */
  datatype Entry = Entry(key: string, data: SrcData)

  datatype Man = Man(queue: seq<SrcItem>, waiting: seq<Entry>, targets: map<string, SrcData>, timer: bool)

  const EMPTY_MAN := Man([], [], map[], false)

  // ---- the two tests made on every element by cancelSrc

  predicate Hits(i: SrcItem, src: string, verb: Verb, l: Listener) {
    (i.src == src && i.l == l && i.verb == verb) || i.l == NULL_LISTENER
  }

  predicate EntryHits(e: Entry, src: string, verb: Verb, l: Listener) {
    (e.key == src && e.data.lis == l && e.data.verb == verb) || e.data.lis == NULL_LISTENER
  }

  function QueueWithout(q: seq<SrcItem>, src: string, verb: Verb, l: Listener): seq<SrcItem> {
    Filter((i: SrcItem) => !Hits(i, src, verb, l), q)
  }

  function WaitingWithout(w: seq<Entry>, src: string, verb: Verb, l: Listener): seq<Entry> {
    Filter((e: Entry) => !EntryHits(e, src, verb, l), w)
  }

  function TargetsWithout(t: map<string, SrcData>, src: string, verb: Verb, l: Listener): map<string, SrcData> {
    map k | k in t && !EntryHits(Entry(k, t[k]), src, verb, l) :: t[k]
  }

  // ---- one function per operation

  function Enqueue(m: Man, i: SrcItem): Man {
    m.(queue := m.queue + [i], timer := true)
  }

  /** The wait maps are searched only when the queue held nothing to remove. */
  function Cancel(m: Man, src: string, verb: Verb, l: Listener): Man {
    var q := QueueWithout(m.queue, src, verb, l);
    if |q| != |m.queue| then m.(queue := q)
    else m.(waiting := WaitingWithout(m.waiting, src, verb, l), targets := TargetsWithout(m.targets, src, verb, l))
  }

  function Reads(q: seq<SrcItem>): seq<SrcItem> { Filter((i: SrcItem) => !i.verb.Write?, q) }

  function Writes(q: seq<SrcItem>): seq<SrcItem> { Filter((i: SrcItem) => i.verb.Write?, q) }

  /** The multimap entries of the reads of q. */
  function Entries(q: seq<SrcItem>): (w: seq<Entry>) {
    if q == [] then []
    else
      var last := q[|q| - 1];
      Entries(q[..|q| - 1]) + if last.verb.Write? then [] else [Entry(last.src, DataOf(last))]
  }

  /** The target map after the writes of q: a later write to a target replaces an earlier one. */
  function Targets(t: map<string, SrcData>, q: seq<SrcItem>): map<string, SrcData> {
    if q == [] then t
    else
      var last := q[|q| - 1];
      var t' := Targets(t, q[..|q| - 1]);
      if last.verb.Write? then t'[last.src := DataOf(last)] else t'
  }

  /** How many items one timeout takes from a queue of the given length. */
  function ChunkLen(len: nat, chunk: int): (n: nat)
    ensures n <= len
    ensures chunk >= 0 ==> n <= chunk
    ensures n < len ==> n >= chunk
  {
    if chunk <= 0 then 0 else if chunk < len then chunk else len
  }

  function Chunk(m: Man, chunk: int): seq<SrcItem> { m.queue[..ChunkLen(|m.queue|, chunk)] }

  function Tick(m: Man, chunk: int): Man {
    var done := Chunk(m, chunk);
    Man(m.queue[|done|..], m.waiting + Entries(done), Targets(m.targets, done), m.timer && m.queue != [])
  }

  /** QMultiMap::values(key): the most recently inserted value first. */
  function Values(w: seq<Entry>, key: string): seq<SrcData> {
    if w == [] then []
    else
      var last := w[|w| - 1];
      (if last.key == key then [last.data] else []) + Values(w[..|w| - 1], key)
  }

  function WithoutKey(w: seq<Entry>, key: string): seq<Entry> {
    Filter((e: Entry) => e.key != key, w)
  }

  // ---- facts about the operations

  lemma {:induction false} Snoc(t: map<string, SrcData>, q: seq<SrcItem>, i: SrcItem)
    ensures Entries(q + [i]) == Entries(q) + if i.verb.Write? then [] else [Entry(i.src, DataOf(i))]
    ensures Targets(t, q + [i]) == if i.verb.Write? then Targets(t, q)[i.src := DataOf(i)] else Targets(t, q)
    ensures Reads(q + [i]) == Reads(q) + if i.verb.Write? then [] else [i]
    ensures Writes(q + [i]) == Writes(q) + if i.verb.Write? then [i] else []
  {
    assert (q + [i])[..|q|] == q;
  }

  lemma {:induction false} EntriesAppend(a: seq<SrcItem>, b: seq<SrcItem>)
    ensures Entries(a + b) == Entries(a) + Entries(b)
  {
    if b == [] {
      assert a + b == a;
    } else {
      assert (a + b)[..|a + b| - 1] == a + b[..|b| - 1];
      EntriesAppend(a, b[..|b| - 1]);
    }
  }

  lemma {:induction false} EntriesOf(q: seq<SrcItem>)
    ensures forall e :: e in Entries(q) ==> exists i :: i in q && !i.verb.Write? && e == Entry(i.src, DataOf(i))
  {
    if q != [] {
      EntriesOf(q[..|q| - 1]);
    }
  }

  lemma {:induction false} EntriesIn(q: seq<SrcItem>, i: SrcItem)
    requires i in q && !i.verb.Write?
    ensures Entry(i.src, DataOf(i)) in Entries(q)
  {
    if i != q[|q| - 1] {
      EntriesIn(q[..|q| - 1], i);
    }
  }

  lemma {:induction false} TargetsOf(t: map<string, SrcData>, q: seq<SrcItem>)
    ensures forall k :: k in Targets(t, q) ==>
                          || (k in t && Targets(t, q)[k] == t[k])
                          || exists i :: i in q && i.verb.Write? && i.src == k && Targets(t, q)[k] == DataOf(i)
  {
    if q != [] {
      TargetsOf(t, q[..|q| - 1]);
    }
  }

  lemma {:induction false} ValuesOf(w: seq<Entry>, key: string)
    ensures forall d :: multiset(Values(w, key))[d] == multiset(w)[Entry(key, d)]
  {
    if w != [] {
      ValuesOf(w[..|w| - 1], key);
      assert w == w[..|w| - 1] + [w[|w| - 1]];
    }
  }

  lemma {:induction false} QueueWithoutMembers(q: seq<SrcItem>, src: string, verb: Verb, l: Listener)
    ensures forall i :: i in QueueWithout(q, src, verb, l) <==> i in q && !Hits(i, src, verb, l)
    ensures |QueueWithout(q, src, verb, l)| == |q| <==> forall i :: i in q ==> !Hits(i, src, verb, l)
    ensures |QueueWithout(q, src, verb, l)| == |q| ==> QueueWithout(q, src, verb, l) == q
  {
    FilterSameLength((i: SrcItem) => !Hits(i, src, verb, l), q);
    FilterMembers((i: SrcItem) => !Hits(i, src, verb, l), q);
  }

  /** The request is the one asked for, or nobody listens to it. */
  predicate Meant(src: string, verb: Verb, l: Listener, s: string, v: Verb, x: Listener) {
    (s == src && v == verb && x == l) || x == 0
  }

  /** The requests in the queue that are meant go, all of them; if there is none, the waiting ones that are meant go. */
  lemma {:induction false} CancelTakes(m: Man, src: string, verb: Verb, l: Listener)
    ensures var m' := Cancel(m, src, verb, l);
            if exists i :: i in m.queue && Meant(src, verb, l, i.src, i.verb, i.l) then
              && m' == m.(queue := m'.queue)
              && forall i :: multiset(m'.queue)[i] ==
                             if Meant(src, verb, l, i.src, i.verb, i.l) then 0 else multiset(m.queue)[i]
            else
              && m'.queue == m.queue && m'.timer == m.timer
              && (forall e :: multiset(m'.waiting)[e] ==
                              if Meant(src, verb, l, e.key, e.data.verb, e.data.lis) then 0 else multiset(m.waiting)[e])
              && (forall t :: t in m'.targets <==>
                              t in m.targets && !Meant(src, verb, l, t, m.targets[t].verb, m.targets[t].lis))
              && (forall t :: t in m'.targets ==> m'.targets[t] == m.targets[t])
  {
    QueueWithoutMembers(m.queue, src, verb, l);
    forall i ensures multiset(QueueWithout(m.queue, src, verb, l))[i] ==
                     if Meant(src, verb, l, i.src, i.verb, i.l) then 0 else multiset(m.queue)[i] {
      FilterCount((i: SrcItem) => !Hits(i, src, verb, l), m.queue, i);
    }
    forall e ensures multiset(WaitingWithout(m.waiting, src, verb, l))[e] ==
                     if Meant(src, verb, l, e.key, e.data.verb, e.data.lis) then 0 else multiset(m.waiting)[e] {
      FilterCount((e: Entry) => !EntryHits(e, src, verb, l), m.waiting, e);
    }
  }

  class CuHttpSrcMan {
    var srcq: seq<SrcItem>
    var srcd: seq<Entry>
    var tgtd: map<string, SrcData>
    var rItems: seq<SrcItem>
    var wItems: seq<SrcItem>
    var timerActive: bool
    const dequChunkSiz: int

    ghost predicate Valid() reads this { rItems == [] && wItems == [] }

    ghost function View(): Man reads this { Man(srcq, srcd, tgtd, timerActive) }

    constructor (chunk: int := 100)
      ensures Valid() && View() == EMPTY_MAN && dequChunkSiz == chunk
    {
      srcq, srcd, tgtd, rItems, wItems, timerActive := [], [], map[], [], [], false;
      dequChunkSiz := chunk;
    }

    method EnqueueSrc(src: string, l: Listener, verb: Verb, chan: string, wrVal: Variant, options: CuData)
      requires Valid()
      modifies this
      ensures Valid() && View() == Enqueue(old(View()), MakeItem(src, l, verb, chan, wrVal, options))
    {
      if !timerActive { timerActive := true; }
      srcq := srcq + [MakeItem(src, l, verb, chan, wrVal, options)];
    }

    method CancelSrc(src: string, verb: Verb, l: Listener)
      requires Valid()
      modifies this
      ensures Valid() && View() == Cancel(old(View()), src, verb, l)
    {
      var rem := QueueRemove(src, verb, l);
      QueueWithoutMembers(old(srcq), src, verb, l);
      if !rem {
        var _ := WaitMapRemove(src, verb, l);
      }
    }

    method QueueRemove(src: string, verb: Verb, l: Listener) returns (removed: bool)
      modifies this`srcq
      ensures srcq == QueueWithout(old(srcq), src, verb, l)
      ensures removed == (|srcq| != |old(srcq)|)
    {
      var siz := |srcq|;
      srcq := Keep((i: SrcItem) => !Hits(i, src, verb, l), srcq);
      removed := siz != |srcq|;
    }

    method WaitMapRemove(src: string, verb: Verb, l: Listener) returns (removed: bool)
      modifies this`srcd, this`tgtd
      ensures srcd == WaitingWithout(old(srcd), src, verb, l)
      ensures tgtd == TargetsWithout(old(tgtd), src, verb, l)
      ensures removed == (|srcd| != |old(srcd)| || |tgtd| != |old(tgtd)|)
    {
      var rsiz, wsiz := |srcd|, |tgtd|;
      srcd := Keep((e: Entry) => !EntryHits(e, src, verb, l), srcd);
      tgtd := KeepTargets(tgtd, src, verb, l);
      removed := rsiz != |srcd| || wsiz != |tgtd|;
    }

    /** The iterator loop over the target map. */
    static method KeepTargets(t: map<string, SrcData>, src: string, verb: Verb, l: Listener)
      returns (t': map<string, SrcData>)
      ensures t' == TargetsWithout(t, src, verb, l)
    {
      t' := t;
      var todo := t.Keys;
      while todo != {}
        invariant todo <= t'.Keys <= t.Keys
        invariant forall x :: x in t' ==> t'[x] == t[x]
        invariant forall x :: x in t && x !in todo ==> (x in t' <==> !EntryHits(Entry(x, t[x]), src, verb, l))
        decreases |todo|
      {
        var x :| x in todo;
        todo := todo - {x};
        if EntryHits(Entry(x, t'[x]), src, verb, l) {
          t' := map k | k in t' && k != x :: t'[k];
        }
      }
    }

    method TakeSrcs(src: string) returns (taken: seq<SrcData>)
      requires Valid()
      modifies this`srcd
      ensures taken == Values(old(srcd), src) && srcd == WithoutKey(old(srcd), src)
    {
      taken := ValuesFor(src);
      srcd := WithoutKey(srcd, src);
    }

    method ValuesFor(src: string) returns (vs: seq<SrcData>)
      ensures vs == Values(srcd, src)
    {
      vs := [];
      for k := 0 to |srcd|
        invariant vs == Values(srcd[..k], src)
      {
        assert srcd[..k + 1][..k] == srcd[..k];
        if srcd[k].key == src { vs := [srcd[k].data] + vs; }
      }
      assert srcd[..|srcd|] == srcd;
    }

    method TakeTgts() returns (taken: map<string, SrcData>)
      modifies this`tgtd
      ensures taken == old(tgtd) && tgtd == map[]
    {
      taken, tgtd := tgtd, map[];
    }

    /** Empties the queue into two lists; used when the engine is destroyed. */
    method DequeueItems() returns (readI: seq<SrcItem>, writeI: seq<SrcItem>, n: nat)
      requires Valid()
      modifies this`srcq
      ensures readI == Reads(old(srcq)) && writeI == Writes(old(srcq)) && srcq == []
      ensures n == |old(srcq)|
    {
      readI, writeI := [], [];
      ghost var q, seen := srcq, [];
      while srcq != []
        invariant q == seen + srcq
        invariant readI == Reads(seen) && writeI == Writes(seen) && |readI| + |writeI| == |seen|
        decreases |srcq|
      {
        var i := srcq[0];
        srcq := srcq[1..];
        Snoc(map[], seen, i);
        if !i.verb.Write? { readI := readI + [i]; } else { writeI := writeI + [i]; }
        seen := seen + [i];
      }
      assert seen == q;
      n := |readI| + |writeI|;
    }

    /** The items of seen have gone from the queue to the wait map and the list of their kind. */
    ghost predicate Moved(seen: seq<SrcItem>, was: Man) reads this {
      && was.queue == seen + srcq
      && srcd == was.waiting + Entries(seen) && tgtd == Targets(was.targets, seen)
      && rItems == Reads(seen) && wItems == Writes(seen)
    }

    /** The counted loop: items go to the wait map of their kind and to the list of their kind. */
    method DequeueChunk() returns (ghost seen: seq<SrcItem>)
      requires Valid()
      modifies this`srcq, this`srcd, this`tgtd, this`rItems, this`wItems
      ensures old(srcq) == seen + srcq && |seen| == ChunkLen(|old(srcq)|, dequChunkSiz)
      ensures srcd == old(srcd) + Entries(seen) && tgtd == Targets(old(tgtd), seen)
      ensures rItems == Reads(seen) && wItems == Writes(seen)
    {
      var x: int := 0;
      ghost var was := View();
      seen := [];
      while srcq != [] && x < dequChunkSiz
        invariant Moved(seen, was) && x == |seen| && (seen == [] || x <= dequChunkSiz)
        decreases |srcq|
      {
        x := x + 1;
        ghost var i := srcq[0];
        DequeueOne(seen, was);
        seen := seen + [i];
      }
    }

    method DequeueOne(ghost seen: seq<SrcItem>, ghost was: Man)
      requires srcq != [] && Moved(seen, was)
      modifies this`srcq, this`srcd, this`tgtd, this`rItems, this`wItems
      ensures srcq == old(srcq)[1..] && Moved(seen + [old(srcq)[0]], was)
    {
      var i := srcq[0];
      IteratorStep(seen, srcq);
      Snoc(was.targets, seen, i);
      srcq := srcq[1..];
      Dispatch(i);
    }

    method Dispatch(i: SrcItem)
      modifies this`srcd, this`tgtd, this`rItems, this`wItems
      ensures srcd == old(srcd) + if i.verb.Write? then [] else [Entry(i.src, DataOf(i))]
      ensures tgtd == if i.verb.Write? then old(tgtd)[i.src := DataOf(i)] else old(tgtd)
      ensures rItems == old(rItems) + if i.verb.Write? then [] else [i]
      ensures wItems == old(wItems) + if i.verb.Write? then [i] else []
    {
      if !i.verb.Write? {
        srcd := srcd + [Entry(i.src, DataOf(i))];
        rItems := rItems + [i];
      } else {
        tgtd := tgtd[i.src := DataOf(i)];
        wItems := wItems + [i];
      }
    }

    /** Moves at most one chunk to the wait maps and hands it over; two empty lists mean nothing was handed over. */
    method OnDequeueTimeout() returns (handedR: seq<SrcItem>, handedW: seq<SrcItem>)
      requires Valid()
      modifies this
      ensures Valid() && View() == Tick(old(View()), dequChunkSiz)
      ensures handedR == Reads(Chunk(old(View()), dequChunkSiz)) && handedW == Writes(Chunk(old(View()), dequChunkSiz))
    {
      var empty := srcq == [];
      ghost var q := srcq;
      ghost var seen := DequeueChunk();
      assert seen == q[..|seen|] && srcq == q[|seen|..];
      handedR, handedW := [], [];
      if |rItems| > 0 || |wItems| > 0 {
        handedR, handedW := rItems, wItems;
        rItems, wItems := [], [];
      }
      if empty { timerActive := false; }
    }
  }
}
