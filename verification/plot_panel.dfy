/** The readers of a context and the sources of a plot, on values, with the engine calls that changing them makes. */
module PlotPanel {
  import opened RndRegistry
  import opened Seqs
  import opened RndRuns

  /** What a reader shows: the source it was set to, "" when unset, and the listener it serves. */
  datatype Reader = Reader(source: string, lis: Listener)

  /** The readers listed by a context, and those that have not been deleted. */
  datatype Panel<R> = Panel(readers: seq<R>, info: map<R, Reader>)

  ghost predicate Alive<R>(p: Panel<R>) { forall i :: 0 <= i < |p.readers| ==> p.readers[i] in p.info }

  predicate Hit(x: Reader, src: string) { x.source == src || src == "" }

  /** The readers that disposeReader deletes, in order: all of them for the empty name. */
  function Hits<R>(readers: seq<R>, info: map<R, Reader>, src: string): seq<R> {
    if readers == [] then []
    else
      var last := readers[|readers| - 1];
      Hits(readers[..|readers| - 1], info, src) + if last in info && Hit(info[last], src) then [last] else []
  }

  /** Unsetting a reader unlinks its source; deleting it unlinks the empty source it has by then. */
  function UnsetCalls(source: string, l: Listener): seq<Event> {
    [Unlink((source, ReaderType), l), Unlink(("", ReaderType), l)]
  }

  function DisposeCalls<R>(readers: seq<R>, info: map<R, Reader>, src: string): seq<Event> {
    if readers == [] then []
    else
      var last := readers[|readers| - 1];
      DisposeCalls(readers[..|readers| - 1], info, src) +
      if last in info && Hit(info[last], src) then UnsetCalls(info[last].source, info[last].lis) else []
  }

  function Without<T(==)>(s: seq<T>, x: T): seq<T> {
    if s == [] then []
    else Without(s[..|s| - 1], x) + if s[|s| - 1] == x then [] else [s[|s| - 1]]
  }

  /** Only the last deleted reader is taken off the list, unless every reader is disposed of. */
  function Disposed<R(==)>(p: Panel<R>, src: string): Panel<R> {
    var hits := Hits(p.readers, p.info, src);
    Panel(if src == "" then [] else if hits == [] then p.readers else Without(p.readers, hits[|hits| - 1]),
          p.info - Members(hits))
  }

  lemma {:induction false} PlainPair(t: Table, evs: seq<Event>, a: Event, b: Event)
    ensures PlainRun(t, evs + [a, b]) == PlainStep(PlainStep(PlainRun(t, evs), a), b)
  {
    assert evs + [a, b] == (evs + [a]) + [b];
    PlainSnoc(t, evs + [a], b);
    PlainSnoc(t, evs, a);
  }

  lemma {:induction false} PlainSnoc(t: Table, evs: seq<Event>, a: Event)
    ensures PlainRun(t, evs + [a]) == PlainStep(PlainRun(t, evs), a)
  {
    assert (evs + [a])[..|evs|] == evs;
  }

  lemma {:induction false} PlainAppend(t: Table, a: seq<Event>, b: seq<Event>)
    ensures PlainRun(t, a + b) == PlainRun(PlainRun(t, a), b)
  {
    if b == [] {
      assert a + b == a;
    } else {
      PlainAppend(t, a, b[..|b| - 1]);
      assert (a + b)[..|a + b| - 1] == a + b[..|b| - 1];
    }
  }

  lemma {:induction false} HitsMembers<R>(readers: seq<R>, info: map<R, Reader>, src: string, x: R)
    ensures x in Hits(readers, info, src) <==> x in readers && x in info && Hit(info[x], src)
  {
    if readers != [] { HitsMembers(readers[..|readers| - 1], info, src, x); }
  }

  function Members<R>(s: seq<R>): set<R> { set x | x in s }

  /** One step of the loop over the readers, on the readers deleted, the last of them, and the table. */
  lemma {:induction false} ScanStep<R>(readers: seq<R>, i: nat, info: map<R, Reader>, src: string, t: Table)
    requires i < |readers| && Distinct(readers) && readers[i] in info
    ensures readers[i] !in Hits(readers[..i], info, src)
    ensures !Hit(info[readers[i]], src) ==>
      && Hits(readers[..i + 1], info, src) == Hits(readers[..i], info, src)
      && DisposeCalls(readers[..i + 1], info, src) == DisposeCalls(readers[..i], info, src)
    ensures Hit(info[readers[i]], src) ==>
      && Hits(readers[..i + 1], info, src) == Hits(readers[..i], info, src) + [readers[i]]
      && PlainRun(t, DisposeCalls(readers[..i + 1], info, src))
         == PlainRun(PlainRun(t, DisposeCalls(readers[..i], info, src)),
                     UnsetCalls(info[readers[i]].source, info[readers[i]].lis))
  {
    assert readers[..i + 1][..i] == readers[..i];
    HitsMembers(readers[..i], info, src, readers[i]);
    PlainAppend(t, DisposeCalls(readers[..i], info, src), UnsetCalls(info[readers[i]].source, info[readers[i]].lis));
  }

  lemma {:induction false} EmptyNameHitsAll<R>(readers: seq<R>, info: map<R, Reader>)
    requires forall i :: 0 <= i < |readers| ==> readers[i] in info
    ensures Hits(readers, info, "") == readers
  {
    if readers != [] {
      EmptyNameHitsAll(readers[..|readers| - 1], info);
      assert readers == readers[..|readers| - 1] + [readers[|readers| - 1]];
    }
  }

  // ---- the names a plot shows

  function NamesOf<R>(readers: seq<R>, info: map<R, Reader>): seq<string>
    requires forall i :: 0 <= i < |readers| ==> readers[i] in info
  {
    if readers == [] then [] else NamesOf(readers[..|readers| - 1], info) + [info[readers[|readers| - 1]].source]
  }

  /** Every listed reader is alive and listed once, no two of them show the same source, all serve the listener. */
  ghost predicate Neat<R>(readers: seq<R>, info: map<R, Reader>, l: Listener) {
    && (forall i :: 0 <= i < |readers| ==> readers[i] in info && info[readers[i]].lis == l)
    && (forall i, j ::
          0 <= i < j < |readers| ==>
          readers[i] != readers[j] && info[readers[i]].source != info[readers[j]].source)
  }

  function Unset(names: seq<string>, src: string): seq<string> { if src == "" then [] else Without(names, src) }

  function NameCalls(names: seq<string>, src: string, l: Listener): seq<Event> {
    if names == [] then []
    else
      var last := names[|names| - 1];
      NameCalls(names[..|names| - 1], src, l) + if last == src || src == "" then UnsetCalls(last, l) else []
  }

  /** A source that is added again moves to the end. */
  function AddName(names: seq<string>, s: string): seq<string> { Unset(names, s) + [s] }

  function AddCalls(names: seq<string>, s: string, l: Listener): seq<Event> {
    NameCalls(names, s, l) + [Add((s, ReaderType), l)]
  }

  /** setSources adds the given names that were not shown when it was called. */
  function SetNames(names: seq<string>, shown: seq<string>, given: seq<string>): seq<string> {
    if given == [] then names
    else
      var before := SetNames(names, shown, given[..|given| - 1]);
      if given[|given| - 1] in shown then before else AddName(before, given[|given| - 1])
  }

  function SetCalls(names: seq<string>, shown: seq<string>, given: seq<string>, l: Listener): seq<Event> {
    if given == [] then []
    else
      var (front, s) := (given[..|given| - 1], given[|given| - 1]);
      SetCalls(names, shown, front, l) + if s in shown then [] else AddCalls(SetNames(names, shown, front), s, l)
  }

  lemma {:induction false} SetStep(names: seq<string>, shown: seq<string>, given: seq<string>, i: nat, l: Listener,
          t: Table)
    requires i < |given|
    ensures var before := SetNames(names, shown, given[..i]);
      && SetNames(names, shown, given[..i + 1]) == (if given[i] in shown then before else AddName(before, given[i]))
      && PlainRun(t, SetCalls(names, shown, given[..i + 1], l))
         == PlainRun(PlainRun(t, SetCalls(names, shown, given[..i], l)),
                     if given[i] in shown then [] else AddCalls(before, given[i], l))
  {
    assert given[..i + 1][..i] == given[..i];
    PlainAppend(t, SetCalls(names, shown, given[..i], l),
                if given[i] in shown then [] else AddCalls(SetNames(names, shown, given[..i]), given[i], l));
  }

  // ---- the readers and the names agree

  lemma {:induction false} WithoutMembers<T>(s: seq<T>, x: T, y: T)
    ensures y in Without(s, x) <==> y in s && y != x
  {
    if s != [] { WithoutMembers(s[..|s| - 1], x, y); }
  }

  lemma {:induction false} WithoutAbsent<T>(s: seq<T>, x: T)
    requires x !in s
    ensures Without(s, x) == s
  {
    if s != [] {
      WithoutAbsent(s[..|s| - 1], x);
      assert s == s[..|s| - 1] + [s[|s| - 1]];
    }
  }

  lemma {:induction false} NamesSame<R>(readers: seq<R>, info: map<R, Reader>, more: map<R, Reader>)
    requires forall i ::
               0 <= i < |readers| ==>
               readers[i] in info && readers[i] in more && info[readers[i]] == more[readers[i]]
    ensures NamesOf(readers, info) == NamesOf(readers, more)
  {
    if readers != [] { NamesSame(readers[..|readers| - 1], info, more); }
  }

  lemma {:induction false} NamesAt<R>(readers: seq<R>, info: map<R, Reader>)
    requires forall i :: 0 <= i < |readers| ==> readers[i] in info
    ensures |NamesOf(readers, info)| == |readers|
    ensures forall i :: 0 <= i < |readers| ==> NamesOf(readers, info)[i] == info[readers[i]].source
  {
    if readers != [] { NamesAt(readers[..|readers| - 1], info); }
  }

  lemma {:induction false} NoHits<R>(readers: seq<R>, info: map<R, Reader>, src: string)
    requires src != "" && forall i :: 0 <= i < |readers| ==> readers[i] in info && info[readers[i]].source != src
    ensures Hits(readers, info, src) == []
  {
    if readers != [] { NoHits(readers[..|readers| - 1], info, src); }
  }

  /** With distinct sources at most one reader is hit by a non-empty name. */
  lemma {:induction false} OneHit<R>(readers: seq<R>, info: map<R, Reader>, l: Listener, src: string)
    requires Neat(readers, info, l) && src != ""
    ensures |Hits(readers, info, src)| <= 1
    ensures Hits(readers, info, src) == [] ==> src !in NamesOf(readers, info)
  {
    if readers != [] {
      var front, last := readers[..|readers| - 1], readers[|readers| - 1];
      OneHit(front, info, l, src);
      if info[last].source == src {
        assert forall i :: 0 <= i < |front| ==> front[i] == readers[i];
        NoHits(front, info, src);
      }
    }
  }

  lemma {:induction false} NamesSnoc<R>(readers: seq<R>, x: R, info: map<R, Reader>)
    requires x in info && forall i :: 0 <= i < |readers| ==> readers[i] in info
    ensures NamesOf(readers + [x], info) == NamesOf(readers, info) + [info[x].source]
  {
    assert (readers + [x])[..|readers|] == readers;
  }

  lemma {:induction false} WithoutSnoc<T>(s: seq<T>, last: T, x: T)
    ensures Without(s + [last], x) == Without(s, x) + if last == x then [] else [last]
  {
    assert (s + [last])[..|s|] == s;
  }

  lemma {:induction false} WithoutIn<R>(readers: seq<R>, info: map<R, Reader>, x: R)
    requires forall i :: 0 <= i < |readers| ==> readers[i] in info
    ensures forall i :: 0 <= i < |Without(readers, x)| ==> Without(readers, x)[i] in info
  {
    if readers != [] { WithoutIn(readers[..|readers| - 1], info, x); }
  }

  lemma {:induction false} NamesWithout<R>(readers: seq<R>, info: map<R, Reader>, l: Listener, x: R)
    requires Neat(readers, info, l) && x in readers
    ensures forall i :: 0 <= i < |Without(readers, x)| ==> Without(readers, x)[i] in info
    ensures NamesOf(Without(readers, x), info) == Without(NamesOf(readers, info), info[x].source)
  {
    var front, last := readers[..|readers| - 1], readers[|readers| - 1];
    var names := NamesOf(front, info);
    assert readers == front + [last];
    WithoutIn(readers, info, x);
    NamesAt(front, info);
    WithoutSnoc(front, last, x);
    WithoutSnoc(names, info[last].source, info[x].source);
    assert forall i :: 0 <= i < |front| ==> front[i] == readers[i];
    if last == x {
      assert x !in front && info[x].source !in names;
      WithoutAbsent(front, x);
      WithoutAbsent(names, info[x].source);
      assert Without(readers, x) == front;
    } else {
      NamesWithout(front, info, l, x);
      NamesSnoc(Without(front, x), last, info);
    }
  }

  lemma {:induction false} WithoutNeat<R>(readers: seq<R>, info: map<R, Reader>, l: Listener, x: R)
    requires Neat(readers, info, l)
    ensures Neat(Without(readers, x), info - {x}, l)
  {
    if readers != [] {
      var front, last := readers[..|readers| - 1], readers[|readers| - 1];
      WithoutNeat(front, info, l, x);
      forall i | 0 <= i < |Without(front, x)|
        ensures Without(front, x)[i] != last && info[Without(front, x)[i]].source != info[last].source
      {
        WithoutMembers(front, x, Without(front, x)[i]);
        var j :| 0 <= j < |front| && front[j] == Without(front, x)[i];
        assert readers[j] == front[j];
      }
    }
  }

  lemma {:induction false} DisposedMiss<R>(p: Panel<R>, l: Listener, src: string)
    requires Neat(p.readers, p.info, l) && src != "" && Hits(p.readers, p.info, src) == []
    ensures Disposed(p, src) == p && Unset(NamesOf(p.readers, p.info), src) == NamesOf(p.readers, p.info)
  {
    OneHit(p.readers, p.info, l, src);
    WithoutAbsent(NamesOf(p.readers, p.info), src);
    assert p.info - Members<R>([]) == p.info;
  }

  lemma {:induction false} DisposedHit<R>(p: Panel<R>, l: Listener, src: string, x: R)
    requires Neat(p.readers, p.info, l) && src != "" && Hits(p.readers, p.info, src) == [x]
    ensures Disposed(p, src) == Panel(Without(p.readers, x), p.info - {x})
    ensures x in p.readers && x in p.info && p.info[x].source == src
  {
    HitsMembers(p.readers, p.info, src, x);
    assert Members([x]) == {x};
  }

  /** On a neat context disposeReader is removal of the name, and the context stays neat. */
  lemma {:induction false} DisposedNames<R>(p: Panel<R>, l: Listener, src: string)
    requires Neat(p.readers, p.info, l)
    ensures Neat(Disposed(p, src).readers, Disposed(p, src).info, l)
    ensures NamesOf(Disposed(p, src).readers, Disposed(p, src).info) == Unset(NamesOf(p.readers, p.info), src)
  {
    var hits := Hits(p.readers, p.info, src);
    if src != "" {
      OneHit(p.readers, p.info, l, src);
      if hits == [] {
        DisposedMiss(p, l, src);
      } else {
        var x := hits[0];
        DisposedHit(p, l, src, x);
        NamesWithout(p.readers, p.info, l, x);
        WithoutNeat(p.readers, p.info, l, x);
        NamesSame(Without(p.readers, x), p.info, p.info - {x});
      }
    }
  }

  lemma {:induction false} NeatMore<R>(readers: seq<R>, info: map<R, Reader>, r: R, x: Reader)
    requires Neat(readers, info, x.lis) && r !in info
    requires forall i :: 0 <= i < |readers| ==> info[readers[i]].source != x.source
    ensures Neat(readers + [r], info[r := x], x.lis)
  {
    var more, all := info[r := x], readers + [r];
    assert all[|readers|] == r;
    assert forall i ::
        0 <= i < |readers| ==>
        all[i] == readers[i] && readers[i] != r && more[readers[i]] == info[readers[i]];
  }

  lemma {:induction false} NamesMore<R>(readers: seq<R>, info: map<R, Reader>, r: R, x: Reader)
    requires r !in info && forall i :: 0 <= i < |readers| ==> readers[i] in info
    ensures NamesOf(readers + [r], info[r := x]) == NamesOf(readers, info) + [x.source]
  {
    NamesSame(readers, info, info[r := x]);
    NamesSnoc(readers, r, info[r := x]);
  }

  lemma {:induction false} NeatSnoc<R>(readers: seq<R>, info: map<R, Reader>, r: R, s: string, l: Listener)
    requires Neat(readers, info, l) && r !in info && s !in NamesOf(readers, info)
    ensures Neat(readers + [r], info[r := Reader(s, l)], l)
    ensures NamesOf(readers + [r], info[r := Reader(s, l)]) == NamesOf(readers, info) + [s]
  {
    NamesAt(readers, info);
    forall i | 0 <= i < |readers| ensures info[readers[i]].source != s { assert NamesOf(readers, info)[i] != s; }
    NeatMore(readers, info, r, Reader(s, l));
    NamesMore(readers, info, r, Reader(s, l));
  }

  /** A new reader set to the name just disposed of keeps the context neat. */
  lemma {:induction false} AddedNames<R>(p: Panel<R>, r: R, s: string, l: Listener)
    requires Neat(p.readers, p.info, l) && r !in p.info
    ensures var q := Disposed(p, s);
      && Neat(q.readers + [r], q.info[r := Reader(s, l)], l)
      && NamesOf(q.readers + [r], q.info[r := Reader(s, l)]) == AddName(NamesOf(p.readers, p.info), s)
  {
    var q := Disposed(p, s);
    DisposedNames(p, l, s);
    WithoutMembers(NamesOf(p.readers, p.info), s, s);
    NeatSnoc(q.readers, q.info, r, s, l);
  }

  lemma {:induction false} CallsOfNames<R>(readers: seq<R>, info: map<R, Reader>, l: Listener, src: string)
    requires Neat(readers, info, l)
    ensures DisposeCalls(readers, info, src) == NameCalls(NamesOf(readers, info), src, l)
  {
    if readers != [] {
      var names := NamesOf(readers, info);
      assert names[..|names| - 1] == NamesOf(readers[..|readers| - 1], info);
      CallsOfNames(readers[..|readers| - 1], info, l, src);
    }
  }

  /** disposeReader leaves a deleted reader on the list exactly when a non-empty name hits more than one reader. */
  lemma {:induction false} DanglingIffSharedSource<R>(p: Panel<R>, src: string)
    requires Alive(p) && Distinct(p.readers)
    ensures Alive(Disposed(p, src)) <==> src == "" || |Hits(p.readers, p.info, src)| <= 1
  {
    var hits, q := Hits(p.readers, p.info, src), Disposed(p, src);
    if src != "" && hits != [] {
      var last := hits[|hits| - 1];
      if |hits| == 1 {
        assert hits == [last] && Members(hits) == {last};
        forall i | 0 <= i < |q.readers| ensures q.readers[i] in q.info {
          WithoutMembers(p.readers, last, q.readers[i]);
        }
      } else {
        var x := hits[0];
        HitsDistinct(p.readers, p.info, src);
        HitsMembers(p.readers, p.info, src, x);
        WithoutMembers(p.readers, last, x);
        var i :| 0 <= i < |q.readers| && q.readers[i] == x;
        assert x in hits;
      }
    }
  }

  /** Reader i shows the name and no later one does. */
  ghost predicate ShownLast<R>(readers: seq<R>, info: map<R, Reader>, src: string, i: nat)
    requires forall r :: r in readers ==> r in info
  {
    && i < |readers| && info[readers[i]].source == src
    && forall j :: i < j < |readers| ==> info[readers[j]].source != src
  }

  /** With a non-empty name just the last of the readers that show it leaves the list, and all of them are deleted. */
  lemma {:induction false} LastHitLeaves<R>(p: Panel<R>, src: string, i: nat)
    requires Distinct(p.readers) && (forall r :: r in p.readers ==> r in p.info) && src != "" && i < |p.readers|
    ensures p.readers[i] !in Disposed(p, src).readers <==> ShownLast(p.readers, p.info, src, i)
    ensures p.readers[i] !in Disposed(p, src).info <==> p.info[p.readers[i]].source == src
  {
    var x := p.readers[i];
    HitsMembers(p.readers, p.info, src, x);
    LastHitIs(p.readers, p.info, src, i);
    UnlistsLast(p, src, x);
  }

  lemma {:induction false} UnlistsLast<R>(p: Panel<R>, src: string, x: R)
    requires src != "" && x in p.readers
    ensures var hits := Hits(p.readers, p.info, src);
            x !in Disposed(p, src).readers <==> hits != [] && hits[|hits| - 1] == x
  {
    var hits := Hits(p.readers, p.info, src);
    if hits != [] { WithoutMembers(p.readers, hits[|hits| - 1], x); }
  }

  lemma {:induction false} LastHitIs<R>(readers: seq<R>, info: map<R, Reader>, src: string, i: nat)
    requires Distinct(readers) && (forall r :: r in readers ==> r in info) && src != "" && i < |readers|
    ensures var hits := Hits(readers, info, src);
            hits != [] && hits[|hits| - 1] == readers[i] <==> ShownLast(readers, info, src, i)
  {
    var front, last := readers[..|readers| - 1], readers[|readers| - 1];
    assert forall r :: r in front ==> r in readers;
    assert last in readers && last !in front;
    var before := Hits(front, info, src);
    if info[last].source != src {
      if i < |front| {
        LastHitIs(front, info, src, i);
      } else if before != [] {
        HitsMembers(front, info, src, before[|before| - 1]);
      }
    }
  }

  lemma {:induction false} HitsDistinct<R>(readers: seq<R>, info: map<R, Reader>, src: string)
    requires Distinct(readers)
    ensures Distinct(Hits(readers, info, src))
  {
    if readers != [] {
      HitsDistinct(readers[..|readers| - 1], info, src);
      HitsMembers(readers[..|readers| - 1], info, src, readers[|readers| - 1]);
    }
  }
}
