/**
 * The plot on top of the random engine: readers (CuRNDReader), the context that owns them (CuContext),
 * and the list of sources of a plot (QuPlotCommon).
 */
module Plot {
  import opened RndRegistry
  import opened Seqs
  import opened RndEngine
  import opened RndRuns
  import opened PlotPanel

  class CuRNDReader {
    const rnd: CumbiaRandom
    const tlistener: Listener
    var source: string
    var deleted: bool

    ghost function Info(): Reader reads this { Reader(source, tlistener) }

    constructor (rnd: CumbiaRandom, l: Listener)
      ensures this.rnd == rnd && Info() == Reader("", l) && !deleted
    {
      this.rnd, tlistener, source, deleted := rnd, l, "", false;
    }

    method SetSource(s: string)
      requires !deleted && rnd.Valid()
      modifies this`source, rnd, rnd.service, rnd.live
      ensures source == s && rnd.Valid() && old(rnd.live) <= rnd.live && fresh(rnd.live - old(rnd.live))
      ensures rnd.table == Subscribe(old(rnd.table), (s, ReaderType), tlistener)
    {
      source := s;
      ghost var a := rnd.AddAction(s, ReaderType, tlistener);
    }

    method UnsetSource()
      requires !deleted && rnd.Valid()
      modifies this`source, rnd`table, rnd.live
      ensures source == "" && rnd.Valid()
      ensures rnd.table == Unsubscribe(old(rnd.table), (old(source), ReaderType), tlistener)
    {
      rnd.UnlinkListener(source, ReaderType, tlistener);
      source := "";
    }

    /** The destructor unsets the source once more. */
    method Destroy()
      requires !deleted && rnd.Valid()
      modifies this, rnd`table, rnd.live
      ensures deleted && rnd.Valid()
      ensures rnd.table == Unsubscribe(old(rnd.table), (old(source), ReaderType), tlistener)
    {
      UnsetSource();
      deleted := true;
    }

    /** What the context does to a reader it disposes of. */
    method Dispose()
      requires !deleted && rnd.Valid()
      modifies this, rnd`table, rnd.live
      ensures deleted && rnd.Valid()
      ensures rnd.table == PlainRun(old(rnd.table), UnsetCalls(old(source), tlistener))
    {
      UnsetSource();
      Destroy();
      PlainPair(old(rnd.table), [], Unlink((old(source), ReaderType), tlistener), Unlink(("", ReaderType), tlistener));
    }
  }

  function LastOf(s: seq<CuRNDReader>): CuRNDReader? { if s == [] then null else s[|s| - 1] }

  /** What disposeReader keeps of the list, given the last reader it deleted. */
  function Trimmed(readers: seq<CuRNDReader>, src: string, removed: CuRNDReader?): seq<CuRNDReader> {
    if src == "" then []
    else if removed == null then readers
    else
      var x: CuRNDReader := removed;
      Without(readers, x)
  }

  lemma {:induction false} TrimmedIsDisposed(p: Panel<CuRNDReader>, src: string, info: map<CuRNDReader, Reader>)
    requires info == p.info - Members(Hits(p.readers, p.info, src))
    ensures Panel(Trimmed(p.readers, src, LastOf(Hits(p.readers, p.info, src))), info) == Disposed(p, src)
  {
  }

  class CuContext {
    const rnd: CumbiaRandom
    const hasReaderFactory: bool
    var readers: seq<CuRNDReader>
    /** The readers made by this context and not deleted. */
    ghost var living: set<CuRNDReader>

    ghost function Infos(): map<CuRNDReader, Reader> reads this`living, living { map r | r in living :: r.Info() }

    ghost function View(): Panel<CuRNDReader> reads this, living { Panel(readers, Infos()) }

    ghost predicate Valid() reads this`living, living, rnd, rnd.service, rnd.live {
      && rnd.Valid()
      && (forall r :: r in living ==> !r.deleted && r.rnd == rnd)
    }

    constructor (rnd: CumbiaRandom, hasReaderFactory: bool)
      requires rnd.Valid()
      ensures this.rnd == rnd && this.hasReaderFactory == hasReaderFactory && living == {}
      ensures Valid() && View() == Panel([], map[])
    {
      this.rnd, this.hasReaderFactory := rnd, hasReaderFactory;
      readers, living := [], {};
    }

    method DisposeOne(r: CuRNDReader)
      requires Valid() && r in living
      modifies this`living, r, rnd`table, rnd.live
      ensures Valid() && living == old(living) - {r}
      ensures forall q :: q in living ==> q.Info() == old(q.Info())
      ensures rnd.table == PlainRun(old(rnd.table), UnsetCalls(old(r.source), r.tlistener))
    {
      r.Dispose();
      living := living - {r};
    }

    /** The state of the loop of disposeReader after its first i readers. */
    ghost predicate Scanned(i: nat, src: string, info: map<CuRNDReader, Reader>, t: Table, removed: CuRNDReader?)
      requires i <= |readers|
      reads this, living, rnd
    {
      var hits := Hits(readers[..i], info, src);
      && living == info.Keys - Members(hits)
      && (forall r :: r in living ==> r.Info() == info[r])
      && removed == LastOf(hits)
      && rnd.table == PlainRun(t, DisposeCalls(readers[..i], info, src))
    }

    method Visit(i: nat, src: string, removed: CuRNDReader?, ghost info: map<CuRNDReader, Reader>, ghost t: Table)
      returns (last: CuRNDReader?)
      requires Valid() && i < |readers| && Distinct(readers) && readers[i] in info && Scanned(i, src, info, t, removed)
      modifies this`living, living, rnd`table, rnd.live
      ensures Valid() && Scanned(i + 1, src, info, t, last) && living <= old(living)
    {
      var r := readers[i];
      ScanStep(readers, i, info, src, t);
      if r.source == src || src == "" {
        DisposeOne(r);
        last := r;
      } else {
        last := removed;
      }
    }

    method DisposeHits(src: string) returns (removed: CuRNDReader?)
      requires Valid() && Alive(View()) && Distinct(readers)
      modifies this`living, living, rnd`table, rnd.live
      ensures Valid() && living <= old(living)
      ensures Infos() == old(Infos()) - Members(Hits(readers, old(Infos()), src))
      ensures removed == LastOf(Hits(readers, old(Infos()), src))
      ensures rnd.table == PlainRun(old(rnd.table), DisposeCalls(readers, old(Infos()), src))
    {
      ghost var info, t := Infos(), rnd.table;
      removed := null;
      for i := 0 to |readers|
        invariant Valid() && Scanned(i, src, info, t, removed) && living <= old(living)
      {
        removed := Visit(i, src, removed, info, t);
      }
      assert readers[..|readers|] == readers;
      assert Infos() == info - Members(Hits(readers, info, src));
    }

    /** Asking a deleted reader for its source is what the requirement on the list excludes. */
    method DisposeReader(src: string)
      requires Valid() && Alive(View()) && Distinct(readers)
      modifies this`readers, this`living, living, rnd`table, rnd.live
      ensures Valid() && living <= old(living)
      ensures View() == Disposed(old(View()), src)
      ensures rnd.table == PlainRun(old(rnd.table), DisposeCalls(old(readers), old(View().info), src))
    {
      ghost var before := View();
      var removed := DisposeHits(src);
      ghost var info := Infos();
      Trim(src, removed);
      assert Infos() == info;
      TrimmedIsDisposed(before, src, info);
    }

    method Trim(src: string, removed: CuRNDReader?)
      modifies this`readers
      ensures readers == Trimmed(old(readers), src, removed)
    {
      if src == "" { readers := []; }
      else if removed != null { readers := RemoveAll(readers, removed); }
    }

    static method RemoveAll(s: seq<CuRNDReader>, x: CuRNDReader) returns (r: seq<CuRNDReader>)
      ensures r == Without(s, x)
    {
      r := [];
      for i := 0 to |s|
        invariant r == Without(s[..i], x)
      {
        assert s[..i + 1][..i] == s[..i];
        if s[i] != x { r := r + [s[i]]; }
      }
      assert s[..|s|] == s;
    }

    method MakeReader(l: Listener) returns (r: CuRNDReader?)
      requires Valid()
      modifies this`readers, this`living
      ensures Valid() && fresh(living - old(living)) && old(living) <= living
      ensures r == null <==> !hasReaderFactory
      ensures r == null ==> View() == old(View())
      ensures r != null ==> fresh(r) && r in living && View() == WithReader(old(View()), r, l)
    {
      if hasReaderFactory {
        var made := new CuRNDReader(rnd, l);
        living := living + {made};
        readers := readers + [made];
        assert Infos() == old(Infos())[made := Reader("", l)];
        r := made;
      } else {
        r := null;
      }
    }

    /** A reader of the source already listed is disposed of; the new one is listed, its source not yet set. */
    method AddReader(src: string, l: Listener) returns (r: CuRNDReader?)
      requires Valid() && Alive(View()) && Distinct(readers)
      modifies this`readers, this`living, living, rnd`table, rnd.live
      ensures Valid() && fresh(living - old(living))
      ensures r == null <==> !hasReaderFactory
      ensures r == null ==> View() == Disposed(old(View()), src)
      ensures r != null ==> fresh(r) && r in living && View() == WithReader(Disposed(old(View()), src), r, l)
      ensures rnd.table == PlainRun(old(rnd.table), DisposeCalls(old(readers), old(View().info), src))
    {
      DisposeReader(src);
      r := MakeReader(l);
    }

    method ReplaceReader(src: string, l: Listener) returns (r: CuRNDReader?)
      requires Valid() && Alive(View()) && Distinct(readers)
      modifies this`readers, this`living, living, rnd`table, rnd.live
      ensures Valid() && fresh(living - old(living))
      ensures r == null <==> !hasReaderFactory
      ensures r == null ==> View() == Panel([], old(Infos()) - Members(old(readers)))
      ensures r != null ==> fresh(r) && View() == WithReader(Panel([], old(Infos()) - Members(old(readers))), r, l)
      ensures rnd.table == PlainRun(old(rnd.table), DisposeCalls(old(readers), old(View().info), ""))
    {
      EmptyNameHitsAll(readers, Infos());
      DisposeReader("");
      r := MakeReader(l);
    }

    method Show(r: CuRNDReader, s: string)
      requires Valid() && r in living
      modifies r`source, rnd, rnd.service, rnd.live
      ensures Valid() && forall a :: a in rnd.live ==> a in old(rnd.live) || fresh(a)
      ensures Infos() == old(Infos())[r := Reader(s, r.tlistener)]
      ensures rnd.table == Subscribe(old(rnd.table), (s, ReaderType), r.tlistener)
    {
      ghost var info := Infos();
      r.SetSource(s);
      assert Infos() == info[r := Reader(s, r.tlistener)];
    }

    method FindReader(src: string) returns (r: CuRNDReader?)
      requires Valid() && Alive(View())
      ensures r == null ==> forall i :: 0 <= i < |readers| ==> readers[i].source != src
      ensures r != null ==> exists i ::
        0 <= i < |readers| && readers[i] == r && r.source == src && forall j :: 0 <= j < i ==> readers[j].source != src
    {
      for i := 0 to |readers|
        invariant forall j :: 0 <= j < i ==> readers[j].source != src
      {
        if readers[i].source == src { return readers[i]; }
      }
      return null;
    }
  }

  function WithReader(p: Panel<CuRNDReader>, r: CuRNDReader, l: Listener): Panel<CuRNDReader> {
    Panel(p.readers + [r], p.info[r := Reader("", l)])
  }

  class QuPlotCommon {
    const context: CuContext

    ghost predicate Valid(l: Listener)
      reads context, context.living, context.rnd, context.rnd.service, context.rnd.live
    {
      context.Valid() && context.hasReaderFactory && Neat(context.readers, context.Infos(), l)
    }

    ghost function Names(): seq<string>
      requires Alive(context.View())
      reads context, context.living
    {
      NamesOf(context.readers, context.Infos())
    }

    constructor (rnd: CumbiaRandom, l: Listener)
      requires rnd.Valid()
      ensures Valid(l) && fresh(context) && context.rnd == rnd && context.living == {} && Names() == []
    {
      context := new CuContext(rnd, true);
    }

    method Sources(ghost l: Listener) returns (names: seq<string>)
      requires Valid(l)
      ensures names == Names()
    {
      names := [];
      var readers := context.readers;
      for i := 0 to |readers|
        invariant names == NamesOf(readers[..i], context.Infos())
      {
        NamesSnoc(readers[..i], readers[i], context.Infos());
        assert readers[..i + 1] == readers[..i] + [readers[i]];
        names := names + [readers[i].source];
      }
      assert readers[..|readers|] == readers;
    }

    method UnsetSource(src: string, ghost l: Listener)
      requires Valid(l)
      modifies context`readers, context`living, context.living, context.rnd`table, context.rnd.live
      ensures Valid(l) && context.living <= old(context.living)
      ensures Names() == Unset(old(Names()), src)
      ensures context.rnd.table == PlainRun(old(context.rnd.table), NameCalls(old(Names()), src, l))
    {
      ghost var p := context.View();
      DisposedNames(p, l, src);
      CallsOfNames(p.readers, p.info, l, src);
      context.DisposeReader(src);
    }

    method UnsetSources(ghost l: Listener)
      requires Valid(l)
      modifies context`readers, context`living, context.living, context.rnd`table, context.rnd.live
      ensures Valid(l) && context.living <= old(context.living)
      ensures Names() == []
      ensures context.rnd.table == PlainRun(old(context.rnd.table), NameCalls(old(Names()), "", l))
    {
      UnsetSource("", l);
    }

    method AddSource(s: string, l: Listener)
      requires Valid(l)
      modifies context`readers, context`living, context.living, context.rnd, context.rnd.service, context.rnd.live
      ensures Valid(l)
      ensures forall r :: r in context.living ==> r in old(context.living) || fresh(r)
      ensures forall a :: a in context.rnd.live ==> a in old(context.rnd.live) || fresh(a)
      ensures Names() == AddName(old(Names()), s)
      ensures context.rnd.table == PlainRun(old(context.rnd.table), AddCalls(old(Names()), s, l))
    {
      ghost var p, t := context.View(), context.rnd.table;
      CallsOfNames(p.readers, p.info, l, s);
      PlainSnoc(t, NameCalls(NamesOf(p.readers, p.info), s, l), Add((s, ReaderType), l));
      var r := context.AddReader(s, l);
      Connect(r, s, l, p);
    }

    /** The sources shown are read once, before the loop: a name given twice is added twice, and shown once. */
    method SetSources(given: seq<string>, l: Listener)
      requires Valid(l)
      modifies context`readers, context`living, context.living, context.rnd, context.rnd.service, context.rnd.live
      ensures Valid(l)
      ensures Names() == SetNames(old(Names()), old(Names()), given)
      ensures context.rnd.table == PlainRun(old(context.rnd.table), SetCalls(old(Names()), old(Names()), given, l))
    {
      ghost var t := context.rnd.table;
      var srcs := Sources(l);
      for i := 0 to |given|
        invariant Valid(l)
        invariant Names() == SetNames(srcs, srcs, given[..i])
        invariant context.rnd.table == PlainRun(t, SetCalls(srcs, srcs, given[..i], l))
        invariant forall r :: r in context.living ==> r in old(context.living) || fresh(r)
        invariant forall a :: a in context.rnd.live ==> a in old(context.rnd.live) || fresh(a)
      {
        SetStep(srcs, srcs, given, i, l, t);
        if given[i] !in srcs { AddSource(given[i], l); }
      }
      assert given[..|given|] == given;
    }

    /** Sets the source of a reader that `AddReader` has just added to the readers `p`. */
    method Connect(r: CuRNDReader, s: string, l: Listener, ghost p: Panel<CuRNDReader>)
      requires context.Valid() && context.hasReaderFactory && r in context.living
      requires Neat(p.readers, p.info, l) && r !in p.info && context.View() == WithReader(Disposed(p, s), r, l)
      modifies r`source, context.rnd, context.rnd.service, context.rnd.live
      ensures Valid(l) && forall a :: a in context.rnd.live ==> a in old(context.rnd.live) || fresh(a)
      ensures Names() == AddName(NamesOf(p.readers, p.info), s)
      ensures context.rnd.table == Subscribe(old(context.rnd.table), (s, ReaderType), l)
    {
      AddedNames(p, r, s, l);
      assert r.Info() == context.Infos()[r];
      context.Show(r, s);
      assert context.Infos() == Disposed(p, s).info[r := Reader(s, l)];
    }
  }
}
