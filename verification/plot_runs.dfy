/**
 * A plot with its own listener over the random engine, while other clients add and unlink their listeners
 * and the workers go on: the sources it shows are the ones its listener is subscribed to.
 */
module PlotRuns {
  import opened RndRegistry
  import opened Seqs
  import opened RndRuns
  import opened PlotPanel

  datatype PlotOp = SetSources(given: seq<string>) | AddSource(s: string) | UnsetSource(s: string) | UnsetSources

  datatype Happening = Op(op: PlotOp) | Elsewhere(ev: Event)

  datatype World = World(names: seq<string>, sys: Sys)

  function OpNames(names: seq<string>, op: PlotOp): seq<string> {
    match op
    case SetSources(given) => SetNames(names, names, given)
    case AddSource(s) => AddName(names, s)
    case UnsetSource(s) => Unset(names, s)
    case UnsetSources => []
  }

  /** The engine calls of one operation of the plot, as its methods make them. */
  function OpCalls(names: seq<string>, op: PlotOp, l: Listener): seq<Event> {
    match op
    case SetSources(given) => SetCalls(names, names, given, l)
    case AddSource(s) => AddCalls(names, s, l)
    case UnsetSource(s) => NameCalls(names, s, l)
    case UnsetSources => NameCalls(names, "", l)
  }

  function Happen(w: World, h: Happening, l: Listener): World {
    match h
    case Op(op) => World(OpNames(w.names, op), Run(w.sys, OpCalls(w.names, op, l)))
    case Elsewhere(ev) => w.(sys := Step(w.sys, ev))
  }

  function History(hs: seq<Happening>, l: Listener): World {
    if hs == [] then World([], Start(true)) else Happen(History(hs[..|hs| - 1], l), hs[|hs| - 1], l)
  }

  /** The plot's listener is its own: nobody else adds or unlinks it. */
  predicate OwnListener(h: Happening, l: Listener) {
    h.Elsewhere? && (h.ev.Add? || h.ev.Unlink?) ==> h.ev.l != l
  }

  predicate NonEmptyNames(h: Happening) {
    h.Op? ==> match h.op
      case SetSources(given) => "" !in given
      case AddSource(s) => s != ""
      case UnsetSource(s) => s != ""
      case UnsetSources => true
  }

  ghost predicate Listens(t: Table, n: string, l: Listener) { l in Get(t, (n, ReaderType)) }

  /** The listener is subscribed to the names shown; the empty name may be shown without a subscription. */
  ghost predicate Agree(names: seq<string>, t: Table, l: Listener) {
    && Distinct(names)
    && (forall n :: n != "" ==> (n in names <==> Listens(t, n, l)))
    && (Listens(t, "", l) ==> "" in names)
  }

  predicate Dropped(names: seq<string>, src: string) { if src == "" then names != [] else src in names }

  lemma {:induction false} NameCallsEffect(names: seq<string>, src: string, l: Listener, t: Table, n: string)
    ensures Listens(PlainRun(t, NameCalls(names, src, l)), n, l) <==>
      Listens(t, n, l) && !(n in names && (n == src || src == "")) && !(n == "" && Dropped(names, src))
  {
    if names != [] {
      var front, last := names[..|names| - 1], names[|names| - 1];
      assert names == front + [last];
      NameCallsEffect(front, src, l, t, n);
      if last == src || src == "" {
        PlainPair(t, NameCalls(front, src, l), Unlink((last, ReaderType), l), Unlink(("", ReaderType), l));
      } else {
        assert NameCalls(names, src, l) == NameCalls(front, src, l);
      }
    }
  }

  lemma {:induction false} WithoutDistinct(names: seq<string>, x: string)
    requires Distinct(names)
    ensures Distinct(Without(names, x))
  {
    if names != [] {
      WithoutDistinct(names[..|names| - 1], x);
      WithoutMembers(names[..|names| - 1], x, names[|names| - 1]);
    }
  }

  lemma {:induction false} UnsetAgrees(names: seq<string>, src: string, l: Listener, t: Table)
    requires Agree(names, t, l)
    ensures Agree(Unset(names, src), PlainRun(t, NameCalls(names, src, l)), l)
  {
    var u := PlainRun(t, NameCalls(names, src, l));
    WithoutDistinct(names, src);
    forall n ensures (n in Unset(names, src) <==> n in names && n != src && src != "")
             ensures Listens(u, n, l) <==>
                     Listens(t, n, l) && !(n in names && (n == src || src == "")) && !(n == "" && Dropped(names, src)) {
      WithoutMembers(names, src, n);
      NameCallsEffect(names, src, l, t, n);
    }
  }

  lemma {:induction false} AddAgrees(names: seq<string>, s: string, l: Listener, t: Table)
    requires Agree(names, t, l)
    ensures Agree(AddName(names, s), PlainRun(t, AddCalls(names, s, l)), l)
  {
    var u := PlainRun(t, NameCalls(names, s, l));
    UnsetAgrees(names, s, l, t);
    WithoutMembers(names, s, s);
    PlainSnoc(t, NameCalls(names, s, l), Add((s, ReaderType), l));
    assert PlainRun(t, AddCalls(names, s, l)) == Subscribe(u, (s, ReaderType), l);
    forall n ensures n in AddName(names, s) <==> n in Unset(names, s) || n == s {}
  }

  lemma {:induction false} SetAgrees(names: seq<string>, shown: seq<string>, given: seq<string>, l: Listener, t: Table)
    requires Agree(names, t, l)
    ensures Agree(SetNames(names, shown, given), PlainRun(t, SetCalls(names, shown, given, l)), l)
  {
    if given != [] {
      var n := |given| - 1;
      SetAgrees(names, shown, given[..n], l, t);
      SetStep(names, shown, given, n, l, t);
      assert given[..n + 1] == given;
      if given[n] !in shown {
        AddAgrees(SetNames(names, shown, given[..n]), given[n], l, PlainRun(t, SetCalls(names, shown, given[..n], l)));
      }
    }
  }

  lemma {:induction false} OpAgrees(names: seq<string>, op: PlotOp, l: Listener, t: Table)
    requires Agree(names, t, l)
    ensures Agree(OpNames(names, op), PlainRun(t, OpCalls(names, op, l)), l)
  {
    match op
    case SetSources(given) => SetAgrees(names, names, given, l, t);
    case AddSource(s) => AddAgrees(names, s, l, t);
    case UnsetSource(s) => UnsetAgrees(names, s, l, t);
    case UnsetSources => UnsetAgrees(names, "", l, t);
  }

  lemma {:induction false} ElsewhereAgrees(names: seq<string>, ev: Event, l: Listener, t: Table)
    requires Agree(names, t, l) && OwnListener(Elsewhere(ev), l)
    ensures Agree(names, PlainStep(t, ev), l)
  {
    forall n ensures Listens(PlainStep(t, ev), n, l) <==> Listens(t, n, l) {}
  }

  lemma {:induction false} HistoryAgrees(hs: seq<Happening>, l: Listener)
    requires forall i :: 0 <= i < |hs| ==> OwnListener(hs[i], l)
    ensures Inv(History(hs, l).sys) && Agree(History(hs, l).names, TableOf(History(hs, l).sys.e), l)
  {
    if hs == [] {
      ListRefinesTable(true, []);
    } else {
      var h, w := hs[|hs| - 1], History(hs[..|hs| - 1], l);
      HistoryAgrees(hs[..|hs| - 1], l);
      match h
      case Op(op) =>
        RunRefines(w.sys, OpCalls(w.names, op, l));
        OpAgrees(w.names, op, l, TableOf(w.sys.e));
      case Elsewhere(ev) =>
        StepRefines(w.sys, ev);
        ElsewhereAgrees(w.names, ev, l, TableOf(w.sys.e));
    }
  }

  /**
   * End to end: whatever the plot, the other clients and the workers do, the plot shows pairwise distinct
   * sources, and for every non-empty name the listener is on the active action of it exactly if it is shown.
   */
  lemma {:induction false} PlotAgrees(hs: seq<Happening>, l: Listener, n: string)
    requires forall i :: 0 <= i < |hs| ==> OwnListener(hs[i], l)
    requires n != ""
    ensures Distinct(History(hs, l).names)
    ensures n in History(hs, l).names <==> l in Subs(History(hs, l).sys.e, (n, ReaderType))
  {
    HistoryAgrees(hs, l);
    TableGet(History(hs, l).sys.e, (n, ReaderType));
    assert Listens(TableOf(History(hs, l).sys.e), n, l) <==> l in Subs(History(hs, l).sys.e, (n, ReaderType));
  }

  lemma {:induction false} SetNamesNonEmpty(names: seq<string>, shown: seq<string>, given: seq<string>)
    requires "" !in names && "" !in given
    ensures "" !in SetNames(names, shown, given)
  {
    if given != [] {
      SetNamesNonEmpty(names, shown, given[..|given| - 1]);
      WithoutMembers(SetNames(names, shown, given[..|given| - 1]), given[|given| - 1], "");
    }
  }

  lemma {:induction false} NoEmptyName(hs: seq<Happening>, l: Listener)
    requires forall i :: 0 <= i < |hs| ==> NonEmptyNames(hs[i])
    ensures "" !in History(hs, l).names
  {
    if hs != [] {
      var h, w := hs[|hs| - 1], History(hs[..|hs| - 1], l);
      NoEmptyName(hs[..|hs| - 1], l);
      if h.Op? {
        match h.op
        case SetSources(given) => SetNamesNonEmpty(w.names, w.names, given);
        case AddSource(s) => WithoutMembers(w.names, s, "");
        case UnsetSource(s) => WithoutMembers(w.names, s, "");
        case UnsetSources =>
      }
    }
  }

  /** When every name given is non-empty, the listener is on no other reader action at all. */
  lemma {:induction false} PlotAgreesExactly(hs: seq<Happening>, l: Listener)
    requires forall i :: 0 <= i < |hs| ==> OwnListener(hs[i], l) && NonEmptyNames(hs[i])
    ensures var w := History(hs, l);
      forall n :: n in w.names <==> l in Subs(w.sys.e, (n, ReaderType))
  {
    var w := History(hs, l);
    HistoryAgrees(hs, l);
    NoEmptyName(hs, l);
    forall n ensures n in w.names <==> l in Subs(w.sys.e, (n, ReaderType)) {
      TableGet(w.sys.e, (n, ReaderType));
      assert Listens(TableOf(w.sys.e), n, l) <==> l in Subs(w.sys.e, (n, ReaderType));
    }
  }

  ghost predicate Exact(names: seq<string>, t: Table, l: Listener) {
    Distinct(names) && forall n :: n in names <==> Listens(t, n, l)
  }

  /** Unsetting a source keeps the exact agreement unless it deletes another reader than that of a shown empty name. */
  lemma {:induction false} UnsetExactIff(names: seq<string>, src: string, l: Listener, t: Table)
    requires Exact(names, t, l)
    ensures Exact(Unset(names, src), PlainRun(t, NameCalls(names, src, l)), l)
            <==> !("" in names && src != "" && src in names)
  {
    var u := PlainRun(t, NameCalls(names, src, l));
    UnsetAgrees(names, src, l, t);
    NameCallsEffect(names, src, l, t, "");
    WithoutMembers(names, src, "");
    assert Listens(u, "", l) <==> "" in names && src != "" && src !in names;
  }

  /** Adding one that is already shown does the same to the empty name; adding the empty name is safe. */
  lemma {:induction false} AddExactIff(names: seq<string>, s: string, l: Listener, t: Table)
    requires Exact(names, t, l)
    ensures Exact(AddName(names, s), PlainRun(t, AddCalls(names, s, l)), l) <==> !("" in names && s != "" && s in names)
  {
    var u := PlainRun(t, NameCalls(names, s, l));
    AddAgrees(names, s, l, t);
    PlainSnoc(t, NameCalls(names, s, l), Add((s, ReaderType), l));
    NameCallsEffect(names, s, l, t, "");
    WithoutMembers(names, s, "");
    assert Listens(Subscribe(u, (s, ReaderType), l), "", l) <==> s == "" || Listens(u, "", l);
    assert "" in AddName(names, s) <==> s == "" || "" in Unset(names, s);
  }

  /** No name that was not shown is given twice. */
  ghost predicate NoRepeat(given: seq<string>, shown: seq<string>) {
    forall i, j :: 0 <= i < j < |given| && given[i] == given[j] ==> given[i] in shown
  }

  lemma {:induction false} NoRepeatSnoc(front: seq<string>, s: string, shown: seq<string>)
    ensures NoRepeat(front + [s], shown) <==> NoRepeat(front, shown) && (s in shown || s !in front)
  {
    var given := front + [s];
    assert forall i :: 0 <= i < |front| ==> given[i] == front[i];
    if NoRepeat(given, shown) && s in front {
      var i :| 0 <= i < |front| && front[i] == s;
      assert given[i] == given[|front|];
    }
  }

  lemma {:induction false} SetMembers(names: seq<string>, shown: seq<string>, given: seq<string>, s: string)
    requires "" in given ==> "" in shown
    ensures s in SetNames(names, shown, given) <==> s in names || (s in given && s !in shown)
  {
    if given != [] {
      var front, last := given[..|given| - 1], given[|given| - 1];
      assert given == front + [last];
      SetMembers(names, shown, front, s);
      if last !in shown { WithoutMembers(SetNames(names, shown, front), last, s); }
    }
  }

  lemma {:induction false} ExactIffHeard(names: seq<string>, t: Table, l: Listener)
    requires Agree(names, t, l) && "" in names
    ensures Exact(names, t, l) <==> Listens(t, "", l)
  {
  }

  /** Once the empty name has lost its listener, adding another name does not bring it back. */
  lemma {:induction false} StaysLost(names: seq<string>, s: string, l: Listener, t: Table)
    requires !Listens(t, "", l) && s != "" && "" in names
    ensures "" in AddName(names, s) && !Listens(PlainRun(t, AddCalls(names, s, l)), "", l)
  {
    WithoutMembers(names, s, "");
    NameCallsEffect(names, s, l, t, "");
    PlainSnoc(t, NameCalls(names, s, l), Add((s, ReaderType), l));
  }

  /** One more name keeps what is left of the exact agreement unless it was added before. */
  lemma {:induction false} AddHeardIff(names: seq<string>, s: string, l: Listener, t: Table)
    requires Agree(names, t, l) && "" in names && s != ""
    ensures "" in AddName(names, s)
    ensures Listens(PlainRun(t, AddCalls(names, s, l)), "", l) <==> Listens(t, "", l) && s !in names
  {
    ExactIffHeard(names, t, l);
    AddAgrees(names, s, l, t);
    WithoutMembers(names, s, "");
    ExactIffHeard(AddName(names, s), PlainRun(t, AddCalls(names, s, l)), l);
    if Listens(t, "", l) { AddExactIff(names, s, l, t); } else { StaysLost(names, s, l, t); }
  }

  /** With the empty name shown, adding names keeps it if and only if none of them is added twice. */
  lemma {:induction false} SetHeardIff(names: seq<string>, shown: seq<string>, given: seq<string>, l: Listener,
          t: Table)
    requires Exact(names, t, l) && "" in names && ("" in given ==> "" in shown)
    requires forall n :: n in names ==> n == "" || n in shown
    ensures "" in SetNames(names, shown, given)
    ensures Listens(PlainRun(t, SetCalls(names, shown, given, l)), "", l) <==> NoRepeat(given, shown)
  {
    if given != [] {
      var n := |given| - 1;
      var front, s := given[..n], given[n];
      assert given == front + [s] && given[..n + 1] == given;
      SetHeardIff(names, shown, front, l, t);
      SetAgrees(names, shown, front, l, t);
      SetStep(names, shown, given, n, l, t);
      NoRepeatSnoc(front, s, shown);
      if s !in shown {
        SetMembers(names, shown, front, s);
        AddHeardIff(SetNames(names, shown, front), s, l, PlainRun(t, SetCalls(names, shown, front, l)));
      }
    }
  }

  lemma {:induction false} SetExactWithEmpty(names: seq<string>, shown: seq<string>, given: seq<string>, l: Listener,
          t: Table)
    requires Exact(names, t, l) && "" in names && ("" in given ==> "" in shown)
    requires forall n :: n in names ==> n == "" || n in shown
    ensures Exact(SetNames(names, shown, given), PlainRun(t, SetCalls(names, shown, given, l)), l)
            <==> NoRepeat(given, shown)
  {
    SetHeardIff(names, shown, given, l, t);
    SetAgrees(names, shown, given, l, t);
    ExactIffHeard(SetNames(names, shown, given), PlainRun(t, SetCalls(names, shown, given, l)), l);
  }

  /** The part of the given names behind the last empty one. */
  function AfterEmpty(given: seq<string>): (rest: seq<string>)
    ensures "" !in rest && |rest| <= |given| && given[|given| - |rest|..] == rest
    ensures |rest| < |given| ==> given[|given| - |rest| - 1] == ""
  {
    if given == [] || given[|given| - 1] == "" then [] else AfterEmpty(given[..|given| - 1]) + [given[|given| - 1]]
  }

  function NextNames(m: seq<string>, shown: seq<string>, s: string): seq<string> {
    if s in shown then m else AddName(m, s)
  }

  function NextCalls(m: seq<string>, shown: seq<string>, s: string, l: Listener): seq<Event> {
    if s in shown then [] else AddCalls(m, s, l)
  }

  lemma {:induction false} SetSnoc(names: seq<string>, shown: seq<string>, front: seq<string>, s: string, l: Listener)
    ensures var m := SetNames(names, shown, front);
      && SetNames(names, shown, front + [s]) == NextNames(m, shown, s)
      && SetCalls(names, shown, front + [s], l) == SetCalls(names, shown, front, l) + NextCalls(m, shown, s, l)
  {
    assert (front + [s])[..|front|] == front;
  }

  lemma {:induction false} SetNothing(names: seq<string>, shown: seq<string>, l: Listener)
    ensures SetNames(names, shown, []) == names && SetCalls(names, shown, [], l) == []
  {
  }

  lemma {:induction false} CallsAssociate(a: seq<Event>, b: seq<Event>, c: seq<Event>)
    ensures (a + b) + c == a + (b + c) && a + [] == a
  {
  }

  lemma {:induction false} SetSplits(names: seq<string>, shown: seq<string>, a: seq<string>, b: seq<string>,
          l: Listener)
    ensures SetNames(names, shown, a + b) == SetNames(SetNames(names, shown, a), shown, b)
    ensures SetCalls(names, shown, a + b, l)
            == SetCalls(names, shown, a, l) + SetCalls(SetNames(names, shown, a), shown, b, l)
  {
    var m, c := SetNames(names, shown, a), SetCalls(names, shown, a, l);
    if b == [] {
      assert a + b == a;
      SetNothing(m, shown, l);
      CallsAssociate(c, [], []);
    } else {
      var front, s := b[..|b| - 1], b[|b| - 1];
      assert b == front + [s] && a + b == (a + front) + [s];
      SetSplits(names, shown, a, front, l);
      SetSnoc(names, shown, a + front, s, l);
      SetSnoc(m, shown, front, s, l);
      CallsAssociate(c, SetCalls(m, shown, front, l), NextCalls(SetNames(m, shown, front), shown, s, l));
    }
  }

  /** Adding the empty name disposes of every reader, and leaves it alone, with its listener. */
  lemma {:induction false} EmptyAlone(names: seq<string>, l: Listener, t: Table)
    requires Agree(names, t, l)
    ensures AddName(names, "") == [""] && Exact([""], PlainRun(t, AddCalls(names, "", l)), l)
  {
    AddAgrees(names, "", l, t);
    PlainSnoc(t, NameCalls(names, "", l), Add(("", ReaderType), l));
  }

  lemma {:induction false} EmptyAdded(names: seq<string>, shown: seq<string>, a: seq<string>, l: Listener, t: Table)
    requires Agree(names, t, l) && "" !in shown
    ensures SetNames(names, shown, a + [""]) == [""]
    ensures Exact([""], PlainRun(t, SetCalls(names, shown, a + [""], l)), l)
  {
    var m := SetNames(names, shown, a);
    SetSnoc(names, shown, a, "", l);
    SetAgrees(names, shown, a, l, t);
    EmptyAlone(m, l, PlainRun(t, SetCalls(names, shown, a, l)));
    PlainAppend(t, SetCalls(names, shown, a, l), AddCalls(m, "", l));
  }

  /**
   * setSources keeps the exact agreement if and only if no name that was not shown is given twice while the
   * empty name is shown: from the start when it was shown before, else behind the last empty name given.
   */
  lemma {:induction false} SetExactIff(names: seq<string>, given: seq<string>, l: Listener, t: Table)
    requires Exact(names, t, l)
    ensures Exact(SetNames(names, names, given), PlainRun(t, SetCalls(names, names, given, l)), l) <==>
      if "" in names then NoRepeat(given, names)
      else "" !in given || NoRepeat(AfterEmpty(given), names)
  {
    if "" in names {
      SetExactWithEmpty(names, names, given, l, t);
    } else if "" !in given {
      SetAgrees(names, names, given, l, t);
      SetNamesNonEmpty(names, names, given);
    } else {
      SetExactPastEmpty(names, given, l, t);
    }
  }

  lemma {:induction false} SetExactPastEmpty(names: seq<string>, given: seq<string>, l: Listener, t: Table)
    requires Agree(names, t, l) && "" !in names && "" in given
    ensures Exact(SetNames(names, names, given), PlainRun(t, SetCalls(names, names, given, l)), l)
            <==> NoRepeat(AfterEmpty(given), names)
  {
    var b := AfterEmpty(given);
    EmptyFound(given);
    var k := |given| - |b| - 1;
    assert given == (given[..k] + [""]) + b;
    PastEmpty(names, given[..k], b, l, t);
  }

  lemma {:induction false} PastEmpty(names: seq<string>, front: seq<string>, b: seq<string>, l: Listener, t: Table)
    requires Agree(names, t, l) && "" !in names && "" !in b
    ensures var given := (front + [""]) + b;
      Exact(SetNames(names, names, given), PlainRun(t, SetCalls(names, names, given, l)), l) <==> NoRepeat(b, names)
  {
    var a := front + [""];
    var c := SetCalls(names, names, a, l);
    EmptyAdded(names, names, front, l, t);
    SetSplits(names, names, a, b, l);
    PlainAppend(t, c, SetCalls([""], names, b, l));
    SetExactWithEmpty([""], names, b, l, PlainRun(t, c));
  }

  lemma {:induction false} EmptyFound(given: seq<string>)
    requires "" in given
    ensures |AfterEmpty(given)| < |given|
  {
    assert given[0..] == given;
  }

  /** The empty name is different: deleting any other reader unlinks it, while it is still shown. */
  lemma {:induction false} EmptyNameLosesListener(l: Listener)
    ensures var w := History([Op(AddSource("")), Op(AddSource("a"))] + [Op(UnsetSource("a"))], l);
      w.names == [""] && l !in Subs(w.sys.e, ("", ReaderType))
  {
    var hs := [Op(AddSource("")), Op(AddSource("a"))];
    BothShown(hs, l);
    OtherUnset(hs, l);
  }

  lemma {:induction false} OtherUnset(hs: seq<Happening>, l: Listener)
    requires History(hs, l).names == ["", "a"] && forall i :: 0 <= i < |hs| ==> OwnListener(hs[i], l)
    ensures var w := History(hs + [Op(UnsetSource("a"))], l);
      w.names == [""] && l !in Subs(w.sys.e, ("", ReaderType))
  {
    BothNames();
    NamesAfter(hs, UnsetSource("a"), l);
    HistoryAgrees(hs, l);
    HistorySnoc(hs, Op(UnsetSource("a")), l);
    UnsetOther(History(hs, l), "a", l);
  }

  lemma {:induction false} BothShown(hs: seq<Happening>, l: Listener)
    requires hs == [Op(AddSource("")), Op(AddSource("a"))]
    ensures History(hs, l).names == ["", "a"]
  {
    var first := [Op(AddSource(""))];
    assert [] + [Op(AddSource(""))] == first && first + [Op(AddSource("a"))] == hs;
    BothNames();
    NamesAfter([], AddSource(""), l);
    NamesAfter(first, AddSource("a"), l);
  }

  lemma {:induction false} NamesAfter(hs: seq<Happening>, op: PlotOp, l: Listener)
    ensures History(hs + [Op(op)], l).names == OpNames(History(hs, l).names, op)
  {
    HistorySnoc(hs, Op(op), l);
  }

  lemma {:induction false} UnsetOther(w: World, s: string, l: Listener)
    requires Inv(w.sys) && s != "" && s in w.names
    ensures l !in Subs(Happen(w, Op(UnsetSource(s)), l).sys.e, ("", ReaderType))
  {
    var calls := NameCalls(w.names, s, l);
    RunRefines(w.sys, calls);
    NameCallsEffect(w.names, s, l, TableOf(w.sys.e), "");
    TableGet(Run(w.sys, calls).e, ("", ReaderType));
  }

  lemma {:induction false} HistorySnoc(hs: seq<Happening>, h: Happening, l: Listener)
    ensures History(hs + [h], l) == Happen(History(hs, l), h, l)
  {
    assert (hs + [h])[..|hs|] == hs;
  }

  lemma {:induction false} BothNames()
    ensures AddName([], "") == [""] && AddName([""], "a") == ["", "a"] && Unset(["", "a"], "a") == [""]
  {
    assert [""][..0] == [] && ["", "a"][..1] == [""];
    assert Without([""], "a") == [""];
  }

  /** setSources leaves the sources shown in place and adds exactly the other names given, each once. */
  lemma {:induction false} SetAddsTheRest(names: seq<string>, given: seq<string>, n: string)
    requires "" !in given
    ensures n in SetNames(names, names, given) <==> n in names || n in given
    ensures names <= SetNames(names, names, given)
  {
    if given != [] {
      var front, last := given[..|given| - 1], given[|given| - 1];
      assert given == front + [last];
      SetAddsTheRest(names, front, n);
      if last !in names {
        var m := SetNames(names, names, front);
        WithoutMembers(m, last, n);
        WithoutKeepsPrefix(names, m[|names|..], last);
        assert m == names + m[|names|..];
      }
    }
  }

  lemma {:induction false} WithoutKeepsPrefix(a: seq<string>, b: seq<string>, x: string)
    requires x !in a
    ensures a <= Without(a + b, x)
  {
    if b == [] {
      assert a + b == a;
      WithoutAbsent(a, x);
    } else {
      assert (a + b)[..|a + b| - 1] == a + b[..|b| - 1];
      WithoutKeepsPrefix(a, b[..|b| - 1], x);
    }
  }
}
