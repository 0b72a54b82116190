/**
 * The registry of shared actions of CumbiaRandom, on values: its list keeps stopped actions until their
 * exit event arrives, and still behaves as a plain table from source to set of listeners.
 */
module RndRegistry {
  import opened Seqs

  type Listener = nat

  datatype ActType = ReaderType | WriterType | AttConfig | DbReadProp | DbWriteProp

  type Key = (string, ActType)

  /** The state of one action. */
  datatype Act = Act(src: string, typ: ActType, exiting: bool, lis: set<Listener>) {
    predicate Active(k: Key) { typ == k.1 && src == k.0 && !exiting }
    predicate Matches(k: Key) { typ == k.1 && src == k.0 }
    function KeyOf(): Key { (src, typ) }
  }

  /** The registry's list, and the actions that have not been deleted, by identity. */
  datatype Engine<A> = Engine(list: seq<A>, acts: map<A, Act>)

  /** Every listed action is alive, once; an unlisted one exits; exiting means no listener; one active one a key. */
  ghost predicate Registry<A>(e: Engine<A>) {
    && Distinct(e.list)
    && (forall i :: 0 <= i < |e.list| ==> e.list[i] in e.acts)
    && (forall a :: a in e.acts ==> (e.acts[a].exiting <==> e.acts[a].lis == {}))
    && (forall a :: a in e.acts && !e.acts[a].exiting ==> a in e.list)
    && (forall a, b ::
          a in e.acts && b in e.acts && !e.acts[a].exiting && e.acts[b].Active(e.acts[a].KeyOf()) ==> a == b)
  }

  // ---- the scans of the registry

  /** The position of the first active action of the key; the length when there is none. */
  function ActiveAt<A>(list: seq<A>, acts: map<A, Act>, k: Key): (n: nat)
    ensures n <= |list|
    ensures n < |list| ==> list[n] in acts && acts[list[n]].Active(k)
    ensures forall j :: 0 <= j < n ==> !(list[j] in acts && acts[list[j]].Active(k))
  {
    if list == [] then 0
    else
      var n := ActiveAt(list[..|list| - 1], acts, k);
      var last := list[|list| - 1];
      if n < |list| - 1 then n
      else if last in acts && acts[last].Active(k) then |list| - 1
      else |list|
  }

  /** The listed actions of the key, exiting ones included. */
  function Matching<A>(list: seq<A>, acts: map<A, Act>, k: Key): seq<A> {
    if list == [] then []
    else
      var last := list[|list| - 1];
      Matching(list[..|list| - 1], acts, k) + if last in acts && acts[last].Matches(k) then [last] else []
  }

  /** The list without the exiting actions of the key. */
  function Unregistered<A>(list: seq<A>, acts: map<A, Act>, k: Key): seq<A> {
    if list == [] then []
    else
      var last := list[|list| - 1];
      Unregistered(list[..|list| - 1], acts, k) +
      if last in acts && acts[last].Matches(k) && acts[last].exiting then [] else [last]
  }

  lemma {:induction false} MatchingMembers<A>(list: seq<A>, acts: map<A, Act>, k: Key, a: A)
    ensures a in Matching(list, acts, k) <==> a in list && a in acts && acts[a].Matches(k)
  {
    if list != [] { MatchingMembers(list[..|list| - 1], acts, k, a); }
  }

  lemma {:induction false} UnregisteredMembers<A>(list: seq<A>, acts: map<A, Act>, k: Key, a: A)
    ensures a in Unregistered(list, acts, k) <==> a in list && !(a in acts && acts[a].Matches(k) && acts[a].exiting)
  {
    if list != [] { UnregisteredMembers(list[..|list| - 1], acts, k, a); }
  }

  lemma {:induction false} UnregisteredDistinct<A>(list: seq<A>, acts: map<A, Act>, k: Key)
    requires Distinct(list)
    ensures Distinct(Unregistered(list, acts, k))
  {
    if list != [] {
      var front, last := list[..|list| - 1], list[|list| - 1];
      UnregisteredDistinct(front, acts, k);
      UnregisteredMembers(front, acts, k, last);
    }
  }

  // ---- the operations of the engine

  /** `created` is the action created when no active one exists. */
  function AddAction<A>(e: Engine<A>, k: Key, l: Listener, created: A): Engine<A> {
    var n := ActiveAt(e.list, e.acts, k);
    if n < |e.list| then e.(acts := e.acts[e.list[n] := e.acts[e.list[n]].(lis := e.acts[e.list[n]].lis + {l})])
    else Engine(e.list + [created], e.acts[created := Act(k.0, k.1, false, {l})])
  }

  function RemoveListener(x: Act, l: Listener): Act {
    x.(lis := x.lis - {l}, exiting := x.exiting || x.lis - {l} == {})
  }

  function UnlinkListener<A>(e: Engine<A>, k: Key, l: Listener): Engine<A> {
    e.(acts := map a | a in e.acts ::
         if a in e.list && e.acts[a].Matches(k) then RemoveListener(e.acts[a], l) else e.acts[a])
  }

  /** A stopped action deletes itself on the exit event of its activity; any other result changes nothing. */
  function Result<A>(e: Engine<A>, a: A, exit: bool): Engine<A> {
    if a in e.acts && e.acts[a].exiting && exit
    then Engine(Unregistered(e.list, e.acts, e.acts[a].KeyOf()), e.acts - {a})
    else e
  }

  /** The listeners that a result of the action is delivered to. */
  function Receivers<A>(e: Engine<A>, a: A): set<Listener> { if a in e.acts then e.acts[a].lis else {} }

  // ---- the plain table

  /** Only the keys somebody listens to. */
  type Table = map<Key, set<Listener>>

  ghost predicate Tidy(t: Table) { forall k :: k in t ==> t[k] != {} }

  function Get(t: Table, k: Key): set<Listener> { if k in t then t[k] else {} }

  function Subscribe(t: Table, k: Key, l: Listener): Table { t[k := Get(t, k) + {l}] }

  function Unsubscribe(t: Table, k: Key, l: Listener): Table {
    if Get(t, k) - {l} == {} then t - {k} else t[k := Get(t, k) - {l}]
  }

  function Subs<A>(e: Engine<A>, k: Key): set<Listener> {
    var n := ActiveAt(e.list, e.acts, k);
    if n < |e.list| then e.acts[e.list[n]].lis else {}
  }

  /** What the engine looks like from outside: the listeners of the active action of every key. */
  ghost function TableOf<A>(e: Engine<A>): Table
    requires forall i :: 0 <= i < |e.list| ==> e.list[i] in e.acts
  {
    map k | k in (set i | 0 <= i < |e.list| :: e.acts[e.list[i]].KeyOf()) && Subs(e, k) != {} :: Subs(e, k)
  }

  lemma {:induction false} TableGet<A>(e: Engine<A>, k: Key)
    requires Registry(e)
    ensures Get(TableOf(e), k) == Subs(e, k)
    ensures k in TableOf(e) <==> Subs(e, k) != {}
  {
    var n := ActiveAt(e.list, e.acts, k);
    if n < |e.list| { assert e.acts[e.list[n]].KeyOf() == k; }
  }

  lemma {:induction false} SameTable(t: Table, u: Table)
    requires Tidy(t) && Tidy(u)
    requires forall k :: Get(t, k) == Get(u, k)
    ensures t == u
  {
    forall k ensures k in t <==> k in u { assert Get(t, k) == Get(u, k); }
    forall k | k in t ensures t[k] == u[k] { assert Get(t, k) == Get(u, k); }
  }

  lemma {:induction false} ActiveSubs<A>(e: Engine<A>, a: A)
    requires Registry(e) && a in e.acts && !e.acts[a].exiting
    ensures Subs(e, e.acts[a].KeyOf()) == e.acts[a].lis
  {
    var k := e.acts[a].KeyOf();
    var n := ActiveAt(e.list, e.acts, k);
    var i :| 0 <= i < |e.list| && e.list[i] == a;
    assert e.acts[e.list[i]].Active(k);
    assert n <= i;
  }

  // ---- refinement: each operation on the list is the plain operation on the table

  lemma {:induction false} AddKeepsRegistry<A>(e: Engine<A>, k: Key, l: Listener, created: A)
    requires Registry(e) && (ActiveAt(e.list, e.acts, k) == |e.list| ==> created !in e.acts)
    ensures Registry(AddAction(e, k, l, created))
  {
    var n, f := ActiveAt(e.list, e.acts, k), AddAction(e, k, l, created);
    if n == |e.list| {
      assert created !in e.list;
      assert f.list[|e.list|] == created;
      forall a | a in e.acts && !e.acts[a].exiting ensures !e.acts[a].Active(k) {
        var i :| 0 <= i < |e.list| && e.list[i] == a;
      }
    }
  }

  lemma {:induction false} AddSharesSubs<A>(e: Engine<A>, k: Key, l: Listener, created: A, q: Key)
    requires Registry(e) && ActiveAt(e.list, e.acts, k) < |e.list|
    ensures Subs(AddAction(e, k, l, created), q) == if q == k then Subs(e, k) + {l} else Subs(e, q)
  {
    var f := AddAction(e, k, l, created);
    assert f.list == e.list;
    assert forall i :: 0 <= i < |e.list| ==> (f.acts[e.list[i]].Active(q) <==> e.acts[e.list[i]].Active(q));
    assert ActiveAt(f.list, f.acts, q) == ActiveAt(e.list, e.acts, q);
  }

  lemma {:induction false} ActiveAtSame<A>(list: seq<A>, acts: map<A, Act>, more: map<A, Act>, q: Key)
    requires forall i :: 0 <= i < |list| ==> list[i] in acts && list[i] in more && acts[list[i]] == more[list[i]]
    ensures ActiveAt(list, acts, q) == ActiveAt(list, more, q)
  {
    if list != [] { ActiveAtSame(list[..|list| - 1], acts, more, q); }
  }

  lemma {:induction false} ActiveAtSnoc<A>(list: seq<A>, a: A, acts: map<A, Act>, q: Key)
    ensures ActiveAt(list + [a], acts, q) ==
      var n := ActiveAt(list, acts, q);
      if n < |list| then n else if a in acts && acts[a].Active(q) then |list| else |list| + 1
  {
    assert (list + [a])[..|list|] == list;
  }

  lemma {:induction false} AddCreatesSubs<A>(e: Engine<A>, k: Key, l: Listener, created: A, q: Key)
    requires Registry(e) && created !in e.acts && ActiveAt(e.list, e.acts, k) == |e.list|
    ensures Subs(AddAction(e, k, l, created), q) == if q == k then Subs(e, k) + {l} else Subs(e, q)
  {
    var f := AddAction(e, k, l, created);
    ActiveAtSnoc(e.list, created, f.acts, q);
    ActiveAtSame(e.list, e.acts, f.acts, q);
  }

  lemma {:induction false} AddGet<A>(e: Engine<A>, k: Key, l: Listener, created: A, q: Key)
    requires Registry(e) && (ActiveAt(e.list, e.acts, k) == |e.list| ==> created !in e.acts)
    ensures Registry(AddAction(e, k, l, created))
    ensures Get(TableOf(AddAction(e, k, l, created)), q) == Get(Subscribe(TableOf(e), k, l), q)
  {
    AddKeepsRegistry(e, k, l, created);
    if ActiveAt(e.list, e.acts, k) < |e.list| { AddSharesSubs(e, k, l, created, q); }
    else { AddCreatesSubs(e, k, l, created, q); }
    TableGet(e, q);
    TableGet(AddAction(e, k, l, created), q);
  }

  /** addAction on the list is subscription in the table. */
  lemma {:induction false} AddRefines<A>(e: Engine<A>, k: Key, l: Listener, created: A)
    requires Registry(e) && (ActiveAt(e.list, e.acts, k) == |e.list| ==> created !in e.acts)
    ensures Registry(AddAction(e, k, l, created))
    ensures TableOf(AddAction(e, k, l, created)) == Subscribe(TableOf(e), k, l)
  {
    AddKeepsRegistry(e, k, l, created);
    var t, u := TableOf(AddAction(e, k, l, created)), Subscribe(TableOf(e), k, l);
    forall q ensures Get(t, q) == Get(u, q) { AddGet(e, k, l, created, q); }
    SameTable(t, u);
  }

  lemma {:induction false} UnlinkKeepsRegistry<A>(e: Engine<A>, k: Key, l: Listener)
    requires Registry(e)
    ensures Registry(UnlinkListener(e, k, l))
  {
  }

  lemma {:induction false} UnlinkSubs<A>(e: Engine<A>, k: Key, l: Listener, q: Key)
    requires Registry(e)
    ensures Subs(UnlinkListener(e, k, l), q) == if q == k then Subs(e, k) - {l} else Subs(e, q)
  {
    var f := UnlinkListener(e, k, l);
    UnlinkKeepsRegistry(e, k, l);
    assert forall i :: 0 <= i < |e.list| && f.acts[e.list[i]].Active(q) ==> e.acts[e.list[i]].Active(q);
    var n := ActiveAt(e.list, e.acts, q);
    if n < |e.list| {
      ActiveSubs(e, e.list[n]);
      if !f.acts[e.list[n]].exiting { ActiveSubs(f, e.list[n]); }
    }
  }

  lemma {:induction false} UnsubscribeGet(t: Table, k: Key, l: Listener, q: Key)
    ensures Get(Unsubscribe(t, k, l), q) == if q == k then Get(t, k) - {l} else Get(t, q)
  {
  }

  lemma {:induction false} UnlinkGet<A>(e: Engine<A>, k: Key, l: Listener, q: Key)
    requires Registry(e)
    ensures Registry(UnlinkListener(e, k, l))
    ensures Get(TableOf(UnlinkListener(e, k, l)), q) == Get(Unsubscribe(TableOf(e), k, l), q)
  {
    UnlinkKeepsRegistry(e, k, l);
    UnlinkSubs(e, k, l, q);
    TableGet(e, q);
    TableGet(UnlinkListener(e, k, l), q);
    UnsubscribeGet(TableOf(e), k, l, q);
  }

  /** unlinkListener, which visits exiting actions too, is unsubscription in the table. */
  lemma {:induction false} UnlinkRefines<A>(e: Engine<A>, k: Key, l: Listener)
    requires Registry(e)
    ensures Registry(UnlinkListener(e, k, l))
    ensures TableOf(UnlinkListener(e, k, l)) == Unsubscribe(TableOf(e), k, l)
  {
    UnlinkKeepsRegistry(e, k, l);
    var t, u := TableOf(UnlinkListener(e, k, l)), Unsubscribe(TableOf(e), k, l);
    forall q ensures Get(t, q) == Get(u, q) { UnlinkGet(e, k, l, q); }
    SameTable(t, u);
  }

  lemma {:induction false} ResultKeepsRegistry<A>(e: Engine<A>, a: A, exit: bool)
    requires Registry(e)
    ensures Registry(Result(e, a, exit))
  {
    var f := Result(e, a, exit);
    if f != e {
      var k := e.acts[a].KeyOf();
      UnregisteredDistinct(e.list, e.acts, k);
      forall i | 0 <= i < |f.list| ensures f.list[i] in f.acts {
        UnregisteredMembers(e.list, e.acts, k, f.list[i]);
        assert f.list[i] in f.list;
      }
      forall b | b in f.acts && !f.acts[b].exiting ensures b in f.list {
        UnregisteredMembers(e.list, e.acts, k, b);
      }
    }
  }

  lemma {:induction false} ResultSubs<A>(e: Engine<A>, a: A, exit: bool, q: Key)
    requires Registry(e)
    ensures Subs(Result(e, a, exit), q) == Subs(e, q)
  {
    var f := Result(e, a, exit);
    ResultKeepsRegistry(e, a, exit);
    var n, m := ActiveAt(e.list, e.acts, q), ActiveAt(f.list, f.acts, q);
    if n < |e.list| {
      ActiveSubs(e, e.list[n]);
      ActiveSubs(f, e.list[n]);
    } else if m < |f.list| {
      UnregisteredMembers(e.list, e.acts, e.acts[a].KeyOf(), f.list[m]);
      assert false;
    }
  }

  /** No result changes the table, not even one that deletes an action. */
  lemma {:induction false} ResultRefines<A>(e: Engine<A>, a: A, exit: bool)
    requires Registry(e)
    ensures Registry(Result(e, a, exit))
    ensures TableOf(Result(e, a, exit)) == TableOf(e)
  {
    var f := Result(e, a, exit);
    ResultKeepsRegistry(e, a, exit);
    forall q ensures Get(TableOf(f), q) == Get(TableOf(e), q) {
      ResultSubs(e, a, exit, q);
      TableGet(e, q);
      TableGet(f, q);
    }
    SameTable(TableOf(f), TableOf(e));
  }

  /** A result of an active action reaches exactly the listeners of its source; one of an exiting action, nobody. */
  lemma {:induction false} ResultReaches<A>(e: Engine<A>, a: A)
    requires Registry(e) && a in e.acts
    ensures Receivers(e, a) == if e.acts[a].exiting then {} else Get(TableOf(e), e.acts[a].KeyOf())
  {
    if !e.acts[a].exiting {
      ActiveSubs(e, a);
      TableGet(e, e.acts[a].KeyOf());
    }
  }
}
