/** CumbiaRandom: actions shared by source, the service that registers them, and the activity that feeds each. */
module RndEngine {
  import opened RndRegistry

  class CuRNDActionReader {
    const src: string
    const typ: ActType
    const rnd: CumbiaRandom
    var exit: bool
    var listeners: set<Listener>
    /** Whether the activity is registered, and how often it has been unregistered. */
    var registered: bool
    var unregistrations: nat
    var deleted: bool

    ghost function Val(): Act reads this { Act(src, typ, exit, listeners) }

    /** The activity of a started action stays registered until the action is stopped; it is unregistered once. */
    ghost predicate Started() reads this {
      !deleted && registered == !exit && unregistrations == if exit then 1 else 0
    }

    constructor (src: string, typ: ActType, rnd: CumbiaRandom)
      ensures this.src == src && this.typ == typ && this.rnd == rnd
      ensures !exit && listeners == {} && !registered && unregistrations == 0 && !deleted
    {
      this.src, this.typ, this.rnd := src, typ, rnd;
      exit, listeners, registered, unregistrations, deleted := false, {}, false, 0, false;
    }

    method Start()
      requires !deleted && !exit && unregistrations == 0
      modifies this`registered
      ensures Started()
    {
      registered := true;
    }

    method Stop()
      requires Started()
      modifies this`exit, this`registered, this`unregistrations
      ensures Started() && exit
    {
      if !exit {
        exit := true;
        registered := false;
        unregistrations := unregistrations + 1;
      }
    }

    method AddDataListener(l: Listener)
      requires Started()
      modifies this`listeners
      ensures Val() == old(Val()).(lis := old(listeners) + {l})
    {
      listeners := listeners + {l};
    }

    method RemoveDataListener(l: Listener)
      requires Started()
      modifies this`listeners, this`exit, this`registered, this`unregistrations
      ensures Val() == RemoveListener(old(Val()), l) && Started()
    {
      listeners := listeners - {l};
      if |listeners| == 0 { Stop(); }
    }

    /** A result from the activity, with its exit flag; `called` are the listeners updated. */
    method OnResult(isExit: bool) returns (called: set<Listener>)
      requires rnd.Valid() && this in rnd.live
      modifies this`deleted, this`listeners, rnd`live, rnd.service
      ensures rnd.Valid() && rnd.View() == Result(old(rnd.View()), this, isExit)
      ensures called == Receivers(old(rnd.View()), this)
      ensures deleted == (old(exit) && isExit) && (deleted ==> unregistrations == 1)
      ensures rnd.table == old(rnd.table)
    {
      ghost var e := rnd.View();
      ResultRefines(e, this, isExit);
      called := listeners;
      if exit && isExit {
        rnd.service.UnregisterAction(src, typ, e.acts);
        listeners := {};
        deleted := true;
        rnd.Forget(this, e);
      }
    }
  }

  class CuRNDActionFactoryService {
    var actions: seq<CuRNDActionReader>

    ghost predicate Reflects(acts: map<CuRNDActionReader, Act>) reads this, actions {
      forall i :: 0 <= i < |actions| ==> actions[i] in acts && acts[actions[i]] == actions[i].Val()
    }

    constructor ()
      ensures actions == []
    {
      actions := [];
    }

    /** A new action at the end of the list, or null when an active one for the source and type exists. */
    method RegisterAction(src: string, typ: ActType, rnd: CumbiaRandom, ghost acts: map<CuRNDActionReader, Act>)
      returns (action: CuRNDActionReader?)
      requires Reflects(acts)
      modifies this
      ensures action == null <==> ActiveAt(old(actions), acts, (src, typ)) < |old(actions)|
      ensures action == null ==> actions == old(actions)
      ensures action != null ==> fresh(action) && actions == old(actions) + [action]
      ensures action != null ==>
        action.Val() == Act(src, typ, false, {}) && action.rnd == rnd && !action.deleted && action.unregistrations == 0
    {
      action := null;
      var i := 0;
      while i < |actions| && !(actions[i].typ == typ && actions[i].src == src && !actions[i].exit)
        invariant 0 <= i <= |actions|
        invariant forall j :: 0 <= j < i ==> !acts[actions[j]].Active((src, typ))
      {
        i := i + 1;
      }
      if i == |actions| {
        var created := new CuRNDActionReader(src, typ, rnd);
        actions := actions + [created];
        action := created;
      }
    }

    method FindActive(src: string, typ: ActType, ghost acts: map<CuRNDActionReader, Act>)
      returns (action: CuRNDActionReader?)
      requires Reflects(acts)
      ensures action == null <==> ActiveAt(actions, acts, (src, typ)) == |actions|
      ensures action != null ==> action == actions[ActiveAt(actions, acts, (src, typ))]
    {
      for i := 0 to |actions|
        invariant forall j :: 0 <= j < i ==> !acts[actions[j]].Active((src, typ))
      {
        if actions[i].typ == typ && actions[i].src == src && !actions[i].exit { return actions[i]; }
      }
      return null;
    }

    method Find(src: string, typ: ActType, ghost acts: map<CuRNDActionReader, Act>)
      returns (found: seq<CuRNDActionReader>)
      requires Reflects(acts)
      ensures found == Matching(actions, acts, (src, typ))
    {
      found := [];
      for i := 0 to |actions|
        invariant found == Matching(actions[..i], acts, (src, typ))
      {
        assert actions[..i + 1][..i] == actions[..i];
        if actions[i].typ == typ && actions[i].src == src { found := found + [actions[i]]; }
      }
      assert actions[..|actions|] == actions;
    }

    /** Erases every exiting action of the source and type, whichever of them asked for it. */
    method UnregisterAction(src: string, typ: ActType, ghost acts: map<CuRNDActionReader, Act>)
      requires Reflects(acts)
      modifies this
      ensures actions == Unregistered(old(actions), acts, (src, typ))
    {
      ghost var all := actions;
      ghost var n := 0;
      var i := 0;
      assert all[n..] == all;
      while i < |actions|
        invariant 0 <= n <= |all| && 0 <= i <= |actions|
        invariant actions[i..] == all[n..]
        invariant actions[..i] == Unregistered(all[..n], acts, (src, typ))
        decreases |all| - n
      {
        assert actions[i] == all[n] && all[..n + 1][..n] == all[..n];
        assert actions[i..][1..] == all[n..][1..];
        if actions[i].typ == typ && actions[i].src == src && actions[i].exit {
          ghost var before := actions[..i];
          actions := actions[..i] + actions[i + 1..];
          assert actions[..i] == before;
        } else {
          i := i + 1;
        }
        n := n + 1;
      }
      assert all[..|all|] == all && actions[..i] == actions;
    }
  }

  class CumbiaRandom {
    const service: CuRNDActionFactoryService
    /** The actions that have not been deleted. */
    ghost var live: set<CuRNDActionReader>
    /** Who listens to what. */
    ghost var table: Table

    ghost function View(): Engine<CuRNDActionReader> reads this`live, service, live {
      Engine(service.actions, map a | a in live :: a.Val())
    }

    ghost predicate Wired() reads this`live, service, live {
      && (forall i :: 0 <= i < |service.actions| ==> service.actions[i] in live)
      && (forall a :: a in live ==> a.Started() && a.rnd == this)
    }

    ghost predicate Valid() reads this, service, live { Wired() && Registry(View()) && table == TableOf(View()) }

    constructor ()
      ensures Valid() && fresh(service) && live == {} && View() == Engine([], map[]) && table == map[]
    {
      service := new CuRNDActionFactoryService();
      live, table := {}, map[];
    }

    /** Every source is valid for this engine. */
    method AddAction(src: string, typ: ActType, l: Listener) returns (ghost a: CuRNDActionReader)
      requires Valid()
      modifies this, service, live
      ensures Valid() && live == old(live) + {a} && (a in old(live) || fresh(a))
      ensures View() == RndRegistry.AddAction(old(View()), (src, typ), l, a)
      ensures table == Subscribe(old(table), (src, typ), l)
    {
      ghost var e := View();
      a := Attach(src, typ, l);
      AddRefines(e, (src, typ), l, a);
      Record(Subscribe(table, (src, typ), l));
    }

    /** An action that has unregistered itself leaves the engine `e`. */
    ghost method Forget(a: CuRNDActionReader, e: Engine<CuRNDActionReader>)
      requires Registry(e) && e.acts.Keys == live && a in live && e.acts[a].exiting && table == TableOf(e)
      requires service.actions == Unregistered(e.list, e.acts, e.acts[a].KeyOf())
      requires forall b :: b in live && b != a ==> b.Started() && b.rnd == this && b.Val() == e.acts[b]
      modifies this`live
      ensures Valid() && live == old(live) - {a} && View() == Result(e, a, true)
    {
      ResultRefines(e, a, true);
      live := live - {a};
      assert View().acts == e.acts - {a};
    }

    ghost method Record(t: Table)
      requires Wired() && Registry(View()) && t == TableOf(View())
      modifies this`table
      ensures Valid() && table == t && View() == old(View())
    {
      table := t;
    }

    method Attach(src: string, typ: ActType, l: Listener) returns (ghost a: CuRNDActionReader)
      requires Wired()
      modifies this`live, service, live
      ensures Wired() && live == old(live) + {a}
      ensures if ActiveAt(old(service.actions), old(View().acts), (src, typ)) == |old(service.actions)|
              then fresh(a) else a in old(live)
      ensures View() == RndRegistry.AddAction(old(View()), (src, typ), l, a)
    {
      var action := Obtain(src, typ);
      a := action;
      Obtained(old(View()), View(), (src, typ), l, a);
      Listen(action, l);
    }

    method Listen(a: CuRNDActionReader, l: Listener)
      requires Wired() && a in live
      modifies a
      ensures Wired()
      ensures View() == var e := old(View()); e.(acts := e.acts[a := e.acts[a].(lis := e.acts[a].lis + {l})])
    {
      ghost var acts := View().acts;
      a.AddDataListener(l);
      assert View().acts == acts[a := acts[a].(lis := acts[a].lis + {l})];
    }

    /** The active action of the source and type: the registered one, or a new one, registered and started. */
    method Obtain(src: string, typ: ActType) returns (action: CuRNDActionReader)
      requires Wired()
      modifies this`live, service
      ensures Wired() && live == old(live) + {action}
      ensures ActiveAt(old(service.actions), old(View().acts), (src, typ)) == |old(service.actions)| ==> fresh(action)
      ensures WithActive(old(View()), View(), (src, typ), action)
    {
      ghost var e := View();
      var found := service.FindActive(src, typ, e.acts);
      if found == null {
        action := Create(src, typ);
      } else {
        action := found;
      }
    }

    method Create(src: string, typ: ActType) returns (action: CuRNDActionReader)
      requires Wired() && ActiveAt(service.actions, View().acts, (src, typ)) == |service.actions|
      modifies this`live, service
      ensures Wired() && live == old(live) + {action} && fresh(action)
      ensures View() == var e := old(View()); Engine(e.list + [action], e.acts[action := Act(src, typ, false, {})])
    {
      ghost var e := View();
      var created := service.RegisterAction(src, typ, this, e.acts);
      created.Start();
      live := live + {created};
      action := created;
      assert View().acts == e.acts[action := Act(src, typ, false, {})];
    }

    method UnlinkListener(src: string, typ: ActType, l: Listener)
      requires Valid()
      modifies this`table, live
      ensures Valid()
      ensures View() == RndRegistry.UnlinkListener(old(View()), (src, typ), l)
      ensures table == Unsubscribe(old(table), (src, typ), l)
    {
      ghost var e := View();
      UnlinkRefines(e, (src, typ), l);
      Detach(src, typ, l);
      Record(Unsubscribe(table, (src, typ), l));
    }

    method Detach(src: string, typ: ActType, l: Listener)
      requires Wired()
      modifies live
      ensures Wired()
      ensures View() == RndRegistry.UnlinkListener(old(View()), (src, typ), l)
    {
      ghost var e := View();
      var found := service.Find(src, typ, e.acts);
      forall a: CuRNDActionReader | a in live ensures a in found <==> a in e.list && e.acts[a].Matches((src, typ)) {
        MatchingMembers(e.list, e.acts, (src, typ), a);
      }
      forall i | 0 <= i < |found| ensures found[i] in live {
        MatchingMembers(e.list, e.acts, (src, typ), found[i]);
      }
      RemoveFrom(found, l, live);
      assert View().acts == RndRegistry.UnlinkListener(e, (src, typ), l).acts;
    }

    static method RemoveFrom(found: seq<CuRNDActionReader>, l: Listener, ghost live: set<CuRNDActionReader>)
      requires forall a :: a in live ==> a.Started()
      requires forall i :: 0 <= i < |found| ==> found[i] in live
      modifies live
      ensures forall a :: a in live ==> a.Started()
      ensures forall a :: a in live ==> a.Val() == if a in found then RemoveListener(old(a.Val()), l) else old(a.Val())
    {
      for i := 0 to |found|
        invariant forall a :: a in live ==> a.Started()
        invariant forall a ::
                    a in live ==>
                    a.Val() == if a in found[..i] then RemoveListener(old(a.Val()), l) else old(a.Val())
      {
        found[i].RemoveDataListener(l);
        assert found[..i + 1] == found[..i] + [found[i]];
      }
      assert found[..|found|] == found;
    }

    method FindAction(src: string, typ: ActType) returns (action: CuRNDActionReader?)
      requires Valid()
      ensures action == null <==> (src, typ) !in table
      ensures action != null ==> action in live && Get(table, (src, typ)) == action.listeners
    {
      action := service.FindActive(src, typ, View().acts);
      TableGet(View(), (src, typ));
    }
  }

  /** `f` is `e`, in which `a` is the active action of the key, or becomes it. */
  ghost predicate WithActive<A>(e: Engine<A>, f: Engine<A>, k: Key, a: A) {
    var n := ActiveAt(e.list, e.acts, k);
    if n < |e.list| then a == e.list[n] && f == e
    else f == Engine(e.list + [a], e.acts[a := Act(k.0, k.1, false, {})])
  }

  lemma {:induction false} Obtained<A>(e: Engine<A>, f: Engine<A>, k: Key, l: Listener, a: A)
    requires WithActive(e, f, k, a)
    ensures a in f.acts && f.(acts := f.acts[a := f.acts[a].(lis := f.acts[a].lis + {l})]) == AddAction(e, k, l, a)
  {
    assert {} + {l} == {l};
  }
}
