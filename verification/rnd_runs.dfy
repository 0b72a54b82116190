/**
 * Runs of the random engine with its worker threads. The main thread adds and unlinks listeners; every
 * action has its own activity on a thread, whose events wait in a mailbox until the main thread takes them in
 * order. What the base library does when an activity is unregistered is a parameter of the runs: `cuts` says
 * that its listener is dropped at once, which is what CuThread does, and then no stopped action is ever deleted.
 */
module RndRuns {
  import opened Seqs
  import opened RndRegistry
  import opened WorkerThread

  /** `next` names the next action; `deleted` and `calls` are histories. */
  datatype Sys =
    Sys(e: Engine<nat>, workers: map<nat, Worker>, next: nat, deleted: seq<nat>, calls: seq<Update>, cuts: bool)

  /** A delivered result: the action, the message, and the listeners that got it. */
  datatype Update = Update(a: nat, msg: Msg, to: set<Listener>)

  datatype Event =
    | Add(k: Key, l: Listener)
    | Unlink(k: Key, l: Listener)
    | Work(a: nat, leave: bool)
    | Deliver(a: nat)

  function Start(cuts: bool): Sys { Sys(Engine([], map[]), map[], 0, [], [], cuts) }

  /** Stopping an action unregisters its activity; stop does nothing the second time. */
  function Stopped(e: Engine<nat>, f: Engine<nat>, w: map<nat, Worker>, cuts: bool): map<nat, Worker> {
    map a | a in w ::
      if a in e.acts && a in f.acts && !e.acts[a].exiting && f.acts[a].exiting then Unregister(w[a], cuts) else w[a]
  }

  function Step(s: Sys, ev: Event): Sys {
    match ev
    case Add(k, l) =>
      var created := ActiveAt(s.e.list, s.e.acts, k) == |s.e.list|;
      s.(e := AddAction(s.e, k, l, s.next),
         workers := if created then s.workers[s.next := NEW_WORKER] else s.workers,
         next := if created then s.next + 1 else s.next)
    case Unlink(k, l) =>
      s.(e := UnlinkListener(s.e, k, l), workers := Stopped(s.e, UnlinkListener(s.e, k, l), s.workers, s.cuts))
    case Work(a, leave) =>
      if a in s.workers then s.(workers := s.workers[a := WorkerStep(s.workers[a], leave)]) else s
    case Deliver(a) =>
      if a in s.workers && s.workers[a].mail != [] then Delivered(s, a) else s
  }

  /** The next event of an activity is taken, and passed on to its action if the action is still connected. */
  function Delivered(s: Sys, a: nat): Sys
    requires a in s.workers && s.workers[a].mail != []
  {
    var w := s.workers[a];
    var taken := s.workers[a := Take(w)];
    if PassedOn(w) then
      var f := Result(s.e, a, w.mail[0] == Exit);
      s.(e := f, workers := taken,
         deleted := if a in s.e.acts && a !in f.acts then s.deleted + [a] else s.deleted,
         calls := s.calls + [Update(a, w.mail[0], Receivers(s.e, a))])
    else s.(workers := taken)
  }

  function Run(s: Sys, evs: seq<Event>): Sys {
    if evs == [] then s else Step(Run(s, evs[..|evs| - 1]), evs[|evs| - 1])
  }

  /** The engine as its clients think of it: a table of subscriptions, untouched by workers. */
  function PlainStep(t: Table, ev: Event): Table {
    match ev
    case Add(k, l) => Subscribe(t, k, l)
    case Unlink(k, l) => Unsubscribe(t, k, l)
    case Work(_, _) => t
    case Deliver(_) => t
  }

  function PlainRun(t: Table, evs: seq<Event>): Table {
    if evs == [] then t else PlainStep(PlainRun(t, evs[..|evs| - 1]), evs[|evs| - 1])
  }

  // ---- what every step keeps

  /** The exit result and the notice end the mail, once, after the activity has been unregistered. */
  ghost predicate MailOf(w: Worker) {
    if w.phase != Done then Exit !in w.mail && Gone !in w.mail && w.gone == 0
    else
      && w.unregs > 0
      && (forall i :: 0 <= i < |w.mail| && w.mail[i] == Exit ==> i == |w.mail| - 2)
      && (forall i :: 0 <= i < |w.mail| && w.mail[i] == Gone ==> i == |w.mail| - 1)
      && (w.gone == 0 ==> w.mail != [] && w.mail[|w.mail| - 1] == Gone)
      && (w.gone > 0 ==> w.gone == 1 && w.mail == [])
  }

  /** The exit result has still to be taken. */
  predicate ExitAhead(w: Worker) { w.phase == Done ==> |w.mail| >= 2 && w.mail[|w.mail| - 2] == Exit }

  ghost predicate WorkerOf(s: Sys, a: nat)
    requires a in s.workers
  {
    var w := s.workers[a];
    && MailOf(w)
    && (w.connected <==> !(s.cuts && w.unregs > 0))
    && (a in s.e.acts ==> w.unregs == (if s.e.acts[a].exiting then 1 else 0) && (!s.cuts ==> ExitAhead(w)))
    && (a !in s.e.acts ==> !s.cuts && w.phase == Done && w.unregs == 1 && |w.mail| <= 1)
    && (s.cuts ==> a in s.e.acts && a in s.e.list)
  }

  ghost predicate Inv(s: Sys) {
    && Registry(s.e)
    && (forall a :: a in s.workers <==> 0 <= a < s.next)
    && (forall a :: a in s.e.acts ==> a in s.workers)
    && (forall a :: a in s.workers ==> WorkerOf(s, a))
    && Distinct(s.deleted)
    && (forall a :: a in s.deleted <==> a in s.workers && a !in s.e.acts)
    && (s.cuts ==> s.deleted == [])
  }

  /** An action that a step does not concern. */
  lemma {:induction false} SameWorker(s: Sys, t: Sys, a: nat)
    requires a in s.workers && WorkerOf(s, a) && a in t.workers && t.workers[a] == s.workers[a] && t.cuts == s.cuts
    requires (a in t.e.acts <==> a in s.e.acts) && (a in s.e.acts ==> t.e.acts[a].exiting == s.e.acts[a].exiting)
    requires a in s.e.list ==> a in t.e.list
    ensures WorkerOf(t, a)
  {
  }

  lemma {:induction false} AddSharedKeeps(s: Sys, k: Key, l: Listener)
    requires Inv(s) && ActiveAt(s.e.list, s.e.acts, k) < |s.e.list|
    ensures Inv(Step(s, Add(k, l)))
  {
    AddKeepsRegistry(s.e, k, l, s.next);
    var t := Step(s, Add(k, l));
    assert t.e.acts.Keys == s.e.acts.Keys;
    forall a | a in t.workers ensures WorkerOf(t, a) {
      assert WorkerOf(s, a);
      assert a in s.e.acts ==> t.e.acts[a].exiting == s.e.acts[a].exiting;
    }
  }

  lemma {:induction false} AddCreatedWorkers(s: Sys, k: Key, l: Listener, a: nat)
    requires Inv(s) && ActiveAt(s.e.list, s.e.acts, k) == |s.e.list| && a in Step(s, Add(k, l)).workers
    ensures WorkerOf(Step(s, Add(k, l)), a)
  {
    var t := Step(s, Add(k, l));
    assert t.e.list[|s.e.list|] == s.next;
    if a != s.next {
      assert forall i :: 0 <= i < |s.e.list| ==> t.e.list[i] == s.e.list[i];
      SameWorker(s, t, a);
    }
  }

  lemma {:induction false} AddCreatedKeeps(s: Sys, k: Key, l: Listener)
    requires Inv(s) && ActiveAt(s.e.list, s.e.acts, k) == |s.e.list|
    ensures Inv(Step(s, Add(k, l)))
  {
    assert s.next !in s.e.acts;
    AddKeepsRegistry(s.e, k, l, s.next);
    var t := Step(s, Add(k, l));
    assert t.e.acts.Keys == s.e.acts.Keys + {s.next};
    forall a | a in t.workers ensures WorkerOf(t, a) { AddCreatedWorkers(s, k, l, a); }
    OneMore(s, t);
  }

  /** A step that creates one action. */
  lemma {:induction false} OneMore(s: Sys, t: Sys)
    requires Inv(s) && Registry(t.e) && t.next == s.next + 1 && t.deleted == s.deleted && t.cuts == s.cuts
    requires t.e.acts.Keys == s.e.acts.Keys + {s.next} && t.workers.Keys == s.workers.Keys + {s.next}
    requires forall a :: a in t.workers ==> WorkerOf(t, a)
    ensures Inv(t)
  {
    assert s.next !in s.deleted;
    assert forall a :: a in t.workers <==> a in s.workers || a == s.next;
    assert forall a :: a in t.e.acts <==> a in s.e.acts || a == s.next;
  }

  lemma {:induction false} UnlinkKeeps(s: Sys, k: Key, l: Listener)
    requires Inv(s)
    ensures Inv(Step(s, Unlink(k, l)))
  {
    UnlinkKeepsRegistry(s.e, k, l);
    var t := Step(s, Unlink(k, l));
    forall a | a in t.workers ensures WorkerOf(t, a) { assert WorkerOf(s, a); }
  }

  lemma {:induction false} MailKept(w: Worker, leave: bool)
    requires MailOf(w)
    ensures MailOf(WorkerStep(w, leave)) && (ExitAhead(w) ==> ExitAhead(WorkerStep(w, leave)))
  {
    var m := WorkerStep(w, leave).mail;
    if w.phase == Running && leave && w.unregs > 0 {
      assert m[|m| - 2] == Exit && m[|m| - 1] == Gone;
    }
  }

  /** A step that changes one worker only. */
  lemma {:induction false} OneWorker(s: Sys, t: Sys, b: nat)
    requires Inv(s) && b in s.workers && b in t.workers && t.workers == s.workers[b := t.workers[b]]
    requires t.e == s.e && t.next == s.next && t.deleted == s.deleted && t.cuts == s.cuts && WorkerOf(t, b)
    ensures Inv(t)
  {
    forall a | a in t.workers ensures WorkerOf(t, a) {
      if a != b { SameWorker(s, t, a); }
    }
  }

  lemma {:induction false} WorkKeeps(s: Sys, b: nat, leave: bool)
    requires Inv(s)
    ensures Inv(Step(s, Work(b, leave)))
  {
    if b in s.workers {
      assert WorkerOf(s, b);
      MailKept(s.workers[b], leave);
      OneWorker(s, Step(s, Work(b, leave)), b);
    }
  }

  lemma {:induction false} MailTaken(w: Worker)
    requires MailOf(w) && w.mail != []
    ensures MailOf(Take(w)) && (w.mail[0] != Exit && ExitAhead(w) ==> ExitAhead(Take(w)))
    ensures w.mail[0] == Exit ==> |w.mail| == 2
    ensures w.mail[0] == Gone ==> |w.mail| == 1
  {
    var m := w.mail[1..];
    assert forall i :: 0 <= i < |m| ==> m[i] == w.mail[i + 1];
  }

  /** Taking an event that is not passed on changes nothing but the mail. */
  lemma {:induction false} DiscardKeeps(s: Sys, b: nat)
    requires Inv(s) && b in s.workers && s.workers[b].mail != [] && !PassedOn(s.workers[b])
    ensures Inv(Step(s, Deliver(b)))
  {
    assert WorkerOf(s, b);
    MailTaken(s.workers[b]);
    OneWorker(s, Step(s, Deliver(b)), b);
  }

  lemma {:induction false} ValueKeeps(s: Sys, b: nat)
    requires Inv(s) && b in s.workers && s.workers[b].mail != [] && PassedOn(s.workers[b])
             && s.workers[b].mail[0] != Exit
    ensures Inv(Step(s, Deliver(b)))
  {
    assert WorkerOf(s, b);
    MailTaken(s.workers[b]);
    OneWorker(s, Step(s, Deliver(b)), b);
  }

  /** An exit result that is passed on finds its action alive and stopped, and deletes it. */
  lemma {:induction false} ExitKeeps(s: Sys, b: nat)
    requires Inv(s) && b in s.workers && s.workers[b].mail != [] && PassedOn(s.workers[b])
             && s.workers[b].mail[0] == Exit
    ensures !s.cuts && b in s.e.acts && s.e.acts[b].exiting && b !in Step(s, Deliver(b)).e.acts
    ensures Inv(Step(s, Deliver(b)))
  {
    assert WorkerOf(s, b);
    MailTaken(s.workers[b]);
    ResultKeepsRegistry(s.e, b, true);
    var t := Step(s, Deliver(b));
    assert t.e.acts == s.e.acts - {b} && t.deleted == s.deleted + [b];
    forall a | a in t.workers ensures WorkerOf(t, a) { assert WorkerOf(s, a); }
  }

  lemma {:induction false} StepKeeps(s: Sys, ev: Event)
    requires Inv(s)
    ensures Inv(Step(s, ev)) && Step(s, ev).cuts == s.cuts
  {
    match ev
    case Add(k, l) =>
      if ActiveAt(s.e.list, s.e.acts, k) < |s.e.list| { AddSharedKeeps(s, k, l); } else { AddCreatedKeeps(s, k, l); }
    case Unlink(k, l) => UnlinkKeeps(s, k, l);
    case Work(a, leave) => WorkKeeps(s, a, leave);
    case Deliver(a) =>
      if a in s.workers && s.workers[a].mail != [] {
        if !PassedOn(s.workers[a]) { DiscardKeeps(s, a); }
        else if s.workers[a].mail[0] == Exit { ExitKeeps(s, a); }
        else { ValueKeeps(s, a); }
      }
  }

  lemma {:induction false} StepRefines(s: Sys, ev: Event)
    requires Inv(s)
    ensures Inv(Step(s, ev)) && Step(s, ev).cuts == s.cuts
    ensures TableOf(Step(s, ev).e) == PlainStep(TableOf(s.e), ev)
  {
    StepKeeps(s, ev);
    match ev
    case Add(k, l) => AddRefines(s.e, k, l, s.next);
    case Unlink(k, l) => UnlinkRefines(s.e, k, l);
    case Work(_, _) =>
    case Deliver(a) => DeliverRefines(s, a);
  }

  lemma {:induction false} DeliverRefines(s: Sys, a: nat)
    requires Registry(s.e)
    ensures Registry(Step(s, Deliver(a)).e) && TableOf(Step(s, Deliver(a)).e) == TableOf(s.e)
    ensures forall b ::
              b in Step(s, Deliver(a)).e.acts ==>
              b in s.e.acts && Step(s, Deliver(a)).e.acts[b] == s.e.acts[b]
  {
    if a in s.workers && s.workers[a].mail != [] { ResultRefines(s.e, a, s.workers[a].mail[0] == Exit); }
  }

  lemma {:induction false} RunRefines(s: Sys, evs: seq<Event>)
    requires Inv(s)
    ensures Inv(Run(s, evs)) && Run(s, evs).cuts == s.cuts
    ensures TableOf(Run(s, evs).e) == PlainRun(TableOf(s.e), evs)
  {
    if evs != [] {
      RunRefines(s, evs[..|evs| - 1]);
      StepRefines(Run(s, evs[..|evs| - 1]), evs[|evs| - 1]);
    }
  }

  // ---- main results, whatever the library does

  /** In every run the list of actions, zombies included, simulates the plain table. */
  lemma {:induction false} ListRefinesTable(cuts: bool, evs: seq<Event>)
    ensures Inv(Run(Start(cuts), evs)) && Run(Start(cuts), evs).cuts == cuts
    ensures TableOf(Run(Start(cuts), evs).e) == PlainRun(map[], evs)
  {
    assert TableOf(Start(cuts).e) == map[];
    RunRefines(Start(cuts), evs);
  }

  lemma {:induction false} RunSnoc(s: Sys, evs: seq<Event>, ev: Event)
    ensures Run(s, evs + [ev]) == Step(Run(s, evs), ev)
  {
    assert (evs + [ev])[..|evs|] == evs;
  }

  /**
   * In every reachable state, the next event of an activity is passed on exactly if it is a result and its
   * action is active, or stopped under a library that does not cut. Then the action has not been deleted, and
   * the result reaches exactly the listeners of its source, or nobody when the action is exiting.
   */
  lemma {:induction false} DeliveryReaches(cuts: bool, evs: seq<Event>, a: nat)
    requires var s := Run(Start(cuts), evs); a in s.workers && s.workers[a].mail != []
    ensures var s, t := Run(Start(cuts), evs), Run(Start(cuts), evs + [Deliver(a)]);
      var m := s.workers[a].mail[0];
      if m != Gone && (cuts ==> a in s.e.acts && !s.e.acts[a].exiting)
      then a in s.e.acts && a !in s.deleted
           && t.calls == s.calls + [Update(a, m,
                if s.e.acts[a].exiting then {} else Get(PlainRun(map[], evs), s.e.acts[a].KeyOf()))]
      else t.calls == s.calls && t.e == s.e && t.deleted == s.deleted
  {
    ListRefinesTable(cuts, evs);
    RunSnoc(Start(cuts), evs, Deliver(a));
    DeliverCalls(Run(Start(cuts), evs), a);
  }

  lemma {:induction false} DeliverCalls(s: Sys, a: nat)
    requires Inv(s) && a in s.workers && s.workers[a].mail != []
    ensures var m, t := s.workers[a].mail[0], Step(s, Deliver(a));
      if m != Gone && (s.cuts ==> a in s.e.acts && !s.e.acts[a].exiting)
      then a in s.e.acts && a !in s.deleted
           && t.calls == s.calls + [Update(a, m,
                if s.e.acts[a].exiting then {} else Get(TableOf(s.e), s.e.acts[a].KeyOf()))]
      else t.calls == s.calls && t.e == s.e && t.deleted == s.deleted
  {
    assert WorkerOf(s, a);
    MailTaken(s.workers[a]);
    if a in s.e.acts { ResultReaches(s.e, a); }
  }

  /** Nobody is called with an exit event, and the deleted actions are those whose own exit event was passed on. */
  ghost predicate Heard(s: Sys) {
    && (forall i :: 0 <= i < |s.calls| && s.calls[i].msg == Exit ==> s.calls[i].to == {} && s.calls[i].a in s.deleted)
    && (forall a :: a in s.deleted ==> Update(a, Exit, {}) in s.calls)
  }

  /** Exit events reach no listener, in every run. */
  lemma {:induction false} ExitReachesNobody(cuts: bool, evs: seq<Event>)
    ensures Heard(Run(Start(cuts), evs))
  {
    if evs != [] {
      var front, ev := evs[..|evs| - 1], evs[|evs| - 1];
      ExitReachesNobody(cuts, front);
      ListRefinesTable(cuts, front);
      var s := Run(Start(cuts), front);
      if ev.Deliver? && ev.a in s.workers && s.workers[ev.a].mail != [] && PassedOn(s.workers[ev.a]) {
        DeliveryHeard(s, ev.a);
      } else {
        assert Step(s, ev).calls == s.calls && Step(s, ev).deleted == s.deleted;
      }
    }
  }

  lemma {:induction false} DeliveryHeard(s: Sys, b: nat)
    requires Inv(s) && Heard(s) && b in s.workers && s.workers[b].mail != [] && PassedOn(s.workers[b])
    ensures Heard(Step(s, Deliver(b)))
  {
    var t, m := Step(s, Deliver(b)), s.workers[b].mail[0];
    if m == Exit {
      ExitKeeps(s, b);
      HeardMore(s, t, Update(b, m, {}), [b]);
    } else {
      HeardMore(s, t, Update(b, m, Receivers(s.e, b)), []);
    }
  }

  lemma {:induction false} HeardMore(s: Sys, t: Sys, u: Update, more: seq<nat>)
    requires Heard(s) && t.calls == s.calls + [u] && t.deleted == s.deleted + more
    requires more == if u.msg == Exit then [u.a] else []
    requires u.msg == Exit ==> u.to == {}
    ensures Heard(t)
  {
    assert t.calls[|s.calls|] == u;
    assert forall i :: 0 <= i < |s.calls| ==> t.calls[i] == s.calls[i];
    forall a | a in t.deleted ensures Update(a, Exit, {}) in t.calls {
      if a in s.deleted { assert Update(a, Exit, {}) in s.calls; }
    }
  }

  /** In every reachable state: one active action a key, all listed ones alive, all unlisted ones exiting. */
  lemma {:induction false} RegistryHolds(cuts: bool, evs: seq<Event>, a: nat, b: nat)
    requires var s := Run(Start(cuts), evs); a in s.e.acts && b in s.e.acts
    ensures var s := Run(Start(cuts), evs);
      && (s.e.acts[a].exiting <==> s.e.acts[a].lis == {})
      && (!s.e.acts[a].exiting ==> a in s.e.list)
      && (!s.e.acts[a].exiting && !s.e.acts[b].exiting && s.e.acts[a].KeyOf() == s.e.acts[b].KeyOf() ==> a == b)
      && (forall i :: 0 <= i < |s.e.list| ==> s.e.list[i] in s.e.acts)
  {
    ListRefinesTable(cuts, evs);
  }

  /**
   * An activity is unregistered exactly once if its action was stopped, however many listeners were removed,
   * and never otherwise; it is deleted at most once, by its own notice, after it was unregistered and exited,
   * with no event of it left.
   */
  lemma {:induction false} ActivityDeletedOnce(cuts: bool, evs: seq<Event>, a: nat)
    requires a < Run(Start(cuts), evs).next
    ensures var s := Run(Start(cuts), evs);
      && a in s.workers
      && s.workers[a].unregs == (if a in s.e.acts && !s.e.acts[a].exiting then 0 else 1)
      && s.workers[a].gone <= 1
      && (s.workers[a].gone == 1 <==> s.workers[a].phase == Done && s.workers[a].mail == [])
      && (s.workers[a].gone == 1 ==> s.workers[a].unregs == 1)
  {
    ListRefinesTable(cuts, evs);
    assert WorkerOf(Run(Start(cuts), evs), a);
  }

  // ---- with CuThread nothing is deleted

  /**
   * In every run over CuThread no action is ever deleted: every action ever created stays alive and listed. The
   * exit event that would delete it finds its listener dropped.
   */
  lemma {:induction false} NothingIsDeleted(evs: seq<Event>, a: nat)
    ensures var s := Run(Start(true), evs);
      && s.deleted == []
      && (a < s.next ==> a in s.e.acts && a in s.e.list)
      && (forall i :: 0 <= i < |s.calls| ==> s.calls[i].msg != Exit)
  {
    ListRefinesTable(true, evs);
    ExitReachesNobody(true, evs);
    var s := Run(Start(true), evs);
    if a < s.next { assert WorkerOf(s, a); }
  }

  /** One event deletes an action exactly if it is the exit result and the action is still connected. */
  lemma {:induction false} DeliverDeletesIff(s: Sys, a: nat)
    requires Inv(s) && a in s.e.acts && s.workers[a].mail != []
    ensures a !in Step(s, Deliver(a)).e.acts <==> s.workers[a].mail[0] == Exit && s.workers[a].connected
  {
    assert WorkerOf(s, a);
    if PassedOn(s.workers[a]) && s.workers[a].mail[0] == Exit { ExitKeeps(s, a); }
  }

  // ---- a stopped activity comes to its end, and with a library that keeps delivering so does its action

  function Deliveries(a: nat, n: nat): seq<Event> { if n == 0 then [] else [Deliver(a)] + Deliveries(a, n - 1) }

  /** Let the worker begin and leave, as far as it has not. */
  function Leaving(w: Worker, a: nat): seq<Event> {
    if w.phase == Done then [] else if w.phase == Running then [Work(a, true)] else [Work(a, true)] + [Work(a, true)]
  }

  function AtEnd(w: Worker): Worker {
    if w.phase == Done then w
    else if w.phase == Running then WorkerStep(w, true)
    else WorkerStep(WorkerStep(w, true), true)
  }

  /** And take all its events. */
  function Drain(w: Worker, a: nat): seq<Event> { Leaving(w, a) + Deliveries(a, |AtEnd(w).mail|) }

  lemma {:induction false} RunAppend(s: Sys, a: seq<Event>, b: seq<Event>)
    ensures Run(s, a + b) == Run(Run(s, a), b)
  {
    if b == [] {
      assert a + b == a;
    } else {
      var front, last := b[..|b| - 1], b[|b| - 1];
      assert b == front + [last] && a + b == (a + front) + [last];
      RunAppend(s, a, front);
      RunSnoc(s, a + front, last);
      RunSnoc(Run(s, a), front, last);
    }
  }

  lemma {:induction false} RunOne(s: Sys, ev: Event)
    ensures Run(s, [ev]) == Step(s, ev)
  {
    assert [] + [ev] == [ev];
    RunSnoc(s, [], ev);
  }

  lemma {:induction false} LeavesRun(s: Sys, a: nat)
    requires Inv(s) && a in s.workers && s.workers[a].unregs > 0
    ensures var t := Run(s, Leaving(s.workers[a], a));
      && Inv(t) && t.cuts == s.cuts && t.next == s.next && t.e == s.e
      && a in t.workers && t.workers[a] == AtEnd(s.workers[a]) && t.workers[a].phase == Done
  {
    var w, e := s.workers[a], Work(a, true);
    RunRefines(s, Leaving(w, a));
    if w.phase != Done {
      RunOne(s, e);
      if w.phase == Fresh { RunSnoc(s, [e], e); }
    }
  }

  lemma {:induction false} TakesOne(s: Sys, a: nat)
    requires Inv(s) && a in s.workers && s.workers[a].mail != []
    ensures var t := Step(s, Deliver(a));
            Inv(t) && t.cuts == s.cuts && a in t.workers && t.workers[a] == Take(s.workers[a])
  {
    StepKeeps(s, Deliver(a));
  }

  lemma {:induction false} DeliverAll(s: Sys, a: nat, n: nat)
    requires Inv(s) && a in s.workers && s.workers[a].phase == Done && |s.workers[a].mail| == n
    ensures var t := Run(s, Deliveries(a, n));
      Inv(t) && t.cuts == s.cuts && a in t.workers && t.workers[a].phase == Done && t.workers[a].mail == []
    decreases n
  {
    if n > 0 {
      TakesOne(s, a);
      RunOne(s, Deliver(a));
      RunAppend(s, [Deliver(a)], Deliveries(a, n - 1));
      DeliverAll(Step(s, Deliver(a)), a, n - 1);
    }
  }

  /** The activity of a stopped action is deleted by draining; its action too exactly if the library does not cut. */
  lemma {:induction false} StoppedIsDrained(s: Sys, a: nat)
    requires Inv(s) && a in s.e.acts && s.e.acts[a].exiting
    ensures var t := Run(s, Drain(s.workers[a], a));
      a in t.workers && t.workers[a].gone == 1 && (a in t.deleted <==> !s.cuts)
  {
    assert WorkerOf(s, a);
    var w := s.workers[a];
    LeavesRun(s, a);
    var u, n := Run(s, Leaving(w, a)), |AtEnd(w).mail|;
    DeliverAll(u, a, n);
    RunAppend(s, Leaving(w, a), Deliveries(a, n));
    var t := Run(s, Drain(w, a));
    assert WorkerOf(t, a);
  }

  ghost predicate StoppedIn(cuts: bool, evs: seq<Event>, a: nat) {
    var s := Run(Start(cuts), evs);
    a in s.e.acts && s.e.acts[a].exiting
  }

  ghost predicate DeletedIn(cuts: bool, evs: seq<Event>, a: nat) { a in Run(Start(cuts), evs).deleted }

  /** Every stopped action can come to its deletion. */
  ghost predicate DeletionIsReachable(cuts: bool) {
    forall evs, a :: StoppedIn(cuts, evs, a) ==> exists more :: DeletedIn(cuts, evs + more, a)
  }

  /** Two events after which an action is stopped. */
  lemma {:induction false} StopOne(cuts: bool, k: Key, l: Listener)
    ensures var s := Run(Start(cuts), [Add(k, l)] + [Unlink(k, l)]); 0 in s.e.acts && s.e.acts[0].exiting
  {
    var s0, s1 := Start(cuts), Step(Start(cuts), Add(k, l));
    RunOne(s0, Add(k, l));
    RunSnoc(s0, [Add(k, l)], Unlink(k, l));
    assert s1.e.acts == map[0 := Act(k.0, k.1, false, {l})] && s1.e.list == [0];
    assert {l} - {l} == {};
  }

  /**
   * That every stopped action is deleted holds if and only if the library goes on delivering to a listener
   * whose activity is unregistered. CuThread does not.
   */
  lemma {:induction false} DeletionIff(cuts: bool)
    ensures DeletionIsReachable(cuts) <==> !cuts
  {
    if cuts {
      var evs := [Add(("a", ReaderType), 1)] + [Unlink(("a", ReaderType), 1)];
      StopOne(true, ("a", ReaderType), 1);
      assert StoppedIn(true, evs, 0);
      forall more ensures !DeletedIn(true, evs + more, 0) { NothingIsDeleted(evs + more, 0); }
    } else {
      forall evs, a | StoppedIn(false, evs, a) ensures exists more :: DeletedIn(false, evs + more, a) {
        var s := Run(Start(false), evs);
        ListRefinesTable(false, evs);
        StoppedIsDrained(s, a);
        RunAppend(Start(false), evs, Drain(s.workers[a], a));
        assert DeletedIn(false, evs + Drain(s.workers[a], a), a);
      }
    }
  }

  /** With a library that keeps delivering, an action that is gone was deleted exactly once. */
  lemma {:induction false} DeletedOnce(cuts: bool, evs: seq<Event>, a: nat)
    ensures var s := Run(Start(cuts), evs);
      multiset(s.deleted)[a] == (if a < s.next && a !in s.e.acts then 1 else 0)
  {
    ListRefinesTable(cuts, evs);
    CountDistinct(Run(Start(cuts), evs).deleted, a);
  }

  lemma {:induction false} CountDistinct(q: seq<nat>, a: nat)
    requires Distinct(q)
    ensures multiset(q)[a] == if a in q then 1 else 0
  {
    if q != [] {
      var front, last := q[..|q| - 1], q[|q| - 1];
      CountDistinct(front, a);
      assert q == front + [last];
      assert forall i :: 0 <= i < |front| ==> q[i] != last;
    }
  }

  /**
   * The smallest case: one listener subscribes and leaves, the worker exits and all its events are taken. The
   * activity is deleted, and the action is still there, stopped, with nothing to come.
   */
  lemma {:induction false} ZombieStays(k: Key, l: Listener)
    ensures var s := Run(Start(true), [Add(k, l)] + [Unlink(k, l)]);
      && 0 in s.workers
      && var t := Run(s, Drain(s.workers[0], 0));
         && 0 in t.workers && t.workers[0].gone == 1 && t.workers[0].mail == []
         && 0 in t.e.acts && t.e.acts[0].exiting && 0 in t.e.list
  {
    var evs := [Add(k, l)] + [Unlink(k, l)];
    StopOne(true, k, l);
    ListRefinesTable(true, evs);
    var s := Run(Start(true), evs);
    var more := Drain(s.workers[0], 0);
    StoppedIsDrained(s, 0);
    RunAppend(Start(true), evs, more);
    NothingIsDeleted(evs + more, 0);
    RunRefines(s, more);
    StaysStopped(s, more, 0);
  }

  /** A stopped action stays stopped as long as it lives. */
  lemma {:induction false} StaysStopped(s: Sys, evs: seq<Event>, a: nat)
    requires Inv(s) && a in s.e.acts && s.e.acts[a].exiting
    ensures var t := Run(s, evs);
      Inv(t) && a in t.workers && a < t.next && (a in t.e.acts ==> t.e.acts[a].exiting)
          && (a !in t.e.acts ==> a in t.deleted)
  {
    RunRefines(s, evs);
    if evs != [] {
      StaysStopped(s, evs[..|evs| - 1], a);
      StepStaysStopped(Run(s, evs[..|evs| - 1]), evs[|evs| - 1], a);
    }
  }

  lemma {:induction false} StepStaysStopped(s: Sys, ev: Event, a: nat)
    requires Inv(s) && a in s.workers && (a in s.e.acts ==> s.e.acts[a].exiting)
    ensures var t := Step(s, ev); a in t.workers && (a in t.e.acts ==> t.e.acts[a].exiting)
  {
    match ev
    case Add(k, l) => assert a < s.next;
    case Unlink(_, _) =>
    case Work(_, _) =>
    case Deliver(b) => DeliverRefines(s, b);
  }
}
