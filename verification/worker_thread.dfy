/**
 * The activity of a random source and the thread that runs it: what the thread does for one activity, and
 * what it delivers to the listener in the main thread.
 */
module WorkerThread {

  /** A posted event: the source's configuration, a value, the exit result, or the notice that ends the activity. */
  datatype Msg = Property | Value | Exit | Gone

  /** The register event is still queued, the activity is in the thread's set, or it has left it. */
  datatype Phase = Fresh | Running | Done

  /**
   * One activity on its thread: `connected` while the thread knows its listener, `unregs` counts how often it
   * has been unregistered, `mail` is what waits for the main thread, `gone` how often it has been deleted.
   */
  datatype Worker = Worker(phase: Phase, connected: bool, unregs: nat, mail: seq<Msg>, gone: nat)

  const NEW_WORKER := Worker(Fresh, true, 0, [], 0)

  /** The main thread unregisters the activity; `cuts` says whether that drops the listener at once. */
  function Unregister(w: Worker, cuts: bool): Worker {
    w.(connected := w.connected && !cuts, unregs := w.unregs + 1)
  }

  /** The activity is initialised and executed for the first time. */
  function Begin(w: Worker): Worker {
    if w.phase == Fresh then w.(phase := Running, mail := w.mail + [Property, Value]) else w
  }

  /** Its timer expires. */
  function Fire(w: Worker): Worker {
    if w.phase == Running then w.(mail := w.mail + [Value]) else w
  }

  /** It exits, and a notice of it follows. */
  function Leave(w: Worker): Worker {
    if w.phase == Running then w.(phase := Done, mail := w.mail + [Exit, Gone]) else w
  }

  /** The next thing the thread does for the activity; it leaves only when unregistered. */
  function WorkerStep(w: Worker, leave: bool): Worker {
    if w.phase == Fresh then Begin(w) else if leave && w.unregs > 0 then Leave(w) else Fire(w)
  }

  /** The main thread takes the next event; the notice deletes the activity. */
  function Take(w: Worker): Worker
    requires w.mail != []
  {
    w.(mail := w.mail[1..], gone := w.gone + if w.mail[0] == Gone then 1 else 0)
  }

  /** Whether the next event is passed on to the listener. */
  predicate PassedOn(w: Worker)
    requires w.mail != []
  {
    w.mail[0] != Gone && w.connected
  }

  // ---- all that an activity says

  /** What happens to one activity: a step of its thread, an unregistration, or the main thread taking an event. */
  datatype Op = Works(leave: bool) | IsUnregistered | IsHeard

  /** The activity after these, the events the main thread has taken, and the number of steps of the thread. */
  datatype Story = Story(w: Worker, taken: seq<Msg>, steps: nat)

  function Then(s: Story, op: Op, cuts: bool): Story {
    match op
    case Works(leave) => s.(w := WorkerStep(s.w, leave), steps := s.steps + 1)
    case IsUnregistered => s.(w := Unregister(s.w, cuts))
    case IsHeard => if s.w.mail == [] then s else s.(w := Take(s.w), taken := s.taken + [s.w.mail[0]])
  }

  function StoryOf(ops: seq<Op>, cuts: bool): Story {
    if ops == [] then Story(NEW_WORKER, [], 0) else Then(StoryOf(ops[..|ops| - 1], cuts), ops[|ops| - 1], cuts)
  }

  predicate Opening(all: seq<Msg>) {
    |all| >= 2 && all[0] == Property && forall k :: 1 <= k < |all| ==> all[k] == Value
  }

  /** Nothing; or the configuration and a value each step; or these, the exit result and the notice. */
  ghost predicate SaidBy(w: Worker, all: seq<Msg>, steps: nat) {
    match w.phase
    case Fresh => all == [] && steps == 0
    case Running => Opening(all) && |all| == steps + 1
    case Done => |all| >= 2 && all[|all| - 2..] == [Exit, Gone] && Opening(all[..|all| - 2])
  }

  lemma {:induction false} WorkSays(w: Worker, leave: bool, taken: seq<Msg>, steps: nat)
    requires SaidBy(w, taken + w.mail, steps)
    ensures var w' := WorkerStep(w, leave); SaidBy(w', taken + w'.mail, steps + 1)
  {
    var all, w' := taken + w.mail, WorkerStep(w, leave);
    if w.phase == Fresh {
      assert taken == [] && w.mail == [];
      assert taken + w'.mail == [Property, Value];
    } else if w.phase == Running {
      if leave && w.unregs > 0 {
        assert taken + w'.mail == all + [Exit, Gone] && (all + [Exit, Gone])[..|all|] == all;
        assert (all + [Exit, Gone])[|all|..] == [Exit, Gone];
      } else {
        assert taken + w'.mail == all + [Value];
      }
    }
  }

  /**
   * Whatever thread and main thread do, an activity says, in this order: its configuration, a value for each step of
   * its thread, and, once it was unregistered and has left, its exit result and the notice; the main thread takes
   * just that.
   */
  lemma {:induction false} SaidInOrder(ops: seq<Op>, cuts: bool)
    ensures var s := StoryOf(ops, cuts);
            SaidBy(s.w, s.taken + s.w.mail, s.steps) && (s.w.phase == Done ==> s.w.unregs > 0)
  {
    if ops != [] {
      SaidInOrder(ops[..|ops| - 1], cuts);
      OpSays(StoryOf(ops[..|ops| - 1], cuts), ops[|ops| - 1], cuts);
    }
  }

  lemma {:induction false} OpSays(s: Story, op: Op, cuts: bool)
    requires SaidBy(s.w, s.taken + s.w.mail, s.steps) && (s.w.phase == Done ==> s.w.unregs > 0)
    ensures var s' := Then(s, op, cuts);
            SaidBy(s'.w, s'.taken + s'.w.mail, s'.steps) && (s'.w.phase == Done ==> s'.w.unregs > 0)
  {
    match op
    case Works(leave) => WorkSays(s.w, leave, s.taken, s.steps);
    case IsUnregistered =>
    case IsHeard =>
      if s.w.mail != [] { HeardMoves(s.taken, s.w.mail); }
  }

  lemma {:induction false} HeardMoves(taken: seq<Msg>, mail: seq<Msg>)
    requires mail != []
    ensures taken + [mail[0]] + mail[1..] == taken + mail
  {
  }

  // ---- the classes

  datatype Generator = NoGenerator | RandomGenerator | SinGenerator | JsGenerator

  class CuRandomGenActivity {
    var period: int
    var exiting: bool
    var execCnt: nat
    var generator: Generator

    constructor (period: int)
      ensures this.period == period && !exiting && execCnt == 0 && generator == NoGenerator
    {
      this.period, exiting, execCnt, generator := period, false, 0, NoGenerator;
    }

    method SetFunctionGenerator(g: Generator)
      modifies this`generator
      ensures generator == g
    {
      generator := g;
    }

    method Init(thread: CuThread)
      modifies this`generator, thread`posted
      ensures generator == if old(generator) == NoGenerator then RandomGenerator else old(generator)
      ensures thread.posted == old(thread.posted) + [Property]
    {
      if generator == NoGenerator { generator := RandomGenerator; }
      thread.PublishResult(Property);
    }

    method Execute(thread: CuThread)
      requires generator != NoGenerator
      modifies this`execCnt, thread`posted
      ensures execCnt == old(execCnt) + 1 && thread.posted == old(thread.posted) + [Value]
    {
      execCnt := execCnt + 1;
      thread.PublishResult(Value);
    }

    method OnExit(thread: CuThread)
      modifies this`exiting, thread`posted
      ensures exiting && thread.posted == old(thread.posted) + [Exit]
    {
      exiting := true;
      thread.PublishResult(Exit);
    }

    /** The period, or -1 after exit. */
    function Repeat(): int reads this`exiting, this`period { if exiting then -1 else period }
  }

  /** A thread, as far as one activity is concerned. */
  class CuThread {
    const activity: CuRandomGenActivity
    /** The activity has its listener in the map of the main thread. */
    var listening: bool
    var unregistrations: nat
    /** The register event has not been processed; the activity is in the set of the thread; it has a timer. */
    var queued: bool
    var inSet: bool
    var timer: bool
    /** What the events bridge has still to hand to the main thread. */
    var posted: seq<Msg>
    var deletions: nat

    ghost predicate Valid() reads this, activity {
      && !(queued && inSet)
      && (queued || inSet ==> !activity.exiting)
      && (inSet ==> activity.generator != NoGenerator)
      && (timer ==> inSet)
    }

    ghost function View(): Worker reads this {
      Worker(if queued then Fresh else if inSet then Running else Done, listening, unregistrations, posted, deletions)
    }

    constructor RegisterActivity(a: CuRandomGenActivity)
      requires !a.exiting
      ensures activity == a && Valid() && View() == NEW_WORKER
    {
      activity, listening, unregistrations := a, true, 0;
      queued, inSet, timer, posted, deletions := true, false, false, [], 0;
    }

    /** The listener is dropped here, before the thread has seen the event that makes the activity exit. */
    method UnregisterActivity()
      requires Valid()
      modifies this`listening, this`unregistrations
      ensures Valid() && View() == Unregister(old(View()), true)
    {
      listening := false;
      unregistrations := unregistrations + 1;
    }

    method PublishResult(m: Msg)
      modifies this`posted
      ensures posted == old(posted) + [m]
    {
      posted := posted + [m];
    }

    /** The thread processes the register event; an activity that repeats gets a timer. */
    method ActivityRun()
      requires Valid() && queued
      modifies this, activity
      ensures Valid() && View() == Begin(old(View())) && timer == (old(activity.period) > 0)
    {
      queued, inSet := false, true;
      activity.Init(this);
      activity.Execute(this);
      assert posted == old(posted) + [Property, Value];
      timer := activity.Repeat() > 0;
    }

    method TimerExpired()
      requires Valid()
      modifies this`posted, activity`execCnt
      ensures Valid() && View() == if timer && activity.period > 0 then Fire(old(View())) else old(View())
    {
      if timer && activity.Repeat() > 0 { activity.Execute(this); }
    }

    /** The thread processes the unregister event. */
    method ExitActivity()
      requires Valid() && !queued
      modifies this, activity
      ensures Valid() && View() == Leave(old(View()))
    {
      if inSet {
        timer := false;
        activity.OnExit(this);
        posted := posted + [Gone];
        inSet := false;
        assert posted == old(posted) + [Exit, Gone];
      }
    }

    /** The main thread takes one event: a result goes to a listener still known, the notice deletes the activity. */
    method OnEventPosted() returns (m: Msg, delivered: bool)
      requires Valid() && posted != []
      modifies this`posted, this`deletions
      ensures Valid() && View() == Take(old(View())) && m == old(posted)[0]
      ensures delivered == PassedOn(old(View()))
    {
      m := posted[0];
      posted := posted[1..];
      delivered := m != Gone && listening;
      if m == Gone { deletions := deletions + 1; }
    }
  }
}
