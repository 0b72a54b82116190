/** CuHttpCliIdMan: the client id, its time to live and the keep-alive timer. */
module Lease {

  datatype Timer = NoTimer | Timer(interval: int, active: bool)

  datatype Option<T> = None | Some(value: T)

  /** A field that a decoded id reply lacks reads as 0; an undecodable reply changes nothing. */
  datatype IdReply = Undecodable | Decoded(id: Option<nat>, ttl: Option<nat>)

  datatype Ids = Ids(id: nat, ttl: nat, timer: Timer)

  const INT_MAX := 0x7fff_ffff

  /** The conversion of the unsigned ttl to the timer's 32-bit int. */
  function ToInt32(n: nat): int {
    (n + 0x8000_0000) % 0x1_0000_0000 - 0x8000_0000
  }

  /** Converting an invalid variant assigns 0. */
  function OrZero(field: Option<nat>): nat { if field.Some? then field.value else 0 }

  /** The ttl arrives in seconds and is kept in milliseconds, less five per cent. */
  function GetIdAndTtl(s: Ids, r: IdReply): Ids {
    match r
    case Undecodable => s
    case Decoded(id, ttl) => Ids(OrZero(id), 950 * OrZero(ttl), s.timer)
  }

  predicate ReplyOk(s: Ids, r: IdReply) {
    r.Decoded? && GetIdAndTtl(s, r).id > 0 && GetIdAndTtl(s, r).ttl > 0
  }

  /** The timer is started once; a later reply neither restarts it nor changes its interval. */
  function StartKeepalive(s: Ids): Ids {
    if s.timer.NoTimer? then s.(timer := Timer(ToInt32(s.ttl), true)) else s
  }

  function StopKeepalive(s: Ids): Ids {
    if s.timer.Timer? then s.(timer := s.timer.(active := false)) else s
  }

  function OnIdReply(s: Ids, r: IdReply): Ids {
    if ReplyOk(s, r) then StartKeepalive(GetIdAndTtl(s, r)) else GetIdAndTtl(s, r)
  }

  class CuHttpCliIdMan {
    var id: nat
    var ttl: nat
    var timer: Timer

    ghost function View(): Ids reads this { Ids(id, ttl, timer) }

    constructor ()
      ensures View() == Ids(0, 0, NoTimer)
    {
      id, ttl, timer := 0, 0, NoTimer;
    }

    method GetTheIdAndTtl(r: IdReply) returns (ok: bool)
      modifies this
      ensures View() == GetIdAndTtl(old(View()), r) && ok == r.Decoded?
    {
      ok := r.Decoded?;
      if ok {
        id := OrZero(r.id);
        ttl := OrZero(r.ttl);
        ttl := ttl * 950;
      }
    }

    method StartTheKeepalive()
      modifies this`timer
      ensures View() == StartKeepalive(old(View()))
    {
      if timer.NoTimer? { timer := Timer(ToInt32(ttl), true); }
    }

    /** The listener hears the id before the timer starts: the reply's own, or the previous one if undecodable. */
    method OnCompleteReply(r: IdReply) returns (readyId: nat, error: bool)
      modifies this
      ensures View() == OnIdReply(old(View()), r)
      ensures readyId == id && error == !ReplyOk(old(View()), r)
    {
      var ok := GetTheIdAndTtl(r);
      ok := ok && id > 0 && ttl > 0;
      readyId := id;
      if ok { StartTheKeepalive(); }
      error := !ok;
    }

    method Unsubscribe()
      modifies this`timer
      ensures View() == StopKeepalive(old(View()))
    {
      if timer.Timer? { timer := timer.(active := false); }
    }
  }

  // ---- the interval over whole runs

  datatype Event = Reply(r: IdReply) | Stop

  function Hear(s: Ids, e: Event): Ids {
    match e case Reply(r) => OnIdReply(s, r) case Stop => StopKeepalive(s)
  }

  function Run(es: seq<Event>): Ids {
    if es == [] then Ids(0, 0, NoTimer) else Hear(Run(es[..|es| - 1]), es[|es| - 1])
  }

  /** A reply with a positive id and a positive ttl of its own. */
  predicate Good(r: IdReply) {
    r.Decoded? && r.id.Some? && r.id.value > 0 && r.ttl.Some? && r.ttl.value > 0
  }

  /** The first good reply of a run. */
  ghost predicate FirstGood(es: seq<Event>, k: nat) {
    && k < |es| && es[k].Reply? && Good(es[k].r)
    && forall j :: 0 <= j < k && es[j].Reply? ==> !Good(es[j].r)
  }

  lemma {:induction false} GoodIsOk(s: Ids, r: IdReply)
    ensures ReplyOk(s, r) <==> Good(r)
  {
  }

  lemma {:induction false} NoTimerBefore(es: seq<Event>)
    requires forall j :: 0 <= j < |es| && es[j].Reply? ==> !Good(es[j].r)
    ensures Run(es).timer == NoTimer
  {
    if es != [] {
      var front := es[..|es| - 1];
      assert forall j :: 0 <= j < |front| ==> front[j] == es[j];
      NoTimerBefore(front);
      if es[|es| - 1].Reply? { GoodIsOk(Run(front), es[|es| - 1].r); }
    }
  }

  /** The timer's interval for a ttl of t seconds: 950 ms for each of them, as a 32-bit int. */
  function Interval(t: nat): int { ToInt32(950 * t) }

  /** The interval is that of the first good reply's ttl, for the rest of the run. */
  lemma {:induction false} IntervalIsFixed(es: seq<Event>, k: nat)
    requires FirstGood(es, k)
    ensures es[k].r.id.Some? && es[k].r.ttl.Some? && es[k].r.id.value > 0 && es[k].r.ttl.value > 0
    ensures Run(es).timer.Timer? && Run(es).timer.interval == Interval(es[k].r.ttl.value)
  {
    TimerIs(es, k);
  }

  /** No stop after position k. */
  ghost predicate NotStopped(es: seq<Event>, k: nat) { forall j :: k < j < |es| ==> es[j] != Stop }

  /**
   * In every run, from the first good reply on there is a timer with the interval of that reply's ttl, and it runs
   * exactly until the client stops: no later reply starts it again.
   */
  lemma {:induction false} TimerIs(es: seq<Event>, k: nat)
    requires FirstGood(es, k)
    ensures Run(es).timer.Timer? && Run(es).timer.interval == Interval(es[k].r.ttl.value)
    ensures Run(es).timer.active <==> NotStopped(es, k)
  {
    var n, front := |es| - 1, es[..|es| - 1];
    assert forall j :: 0 <= j < |front| ==> front[j] == es[j];
    if k == n {
      NoTimerBefore(front);
      GoodIsOk(Run(front), es[n].r);
    } else {
      TimerIs(front, k);
      assert NotStopped(es, k) <==> NotStopped(front, k) && es[n] != Stop;
    }
  }

  /** Without a good reply there is no timer at all. */
  lemma {:induction false} TimerIffGood(es: seq<Event>)
    ensures Run(es).timer.Timer? <==> exists k :: 0 <= k < |es| && es[k].Reply? && Good(es[k].r)
  {
    if k :| 0 <= k < |es| && es[k].Reply? && Good(es[k].r) {
      var m := FirstOf(es, k);
      TimerIs(es, m);
    } else {
      NoTimerBefore(es);
    }
  }

  lemma {:induction false} FirstOf(es: seq<Event>, k: nat) returns (m: nat)
    requires k < |es| && es[k].Reply? && Good(es[k].r)
    ensures FirstGood(es, m)
  {
    if j :| 0 <= j < k && es[j].Reply? && Good(es[j].r) { m := FirstOf(es, j); } else { m := k; }
  }

  /** The id and the ttl are those of the last reply that could be decoded; what it lacks is 0. */
  lemma {:induction false} IdIsLast(es: seq<Event>, k: nat)
    requires k < |es| && es[k].Reply? && es[k].r.Decoded?
    requires forall j :: k < j < |es| && es[j].Reply? ==> es[j].r == Undecodable
    ensures Run(es).id == match es[k].r.id case None => 0 case Some(id) => id
    ensures Run(es).ttl == match es[k].r.ttl case None => 0 case Some(ttl) => 950 * ttl
  {
    if k < |es| - 1 {
      var front := es[..|es| - 1];
      assert forall j :: 0 <= j < |front| ==> front[j] == es[j];
      IdIsLast(front, k);
    }
  }

  /** The conversion wraps around: the only 32-bit int that differs from the number by a multiple of 2^32. */
  lemma {:induction false} ToInt32Wraps(n: nat)
    ensures -0x8000_0000 <= ToInt32(n) <= 0x7fff_ffff && (ToInt32(n) - n) % 0x1_0000_0000 == 0
  {
    var m := n + 0x8000_0000;
    assert m % 0x1_0000_0000 - m == -0x1_0000_0000 * (m / 0x1_0000_0000);
    Multiple(m / 0x1_0000_0000);
  }

  lemma {:induction false} Multiple(q: int)
    ensures (-0x1_0000_0000 * q) % 0x1_0000_0000 == 0
  {
  }

  lemma {:induction false} IntervalIsExact(ttl: nat)
    ensures Interval(ttl) == 950 * ttl <==> 950 * ttl <= INT_MAX
  {
  }

  // ---- the lease in time

  /**
   * One timed run of a client with a ttl of t seconds, in milliseconds from the moment the server handled
   * the id request: the delay of that request's reply, the delay of each keep-alive on its way, and the
   * moment at which the client stops.
   */
  datatype Timed = Timed(t: nat, back: nat, forth: seq<nat>, stop: nat)

  /** A timer with a negative interval is never started. */
  predicate Fires(t: nat) { Interval(t) >= 0 }

  /** An interval of 0 fires at every pass of the event loop, which takes a millisecond here. */
  function Period(t: nat): (p: nat)
    requires Fires(t)
    ensures p > 0
  {
    if Interval(t) == 0 then 1 else Interval(t)
  }

  /** The keep-alives of the run are those the timer sends before the client stops. */
  predicate Sent(r: Timed) {
    if Fires(r.t)
    then (r.forth != [] ==> r.back + |r.forth| * Period(r.t) <= r.stop)
        && r.stop <= r.back + (|r.forth| + 1) * Period(r.t)
    else r.forth == []
  }

  /** When the server sees the client for the k-th time. */
  function Seen(r: Timed, k: nat): int
    requires k <= |r.forth| && (k > 0 ==> Fires(r.t))
  {
    if k == 0 then 0 else r.back + k * Period(r.t) + r.forth[k - 1]
  }

  /** The server has seen the client less than a ttl ago. */
  ghost predicate AliveAt(r: Timed, time: int)
    requires Sent(r)
  {
    exists k :: 0 <= k <= |r.forth| && Seen(r, k) <= time < Seen(r, k) + 1000 * r.t
  }

  ghost predicate KeepsLease(r: Timed)
    requires Sent(r)
  {
    forall time :: 0 <= time < r.stop ==> AliveAt(r, time)
  }

  predicate Within(r: Timed, back: nat, forth: nat) {
    r.back <= back && forall k :: 0 <= k < |r.forth| ==> r.forth[k] <= forth
  }

  /** Every run with these bounds on the delays keeps the lease. */
  ghost predicate AlwaysKept(t: nat, back: nat, forth: nat) {
    forall r: Timed :: r.t == t && Sent(r) && Within(r, back, forth) ==> KeepsLease(r)
  }

  lemma {:induction false} FirstLater(r: Timed, time: int, n: nat) returns (k: nat)
    requires n <= |r.forth| && 0 <= time && Sent(r)
    ensures k <= n && Seen(r, k) <= time && (k < n ==> time < Seen(r, k + 1))
    decreases n
  {
    if n == 0 {
      k := 0;
    } else {
      k := FirstLater(r, time, n - 1);
      if k == n - 1 && Seen(r, n) <= time { k := n; }
    }
  }

  lemma {:induction false} NextSight(r: Timed, back: nat, forth: nat, k: nat)
    requires Fires(r.t) && Sent(r) && Within(r, back, forth) && back + forth + Period(r.t) <= 1000 * r.t
             && k <= |r.forth|
    ensures k < |r.forth| ==> Seen(r, k + 1) <= Seen(r, k) + 1000 * r.t
    ensures k == |r.forth| ==> r.stop <= Seen(r, k) + 1000 * r.t
  {
    assert (k + 1) * Period(r.t) == k * Period(r.t) + Period(r.t);
  }

  lemma {:induction false} SmallDelaysKeep(r: Timed, back: nat, forth: nat)
    requires Fires(r.t) && Sent(r) && Within(r, back, forth) && back + forth + Period(r.t) <= 1000 * r.t
    ensures KeepsLease(r)
  {
    forall time | 0 <= time < r.stop ensures AliveAt(r, time) {
      var k := FirstLater(r, time, |r.forth|);
      NextSight(r, back, forth, k);
      assert Seen(r, k) <= time < Seen(r, k) + 1000 * r.t;
    }
  }

  /** Enough keep-alives, each as late as allowed. */
  function Latest(t: nat, back: nat, forth: nat): Timed
    requires Fires(t)
  {
    Timed(t, back, seq(1000 * t, _ => forth), back + (1000 * t + 1) * Period(t))
  }

  lemma {:induction false} LargeDelaysLose(t: nat, back: nat, forth: nat)
    requires t > 0 && Fires(t) && back + forth + Period(t) > 1000 * t
    ensures var r := Latest(t, back, forth); Sent(r) && Within(r, back, forth) && !KeepsLease(r)
  {
    var r, p := Latest(t, back, forth), Period(t);
    Multiples(1000 * t, p);
    assert r.stop > 1000 * t;
    forall k | 0 <= k <= |r.forth| ensures !(Seen(r, k) <= 1000 * t < Seen(r, k) + 1000 * t) {
      if k > 0 { Multiples(k - 1, p); }
    }
    assert !AliveAt(r, 1000 * t);
  }

  lemma {:induction false} Multiples(n: nat, p: nat)
    requires p > 0
    ensures (n + 1) * p >= n + 1 && (n + 1) * p >= p && n * p <= (n + 1) * p
  {
    assert (n + 1) * p == n * p + p && n * p >= n by { Scaled(n, p); }
  }

  lemma {:induction false} Scaled(n: nat, p: nat)
    requires p > 0
    ensures n * p >= n && (n + 1) * p == n * p + p
  {
    assert n * p - n == n * (p - 1);
  }

  /** Without a timer the client is forgotten a ttl after it got its id. */
  lemma {:induction false} SilenceLoses(t: nat)
    requires t > 0 && !Fires(t)
    ensures var r := Timed(t, 0, [], 1000 * t + 1); Sent(r) && Within(r, 0, 0) && !KeepsLease(r)
  {
    var r := Timed(t, 0, [], 1000 * t + 1);
    assert Seen(r, 0) == 0;
    assert !AliveAt(r, 1000 * t);
  }

  /**
   * With a constant ttl of t seconds, the lease holds in every run whose id reply takes at most `back` and
   * whose keep-alives take at most `forth` exactly when the timer fires and the two delays and its period
   * together are at most the ttl: the first keep-alive comes a reply leg, a period and a request leg after the
   * server's first sight. As long as the interval fits an int that leaves 50 t milliseconds for the delays.
   */
  lemma {:induction false} LeaseIff(t: nat, back: nat, forth: nat)
    requires t > 0
    ensures AlwaysKept(t, back, forth) <==> Fires(t) && back + forth + Period(t) <= 1000 * t
    ensures 950 * t <= INT_MAX ==> (AlwaysKept(t, back, forth) <==> back + forth <= 50 * t)
  {
    IntervalIsExact(t);
    if Fires(t) && back + forth + Period(t) <= 1000 * t {
      forall r: Timed | r.t == t && Sent(r) && Within(r, back, forth) ensures KeepsLease(r) {
        SmallDelaysKeep(r, back, forth);
      }
    } else if Fires(t) {
      LargeDelaysLose(t, back, forth);
      assert Latest(t, back, forth).t == t;
    } else {
      SilenceLoses(t);
      assert Within(Timed(t, 0, [], 1000 * t + 1), back, forth);
    }
  }

  /**
   * So a bound on each round trip keeps the lease, while the interval fits an int, exactly when it is at most
   * half the slack: two different round trips contribute to the first gap. Just below 50 t it can be lost.
   */
  lemma {:induction false} RoundTripBound(t: nat, trip: nat)
    requires t > 0
    ensures AlwaysKept(t, trip, trip) <==> Fires(t) && 2 * trip + Period(t) <= 1000 * t
    ensures 950 * t <= INT_MAX ==> (AlwaysKept(t, trip, trip) <==> trip <= 25 * t)
    ensures 950 * t <= INT_MAX ==> !AlwaysKept(t, 50 * t - 1, 50 * t - 1)
  {
    LeaseIff(t, trip, trip);
    LeaseIff(t, 50 * t - 1, 50 * t - 1);
  }

  /** Past the range of an int the lease can be lost without any delay. */
  lemma {:induction false} WrappedIntervalLoses()
    ensures Interval(3000000) == -1444967296 && !AlwaysKept(3000000, 0, 0)
  {
    LeaseIff(3000000, 0, 0);
  }

  // ---- the keep-alives of a timed run are those of the timer

  /** The client, the time, what is left until its timer expires, and when it sent keep-alives. */
  datatype Clock = Clock(ids: Ids, now: nat, left: nat, sent: seq<nat>)

  /** A timer that runs and was given an interval it accepts. */
  predicate Running(t: Timer) { t.Timer? && t.active && t.interval >= 0 }

  /** The client hears something; a timer that starts has its whole interval before it. */
  function ClockHear(c: Clock, e: Event): Clock {
    var ids := Hear(c.ids, e);
    c.(ids := ids, left := if Running(ids.timer) && !Running(c.ids.timer) then ids.timer.interval else c.left)
  }

  /** A millisecond passes: a timer that runs expires when nothing is left, sends a keep-alive and starts over. */
  function Pass(c: Clock): Clock {
    if !Running(c.ids.timer) then c.(now := c.now + 1)
    else if c.left <= 1 then Clock(c.ids, c.now + 1, c.ids.timer.interval, c.sent + [c.now + 1])
    else c.(now := c.now + 1, left := c.left - 1)
  }

  function Passes(c: Clock, n: nat): Clock { if n == 0 then c else Pass(Passes(c, n - 1)) }

  /** A client that hears its first id reply, with a ttl of t seconds, at the time `back`. */
  function Started(t: nat, back: nat): Clock {
    ClockHear(Clock(Ids(0, 0, NoTimer), back, 0, []), Reply(Decoded(Some(1), Some(t))))
  }

  /** After n milliseconds with m keep-alives sent, one each period. */
  ghost predicate Ticking(c: Clock, t: nat, back: nat, n: nat)
    requires Fires(t)
  {
    var p, m := Period(t), |c.sent|;
    && Running(c.ids.timer) && c.ids.timer.interval == Interval(t) && c.now == back + n
    && (if Interval(t) == 0 then c.left == 0 && m * p == n else 1 <= c.left <= p && m * p + p - c.left == n)
    && forall k :: 0 <= k < m ==> c.sent[k] == back + (k + 1) * p
  }

  lemma {:induction false} PassTicks(c: Clock, t: nat, back: nat, n: nat)
    requires Fires(t) && Ticking(c, t, back, n)
    ensures Ticking(Pass(c), t, back, n + 1)
  {
    Scaled(|c.sent|, Period(t));
  }

  lemma {:induction false} StartedTicks(t: nat, back: nat, n: nat)
    requires t > 0 && Fires(t)
    ensures Ticking(Passes(Started(t, back), n), t, back, n)
  {
    if n == 0 {
      assert GetIdAndTtl(Ids(0, 0, NoTimer), Decoded(Some(1), Some(t))) == Ids(1, 950 * t, NoTimer);
    } else {
      StartedTicks(t, back, n - 1);
      PassTicks(Passes(Started(t, back), n - 1), t, back, n - 1);
    }
  }

  /** A timer that does not run sends nothing. */
  lemma {:induction false} NothingSent(c: Clock, n: nat)
    requires !Running(c.ids.timer)
    ensures Passes(c, n).sent == c.sent && Passes(c, n).ids == c.ids
  {
    if n > 0 { NothingSent(c, n - 1); }
  }

  /**
   * The timed runs are those of the client's timer: what it sends in the n milliseconds from its first id reply is
   * one keep-alive each period, as many as a timed run of that length has, and none when the interval has wrapped.
   */
  lemma {:induction false} TimerSends(t: nat, back: nat, n: nat, forth: seq<nat>)
    requires t > 0 && |forth| == |Passes(Started(t, back), n).sent|
    ensures var c, r := Passes(Started(t, back), n), Timed(t, back, forth, back + n);
            && Sent(r) && (!Fires(t) ==> c.sent == [])
            && forall k :: 0 < k <= |forth| ==> Seen(r, k) == c.sent[k - 1] + forth[k - 1]
  {
    if Fires(t) {
      StartedTicks(t, back, n);
      Scaled(|forth|, Period(t));
    } else {
      NothingSent(Started(t, back), n);
    }
  }

  /** A client that has stopped sends no keep-alive any more, whatever it hears and however long it waits. */
  lemma {:induction false} StoppedSendsNothing(c: Clock, e: Event, n: nat)
    requires c.ids.timer.Timer?
    ensures var c' := ClockHear(c, Stop); Passes(c', n).sent == c.sent && Passes(ClockHear(c', e), n).sent == c.sent
  {
    NothingSent(ClockHear(c, Stop), n);
    NothingSent(ClockHear(ClockHear(c, Stop), e), n);
  }
}
