/** Whole runs of the client-id gate. */
module GateRuns {
  import opened HttpTypes
  import opened HttpEngine

  /**
   * A bundle arrives from the queue, or an id request reports: with its id, or with 0 when it failed. A
   * failing request may report more than once; `last` marks the report that ends it.
   */
  datatype Event = Bundle(r: seq<SrcItem>, w: seq<SrcItem>) | IdReport(id: nat, last: bool)

  /** The gate, the id requests that have ended, and whether the latest report was a failure. */
  datatype Run = Run(gate: Gate, ended: nat, posted: seq<Posting>)

  /** One SrcPost with the report that released it, if it was not posted on arrival. */
  datatype Posting = Posting(post: Post, released: bool)

  function Fresh(g: Gate, g': Gate): seq<Post> {
    if |g.posts| <= |g'.posts| then g'.posts[|g.posts|..] else []
  }

  function Mark(ps: seq<Post>, released: bool): (ms: seq<Posting>)
    ensures |ms| == |ps| && forall k :: 0 <= k < |ps| ==> ms[k] == Posting(ps[k], released)
  {
    if ps == [] then [] else Mark(ps[..|ps| - 1], released) + [Posting(ps[|ps| - 1], released)]
  }

  function Step(s: Run, e: Event): Run {
    match e
    case Bundle(r, w) =>
      var g := BundleReady(s.gate, r, w);
      Run(g, s.ended, s.posted + Mark(Fresh(s.gate, g), false))
    case IdReport(id, last) =>
      var g := IdReady(s.gate, id);
      Run(g, if last then s.ended + 1 else s.ended, s.posted + Mark(Fresh(s.gate, g), true))
  }

  /** Only a request that is under way reports. */
  predicate Enabled(s: Run, e: Event) { e.IdReport? ==> s.ended < s.gate.idRequests }

  function RunOf(es: seq<Event>): Run {
    if es == [] then Run(EMPTY_GATE, 0, []) else Step(RunOf(es[..|es| - 1]), es[|es| - 1])
  }

  predicate Feasible(es: seq<Event>) {
    es == [] || (Feasible(es[..|es| - 1]) && Enabled(RunOf(es[..|es| - 1]), es[|es| - 1]))
  }

  // ---- everything handed over, posted and pending

  function HandedR(es: seq<Event>): seq<SrcItem> {
    if es == [] then [] else HandedR(es[..|es| - 1]) + if es[|es| - 1].Bundle? then es[|es| - 1].r else []
  }

  function HandedW(es: seq<Event>): seq<SrcItem> {
    if es == [] then [] else HandedW(es[..|es| - 1]) + if es[|es| - 1].Bundle? then es[|es| - 1].w else []
  }

  /** The reads of the bundles that need a client id, in arrival order. */
  function NeedingIn(es: seq<Event>): seq<SrcItem> {
    if es == [] then []
    else NeedingIn(es[..|es| - 1]) + if es[|es| - 1].Bundle? && NeedClientId(es[|es| - 1].r) then es[|es| - 1].r else []
  }

  function PostedR(ps: seq<Post>): seq<SrcItem> {
    if ps == [] then [] else PostedR(ps[..|ps| - 1]) + if ps[|ps| - 1].SrcPost? then ps[|ps| - 1].items else []
  }

  function PostedW(ps: seq<Post>): seq<SrcItem> {
    if ps == [] then [] else PostedW(ps[..|ps| - 1]) + if ps[|ps| - 1].XecPost? then ps[|ps| - 1].items else []
  }

  predicate NeedsIdPost(p: Post) { p.SrcPost? && NeedClientId(p.items) }

  /** The reads of the posts that need a client id, in posting order. */
  function NeedingOut(ps: seq<Post>): seq<SrcItem> {
    if ps == [] then [] else NeedingOut(ps[..|ps| - 1]) + if NeedsIdPost(ps[|ps| - 1]) then ps[|ps| - 1].items else []
  }

  lemma {:induction false} PostedRAppend(a: seq<Post>, b: seq<Post>)
    ensures PostedR(a + b) == PostedR(a) + PostedR(b)
  {
    if b == [] {
      assert a + b == a;
    } else {
      assert (a + b)[..|a + b| - 1] == a + b[..|b| - 1];
      PostedRAppend(a, b[..|b| - 1]);
    }
  }

  lemma {:induction false} PostedWAppend(a: seq<Post>, b: seq<Post>)
    ensures PostedW(a + b) == PostedW(a) + PostedW(b)
  {
    if b == [] {
      assert a + b == a;
    } else {
      assert (a + b)[..|a + b| - 1] == a + b[..|b| - 1];
      PostedWAppend(a, b[..|b| - 1]);
    }
  }

  lemma {:induction false} NeedingOutAppend(a: seq<Post>, b: seq<Post>)
    ensures NeedingOut(a + b) == NeedingOut(a) + NeedingOut(b)
  {
    if b == [] {
      assert a + b == a;
    } else {
      assert (a + b)[..|a + b| - 1] == a + b[..|b| - 1];
      NeedingOutAppend(a, b[..|b| - 1]);
    }
  }

  lemma {:induction false} PostsAppend(a: seq<Post>, b: seq<Post>)
    ensures PostedR(a + b) == PostedR(a) + PostedR(b)
    ensures PostedW(a + b) == PostedW(a) + PostedW(b)
    ensures NeedingOut(a + b) == NeedingOut(a) + NeedingOut(b)
  {
    PostedRAppend(a, b);
    PostedWAppend(a, b);
    NeedingOutAppend(a, b);
  }

  function NewPosts(id: nat, r: seq<SrcItem>, w: seq<SrcItem>): seq<Post> {
    (if r != [] then [SrcPost(r, id)] else []) + (if w != [] then [XecPost(w)] else [])
  }

  lemma {:induction false} OnePost(p: Post)
    ensures PostedR([p]) == if p.SrcPost? then p.items else []
    ensures PostedW([p]) == if p.XecPost? then p.items else []
    ensures NeedingOut([p]) == if NeedsIdPost(p) then p.items else []
  {
    assert [p][..0] == [];
  }

  /** What one start of a bundle posts. */
  lemma {:induction false} NewPostsHold(id: nat, r: seq<SrcItem>, w: seq<SrcItem>)
    ensures PostedR(NewPosts(id, r, w)) == r && PostedW(NewPosts(id, r, w)) == w
    ensures NeedingOut(NewPosts(id, r, w)) == if NeedClientId(r) then r else []
  {
    var a, b := if r != [] then [SrcPost(r, id)] else [], if w != [] then [XecPost(w)] else [];
    if r != [] { OnePost(SrcPost(r, id)); }
    if w != [] { OnePost(XecPost(w)); }
    PostsAppend(a, b);
    assert PostedR(a) == r && PostedR(b) == [] && PostedW(a) == [] && PostedW(b) == w && NeedingOut(b) == [];
    assert NeedingOut(a) == if NeedClientId(r) then r else [];
  }

  lemma {:induction false} StartPosts(g: Gate, r: seq<SrcItem>, w: seq<SrcItem>)
    ensures StartBundled(g, r, w).posts == g.posts + NewPosts(g.clientId, r, w)
    ensures PostedR(NewPosts(g.clientId, r, w)) == r && PostedW(NewPosts(g.clientId, r, w)) == w
    ensures NeedingOut(NewPosts(g.clientId, r, w)) == if NeedClientId(r) then r else []
  {
    NewPostsHold(g.clientId, r, w);
    assert g.posts + [SrcPost(r, g.clientId)] + [XecPost(w)] == g.posts + ([SrcPost(r, g.clientId)] + [XecPost(w)]);
  }

  // ---- the invariants

  ghost predicate GateInv(g: Gate, ended: nat) {
    && (g.clientId > 0 ==> g.rreqs == [] && g.wreqs == [])
    && (g.rreqs != [] || g.wreqs != [] ==> ended < g.idRequests)
    && (g.rreqs == [] ==> g.wreqs == [])
    && (g.rreqs != [] ==> NeedClientId(g.rreqs))
    && ended <= g.idRequests
  }

  ghost predicate MarksOk(s: Run) {
    && |s.posted| == |s.gate.posts|
    && (forall k :: 0 <= k < |s.posted| ==> s.posted[k].post == s.gate.posts[k])
    && (forall p :: p in s.posted && NeedsIdPost(p.post) && p.post.id == 0 ==> p.released)
  }

  ghost predicate Inv(s: Run) { GateInv(s.gate, s.ended) && MarksOk(s) }

  lemma {:induction false} StepKeepsGateInv(s: Run, e: Event)
    requires GateInv(s.gate, s.ended) && Enabled(s, e)
    ensures GateInv(Step(s, e).gate, Step(s, e).ended)
  {
    if e.Bundle? { NeedIdAppend(s.gate.rreqs, e.r); }
  }

  /** Marking new posts keeps the marks right, when those marked as not released carry an id if they need one. */
  lemma {:induction false} MarkNew(s: Run, g': Gate, ended: nat, ps: seq<Post>, released: bool)
    requires MarksOk(s) && g'.posts == s.gate.posts + ps
    requires released || forall p :: p in ps && NeedsIdPost(p) ==> p.id > 0
    ensures Fresh(s.gate, g') == ps && MarksOk(Run(g', ended, s.posted + Mark(ps, released)))
  {
    assert g'.posts[|s.gate.posts|..] == ps;
    var ms := Mark(ps, released);
    forall m | m in ms ensures m.released == released && m.post in ps {
      var k :| 0 <= k < |ms| && ms[k] == m;
      assert ps[k] in ps;
    }
  }

  lemma {:induction false} StartKeepsMarks(s: Run, g: Gate, ended: nat, r: seq<SrcItem>, w: seq<SrcItem>,
          released: bool)
    requires MarksOk(s) && g.posts == s.gate.posts && (released || g.clientId > 0 || !NeedClientId(r))
    ensures var g' := StartBundled(g, r, w); MarksOk(Run(g', ended, s.posted + Mark(Fresh(s.gate, g'), released)))
  {
    var ps := NewPosts(g.clientId, r, w);
    assert StartBundled(g, r, w).posts == g.posts + ps;
    MarkNew(s, StartBundled(g, r, w), ended, ps, released);
  }

  /** Marks depend on the posts of the gate only. */
  lemma {:induction false} MarksOfPosts(s: Run, s': Run)
    requires MarksOk(s) && s'.gate.posts == s.gate.posts && s'.posted == s.posted
    ensures MarksOk(s')
  {
  }

  lemma {:induction false} StepKeepsMarks(s: Run, e: Event)
    requires MarksOk(s)
    ensures MarksOk(Step(s, e))
  {
    var g := s.gate;
    match e
    case Bundle(r, w) =>
      if g.clientId > 0 || !NeedClientId(r) {
        StartKeepsMarks(s, g, s.ended, r, w, false);
      } else {
        assert Fresh(g, BundleReady(g, r, w)) == [] && s.posted + [] == s.posted;
        MarksOfPosts(s, Step(s, e));
      }
    case IdReport(id, last) =>
      var g0, g' := g.(clientId := id), StartBundled(g.(clientId := id), g.rreqs, g.wreqs);
      StartKeepsMarks(s, g0, Step(s, e).ended, g.rreqs, g.wreqs, true);
      MarksOfPosts(Run(g', Step(s, e).ended, s.posted + Mark(Fresh(g, g'), true)), Step(s, e));
  }

  lemma {:induction false} StepKeepsInv(s: Run, e: Event)
    requires Inv(s) && Enabled(s, e)
    ensures Inv(Step(s, e))
  {
    StepKeepsGateInv(s, e);
    StepKeepsMarks(s, e);
  }

  /**
   * In every run: a positive client id leaves nothing pending, and pending requests have an id request under
   * way; a post that needs an id carries a positive one unless a failed id report released it.
   */
  lemma {:induction false} GateIsSound(es: seq<Event>)
    requires Feasible(es)
    ensures var s := RunOf(es);
            && (s.gate.clientId > 0 ==> s.gate.rreqs == [] && s.gate.wreqs == [])
            && (s.gate.rreqs != [] || s.gate.wreqs != [] ==> s.ended < s.gate.idRequests)
            && (forall p :: p in s.posted && NeedsIdPost(p.post) && p.post.id == 0 ==> p.released)
    ensures Inv(RunOf(es))
  {
    if es != [] {
      GateIsSound(es[..|es| - 1]);
      StepKeepsInv(RunOf(es[..|es| - 1]), es[|es| - 1]);
    }
  }

  /** A released post without an id was released by a report with no id. */
  lemma {:induction false} ReleasedWithoutId(s: Run, id: nat, last: bool, p: Posting)
    requires Inv(s) && p in Step(s, IdReport(id, last)).posted && p !in s.posted
    ensures p.released && (p.post.SrcPost? ==> p.post.id == id)
  {
    var g := s.gate.(clientId := id);
    StartPosts(g, s.gate.rreqs, s.gate.wreqs);
    assert IdReady(s.gate, id).posts == s.gate.posts + NewPosts(id, s.gate.rreqs, s.gate.wreqs);
  }

  /** The id the gate has been told of last. */
  function LastId(es: seq<Event>): nat {
    if es == [] then 0 else match es[|es| - 1] case IdReport(id, _) => id case Bundle(_, _) => LastId(es[..|es| - 1])
  }

  /** In every run the gate has the id reported last, and whatever a step posts for the sources carries it. */
  lemma {:induction false} PostsCarryLastId(es: seq<Event>)
    ensures RunOf(es).gate.clientId == LastId(es)
    ensures es != [] ==> Carries(RunOf(es[..|es| - 1]).gate, RunOf(es).gate)
  {
    if es != [] {
      var front, e := es[..|es| - 1], es[|es| - 1];
      PostsCarryLastId(front);
      StepCarriesId(RunOf(front), e);
    }
  }

  /** The posts of the gate grow, and those new to it carry its id. */
  ghost predicate Carries(g: Gate, g': Gate) {
    g.posts <= g'.posts && forall p :: p in g'.posts[|g.posts|..] && p.SrcPost? ==> p.id == g'.clientId
  }

  lemma {:induction false} StartCarriesId(g: Gate, r: seq<SrcItem>, w: seq<SrcItem>)
    ensures Carries(g, StartBundled(g, r, w))
  {
    StartPosts(g, r, w);
    Suffix(g.posts, NewPosts(g.clientId, r, w));
    NewPostsCarry(g.clientId, r, w);
  }

  lemma {:induction false} Suffix(a: seq<Post>, b: seq<Post>)
    ensures a <= a + b && (a + b)[|a|..] == b
  {
  }

  lemma {:induction false} NewPostsCarry(id: nat, r: seq<SrcItem>, w: seq<SrcItem>)
    ensures forall p :: p in NewPosts(id, r, w) && p.SrcPost? ==> p.id == id
  {
  }

  lemma {:induction false} StepCarriesId(s: Run, e: Event)
    ensures var g, g' := s.gate, Step(s, e).gate;
            g'.clientId == (match e case IdReport(id, _) => id case Bundle(_, _) => g.clientId) && Carries(g, g')
  {
    match e
    case Bundle(r, w) =>
      if s.gate.clientId > 0 || !NeedClientId(r) {
        StartCarriesId(s.gate, r, w);
      } else {
        assert s.gate.posts[|s.gate.posts|..] == [];
      }
    case IdReport(id, _) => StartCarriesId(s.gate.(clientId := id), s.gate.rreqs, s.gate.wreqs);
  }

  /** What the gate has posted and still holds, for reads, for writes and for the reads that need an id. */
  ghost predicate Holds(g: Gate, r: multiset<SrcItem>, w: multiset<SrcItem>, needing: seq<SrcItem>) {
    && multiset(PostedR(g.posts)) + multiset(g.rreqs) == r
    && multiset(PostedW(g.posts)) + multiset(g.wreqs) == w
    && NeedingOut(g.posts) + g.rreqs == needing
  }

  lemma {:induction false} Shift(a: seq<SrcItem>, b: seq<SrcItem>, r: seq<SrcItem>, m: multiset<SrcItem>)
    requires multiset(a) + multiset(b) == m
    ensures multiset(a + r) + multiset(b) == m + multiset(r)
  {
  }

  lemma {:induction false} StartHolds(g: Gate, r0: multiset<SrcItem>, w0: multiset<SrcItem>, needing: seq<SrcItem>,
          r: seq<SrcItem>, w: seq<SrcItem>)
    requires Holds(g, r0, w0, needing) && (NeedClientId(r) ==> g.rreqs == [])
    ensures Holds(StartBundled(g, r, w), r0 + multiset(r), w0 + multiset(w),
                  needing + if NeedClientId(r) then r else [])
  {
    StartPosted(g, r, w);
    Shift(PostedR(g.posts), g.rreqs, r, r0);
    Shift(PostedW(g.posts), g.wreqs, w, w0);
    Insert(NeedingOut(g.posts), g.rreqs, if NeedClientId(r) then r else []);
    var g' := StartBundled(g, r, w);
    assert g'.rreqs == g.rreqs && g'.wreqs == g.wreqs;
  }

  lemma {:induction false} Insert(a: seq<SrcItem>, b: seq<SrcItem>, c: seq<SrcItem>)
    requires b == [] || c == []
    ensures a + c + b == a + b + c
  {
  }

  lemma {:induction false} StartPosted(g: Gate, r: seq<SrcItem>, w: seq<SrcItem>)
    ensures var g' := StartBundled(g, r, w);
            && PostedR(g'.posts) == PostedR(g.posts) + r
            && PostedW(g'.posts) == PostedW(g.posts) + w
            && NeedingOut(g'.posts) == NeedingOut(g.posts) + if NeedClientId(r) then r else []
  {
    StartPosts(g, r, w);
    PostsAppend(g.posts, NewPosts(g.clientId, r, w));
  }

  lemma {:induction false} PendHolds(g: Gate, r0: multiset<SrcItem>, w0: multiset<SrcItem>, needing: seq<SrcItem>,
          r: seq<SrcItem>, w: seq<SrcItem>, n: nat)
    requires Holds(g, r0, w0, needing)
    ensures Holds(g.(rreqs := g.rreqs + r, wreqs := g.wreqs + w, idRequests := n),
                  r0 + multiset(r), w0 + multiset(w), needing + r)
  {
    Shift(g.rreqs, PostedR(g.posts), r, r0);
    Shift(g.wreqs, PostedW(g.posts), w, w0);
    assert NeedingOut(g.posts) + (g.rreqs + r) == NeedingOut(g.posts) + g.rreqs + r;
  }

  lemma {:induction false} ReleaseHolds(g: Gate, r0: multiset<SrcItem>, w0: multiset<SrcItem>, needing: seq<SrcItem>,
          id: nat)
    requires Holds(g, r0, w0, needing) && (g.rreqs != [] ==> NeedClientId(g.rreqs))
    ensures Holds(IdReady(g, id), r0, w0, needing)
  {
    var g0 := g.(clientId := id);
    StartPosts(g0, g.rreqs, g.wreqs);
    PostsAppend(g.posts, NewPosts(id, g.rreqs, g.wreqs));
    assert needing + [] == needing;
  }

  /**
   * Every read and every write handed to the gate is posted exactly once or still pending; the reads of the
   * bundles that need an id are posted in arrival order.
   */
  lemma {:induction false} GateConserves(es: seq<Event>)
    requires Feasible(es)
    ensures Holds(RunOf(es).gate, multiset(HandedR(es)), multiset(HandedW(es)), NeedingIn(es))
  {
    if es != [] {
      var front, e := es[..|es| - 1], es[|es| - 1];
      GateConserves(front);
      GateIsSound(front);
      var g := RunOf(front).gate;
      var r0, w0, n0 := multiset(HandedR(front)), multiset(HandedW(front)), NeedingIn(front);
      match e
      case Bundle(r, w) =>
        BundleHolds(g, r0, w0, n0, r, w);
        assert multiset(HandedR(es)) == r0 + multiset(r) && multiset(HandedW(es)) == w0 + multiset(w);
        assert NeedingIn(es) == n0 + if NeedClientId(r) then r else [];
      case IdReport(id, _) =>
        ReleaseHolds(g, r0, w0, n0, id);
        assert HandedR(es) == HandedR(front) && HandedW(es) == HandedW(front) && NeedingIn(es) == n0;
    }
  }

  lemma {:induction false} BundleHolds(g: Gate, r0: multiset<SrcItem>, w0: multiset<SrcItem>, needing: seq<SrcItem>,
          r: seq<SrcItem>, w: seq<SrcItem>)
    requires Holds(g, r0, w0, needing) && (g.clientId > 0 ==> g.rreqs == [])
             && (g.rreqs != [] ==> NeedClientId(g.rreqs))
    ensures Holds(BundleReady(g, r, w), r0 + multiset(r), w0 + multiset(w), needing + if NeedClientId(r) then r else [])
  {
    if g.clientId > 0 || !NeedClientId(r) {
      StartHolds(g, r0, w0, needing, r, w);
    } else {
      PendHolds(g, r0, w0, needing, r, w, g.idRequests + 1);
    }
  }

  // ---- the order of the writes

  /** A bundle of writes is posted while earlier writes are held back. */
  predicate Overtakes(g: Gate, e: Event) {
    e.Bundle? && !(g.clientId == 0 && NeedClientId(e.r)) && e.w != [] && g.wreqs != []
  }

  /** One bundle keeps the writes in order if and only if it is held back or its writes commute with those held back. */
  lemma {:induction false} BundleWriteOrderIff(g: Gate, r: seq<SrcItem>, w: seq<SrcItem>, handed: seq<SrcItem>)
    requires PostedW(g.posts) + g.wreqs == handed
    ensures var g' := BundleReady(g, r, w);
      PostedW(g'.posts) + g'.wreqs == handed + w
      <==> (g.clientId == 0 && NeedClientId(r)) || w + g.wreqs == g.wreqs + w
  {
    var p, g' := PostedW(g.posts), BundleReady(g, r, w);
    Swapped(p, w, g.wreqs);
    if g.clientId > 0 || !NeedClientId(r) {
      StartPosted(g, r, w);
      assert PostedW(g'.posts) == p + w && g'.wreqs == g.wreqs;
    } else {
      assert PostedW(g'.posts) == p && g'.wreqs == g.wreqs + w;
    }
  }

  lemma {:induction false} Swapped(p: seq<SrcItem>, a: seq<SrcItem>, b: seq<SrcItem>)
    ensures (p + a) + b == (p + b) + a <==> a + b == b + a
    ensures p + (b + a) == (p + b) + a
  {
    assert (p + a) + b == p + (a + b) && (p + b) + a == p + (b + a);
    assert (p + (a + b))[|p|..] == a + b && (p + (b + a))[|p|..] == b + a;
  }

  lemma {:induction false} ReleaseKeepsWrites(g: Gate, id: nat)
    ensures PostedW(IdReady(g, id).posts) + IdReady(g, id).wreqs == PostedW(g.posts) + g.wreqs
  {
    StartPosted(g.(clientId := id), g.rreqs, g.wreqs);
    assert PostedW(g.posts) + g.wreqs + [] == PostedW(g.posts) + g.wreqs;
  }

  /** The bundle is held back, or its writes commute with those held back. */
  predicate KeepsOrder(g: Gate, e: Event) {
    e.Bundle? ==> (g.clientId == 0 && NeedClientId(e.r)) || e.w + g.wreqs == g.wreqs + e.w
  }

  /** The writes posted, then those held back, are those handed in, in order. */
  ghost predicate Ordered(es: seq<Event>) {
    PostedW(RunOf(es).gate.posts) + RunOf(es).gate.wreqs == HandedW(es)
  }

  lemma {:induction false} OrderedSnoc(front: seq<Event>, e: Event)
    requires Ordered(front)
    ensures Ordered(front + [e]) <==> KeepsOrder(RunOf(front).gate, e)
  {
    var es := front + [e];
    assert es[..|front|] == front;
    match e
    case Bundle(r, w) => BundleWriteOrderIff(RunOf(front).gate, r, w, HandedW(front));
    case IdReport(id, _) =>
      ReleaseKeepsWrites(RunOf(front).gate, id);
      assert HandedW(front) + [] == HandedW(front);
  }

  /** At the end of every prefix of the run. */
  ghost predicate AlwaysOrdered(es: seq<Event>) {
    Ordered(es) && (es == [] || AlwaysOrdered(es[..|es| - 1]))
  }

  ghost predicate AlwaysKeeps(es: seq<Event>) {
    es == [] || (AlwaysKeeps(es[..|es| - 1]) && KeepsOrder(RunOf(es[..|es| - 1]).gate, es[|es| - 1]))
  }

  /** The writes are in order all along a run if and only if every bundle of it is held back or commutes. */
  lemma {:induction false} WritesInOrderIff(es: seq<Event>)
    ensures AlwaysOrdered(es) <==> AlwaysKeeps(es)
  {
    if es != [] {
      var front, e := es[..|es| - 1], es[|es| - 1];
      WritesInOrderIff(front);
      assert es == front + [e];
      if Ordered(front) { OrderedSnoc(front, e); }
    }
  }

  /** In every run in which no bundle overtakes, the writes posted, then those held back, are those handed in. */
  lemma {:induction false} WritesInOrder(es: seq<Event>)
    requires forall k :: 0 <= k < |es| ==> !Overtakes(RunOf(es[..k]).gate, es[k])
    ensures PostedW(RunOf(es).gate.posts) + RunOf(es).gate.wreqs == HandedW(es)
  {
    if es != [] {
      var front, e := es[..|es| - 1], es[|es| - 1];
      OvertakesBefore(es);
      WritesInOrder(front);
      StepWriteOrder(RunOf(front), e, HandedW(front));
    }
  }

  lemma {:induction false} OvertakesBefore(es: seq<Event>)
    requires es != [] && forall k :: 0 <= k < |es| ==> !Overtakes(RunOf(es[..k]).gate, es[k])
    ensures var front := es[..|es| - 1];
            && (forall k :: 0 <= k < |front| ==> !Overtakes(RunOf(front[..k]).gate, front[k]))
            && !Overtakes(RunOf(front).gate, es[|es| - 1])
  {
    var front := es[..|es| - 1];
    forall k | 0 <= k < |front| ensures !Overtakes(RunOf(front[..k]).gate, front[k]) { assert front[..k] == es[..k]; }
  }

  lemma {:induction false} StepWriteOrder(s: Run, e: Event, handed: seq<SrcItem>)
    requires !Overtakes(s.gate, e) && PostedW(s.gate.posts) + s.gate.wreqs == handed
    ensures PostedW(Step(s, e).gate.posts) + Step(s, e).gate.wreqs == handed + if e.Bundle? then e.w else []
  {
    match e
    case Bundle(r, w) =>
      BundleWriteOrderIff(s.gate, r, w, handed);
      assert w == [] || s.gate.wreqs == [] ==> w + s.gate.wreqs == s.gate.wreqs + w;
    case IdReport(id, _) =>
      ReleaseKeepsWrites(s.gate, id);
      assert handed + [] == handed;
  }

  /** A write held back with a subscription is overtaken by the next one. */
  lemma {:induction false} WriteOvertaken(s: SrcItem, first: SrcItem, second: SrcItem, id: nat)
    requires s.verb.NeedsId() && first != second
    ensures var g := IdReady(BundleReady(BundleReady(EMPTY_GATE, [s], [first]), [], [second]), id);
      PostedW(g.posts) == [second, first]
  {
    HeldBack(s, first);
    var g1 := BundleReady(EMPTY_GATE, [s], [first]);
    var g2 := StartBundled(g1, [], [second]);
    StartPosted(g1, [], [second]);
    StartPosted(g2.(clientId := id), [s], [first]);
    Pair(second, first);
  }

  lemma {:induction false} HeldBack(s: SrcItem, w: SrcItem)
    requires s.verb.NeedsId()
    ensures BundleReady(EMPTY_GATE, [s], [w]) == Gate(0, [s], [w], 1, [])
  {
    assert [s][..0] == [];
    assert [] + [s] == [s] && [] + [w] == [w];
  }

  lemma {:induction false} Pair(a: SrcItem, b: SrcItem)
    ensures ([] + [a]) + [b] == [a, b]
  {
  }

  /** A failed report after a good one takes the id away again, and later bundles are gated anew. */
  lemma {:induction false} FailureAfterSuccessGatesAgain(s: Run, id: nat, r: seq<SrcItem>, w: seq<SrcItem>)
    requires Inv(s) && id > 0 && NeedClientId(r)
    ensures var s' := Step(Step(s, IdReport(id, true)), IdReport(0, true));
            && s'.gate.clientId == 0
            && BundleReady(s'.gate, r, w).rreqs == r && BundleReady(s'.gate, r, w).wreqs == w
            && BundleReady(s'.gate, r, w).idRequests == s'.gate.idRequests + 1
  {
  }
}
