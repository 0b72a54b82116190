/** Sequence vocabulary shared by the queues, multimaps and maps of the model. */
module Seqs {

  /** The elements of s that satisfy p, in order: what a removing iterator leaves behind. */
  function Filter<T>(p: T -> bool, s: seq<T>): (r: seq<T>)
    ensures |r| <= |s|
  {
    if s == [] then []
    else
      var last := s[|s| - 1];
      Filter(p, s[..|s| - 1]) + if p(last) then [last] else []
  }

  lemma {:induction false} Associate<T>(a: seq<T>, b: seq<T>, c: seq<T>)
    ensures (a + b) + c == a + (b + c)
  {
  }

  lemma {:induction false} FilterAppend<T>(p: T -> bool, a: seq<T>, b: seq<T>)
    ensures Filter(p, a + b) == Filter(p, a) + Filter(p, b)
  {
    if b == [] {
      assert a + b == a;
    } else {
      var b' := b[..|b| - 1];
      assert (a + b)[..|a + b| - 1] == a + b';
      FilterAppend(p, a, b');
    }
  }

  lemma {:induction false} FilterSnoc<T>(p: T -> bool, s: seq<T>, x: T)
    ensures Filter(p, s + [x]) == Filter(p, s) + if p(x) then [x] else []
  {
    assert (s + [x])[..|s|] == s;
  }

  /** One step of an iterator standing between done and todo: erase the next element, or step over it. */
  lemma {:induction false} IteratorStep<T>(done: seq<T>, todo: seq<T>)
    requires todo != []
    ensures (done + todo)[|done|] == todo[0]
    ensures (done + todo)[..|done|] + (done + todo)[|done| + 1..] == done + todo[1..]
    ensures done + todo == (done + [todo[0]]) + todo[1..]
  {
  }

  lemma {:induction false} FilterMembers<T>(p: T -> bool, s: seq<T>)
    ensures forall i :: 0 <= i < |Filter(p, s)| ==> Filter(p, s)[i] in s && p(Filter(p, s)[i])
    ensures forall i :: 0 <= i < |s| && p(s[i]) ==> s[i] in Filter(p, s)
  {
    if s != [] {
      FilterMembers(p, s[..|s| - 1]);
      assert s == s[..|s| - 1] + [s[|s| - 1]];
    }
  }

  /** A filter that removes nothing changes nothing, and only then is the length kept. */
  lemma {:induction false} FilterSameLength<T>(p: T -> bool, s: seq<T>)
    ensures |Filter(p, s)| == |s| <==> forall i :: 0 <= i < |s| ==> p(s[i])
    ensures |Filter(p, s)| == |s| ==> Filter(p, s) == s
  {
    if s != [] {
      var front, x := s[..|s| - 1], s[|s| - 1];
      FilterSameLength(p, front);
      assert s == front + [x];
      assert forall i :: 0 <= i < |front| ==> front[i] == s[i];
    }
  }

  lemma {:induction false} PartitionSnoc<T>(a: seq<T>, b: seq<T>, all: seq<T>, x: T)
    requires multiset(a) + multiset(b) == multiset(all)
    ensures multiset(a + [x]) + multiset(b) == multiset(all + [x]) == multiset(a) + multiset(b + [x])
  {
  }

  /** Two complementary filters share the elements out between them. */
  lemma {:induction false} FilterPartition<T>(p: T -> bool, q: T -> bool, s: seq<T>)
    requires forall i :: 0 <= i < |s| ==> (p(s[i]) <==> !q(s[i]))
    ensures multiset(Filter(p, s)) + multiset(Filter(q, s)) == multiset(s)
  {
    if s != [] {
      var front, x := s[..|s| - 1], s[|s| - 1];
      assert forall i :: 0 <= i < |front| ==> front[i] == s[i];
      FilterPartition(p, q, front);
      assert s == front + [x];
      FilterSnoc(p, front, x);
      FilterSnoc(q, front, x);
      PartitionSnoc(Filter(p, front), Filter(q, front), front, x);
      assert p(s[|s| - 1]) <==> !q(s[|s| - 1]);
      if p(x) { assert Filter(q, s) == Filter(q, front); } else { assert Filter(p, s) == Filter(p, front); }
    }
  }

  lemma {:induction false} FilterCommute<T>(p: T -> bool, q: T -> bool, s: seq<T>)
    ensures Filter(p, Filter(q, s)) == Filter(q, Filter(p, s))
  {
    if s != [] {
      var front, x := s[..|s| - 1], s[|s| - 1];
      FilterCommute(p, q, front);
      FilterSnoc(p, Filter(q, front), x);
      FilterSnoc(q, Filter(p, front), x);
      if !q(x) { assert Filter(q, s) == Filter(q, front); }
      if !p(x) { assert Filter(p, s) == Filter(p, front); }
    }
  }

  lemma {:induction false} FilterCount<T>(p: T -> bool, s: seq<T>, x: T)
    ensures multiset(Filter(p, s))[x] == if p(x) then multiset(s)[x] else 0
  {
    if s != [] {
      FilterCount(p, s[..|s| - 1], x);
      assert s == s[..|s| - 1] + [s[|s| - 1]];
    }
  }

  /** Texts joined with commas. */
  function Join(args: seq<string>): string {
    if args == [] then "" else if |args| == 1 then args[0] else args[0] + "," + Join(args[1..])
  }

  /** Lexicographic order, the order in which a QMap enumerates its keys. */
  predicate LexLe(a: string, b: string) {
    a == [] || (b != [] && (a[0] < b[0] || (a[0] == b[0] && LexLe(a[1..], b[1..]))))
  }

  lemma {:induction false} LexTotal(a: string, b: string)
    ensures LexLe(a, b) || LexLe(b, a)
    ensures LexLe(a, b) && LexLe(b, a) ==> a == b
  {
    if a != [] && b != [] {
      LexTotal(a[1..], b[1..]);
      assert a == [a[0]] + a[1..] && b == [b[0]] + b[1..];
    }
  }

  lemma {:induction false} LexTransitive(a: string, b: string, c: string)
    requires LexLe(a, b) && LexLe(b, c)
    ensures LexLe(a, c)
  {
    if a != [] && a[0] == b[0] && b[0] == c[0] {
      LexTransitive(a[1..], b[1..], c[1..]);
    }
  }

  ghost predicate IsLeast(k: string, s: set<string>) {
    k in s && forall x :: x in s ==> LexLe(k, x)
  }

  lemma {:induction false} LeastExists(s: set<string>)
    requires s != {}
    ensures exists k :: IsLeast(k, s)
  {
    var x :| x in s;
    if s == {x} {
      LexTotal(x, x);
      assert IsLeast(x, s);
    } else {
      var rest := s - {x};
      LeastExists(rest);
      var k :| IsLeast(k, rest);
      LexTotal(x, x);
      LexTotal(x, k);
      if LexLe(x, k) {
        forall y | y in s ensures LexLe(x, y) {
          if y != x { LexTransitive(x, k, y); }
        }
        assert IsLeast(x, s);
      } else {
        assert IsLeast(k, s);
      }
    }
  }

  ghost function Least(s: set<string>): (k: string)
    requires s != {}
    ensures IsLeast(k, s)
  {
    LeastExists(s);
    var k :| IsLeast(k, s);
    k
  }

  ghost predicate Distinct<T>(s: seq<T>) {
    forall i, j :: 0 <= i < j < |s| ==> s[i] != s[j]
  }

  /** The keys of a QMap, in key order. */
  ghost function SortedKeys(s: set<string>): (ks: seq<string>)
    decreases |s|
  {
    if s == {} then [] else [Least(s)] + SortedKeys(s - {Least(s)})
  }

  lemma {:induction false} SortedKeysEnumerate(s: set<string>)
    ensures forall k :: k in SortedKeys(s) <==> k in s
    ensures Distinct(SortedKeys(s))
    ensures |SortedKeys(s)| == |s|
    ensures forall i, j :: 0 <= i < j < |s| ==> LexLe(SortedKeys(s)[i], SortedKeys(s)[j])
    decreases |s|
  {
    if s != {} {
      var m := Least(s);
      var rest := SortedKeys(s - {m});
      SortedKeysEnumerate(s - {m});
      assert SortedKeys(s) == [m] + rest && m !in rest;
      forall i | 0 <= i < |rest| ensures LexLe(m, rest[i]) {
        assert rest[i] in rest;
        assert rest[i] in s - {m};
      }
    }
  }

  lemma {:induction false} SortedKeysCover(s: set<string>)
    ensures forall k :: k in SortedKeys(s) <==> k in s
  {
    SortedKeysEnumerate(s);
  }

  /** Enumerates the keys in order: the loop behind QMap::keys(). */
  method Keys<V>(m: map<string, V>) returns (ks: seq<string>)
    ensures ks == SortedKeys(m.Keys)
  {
    ks := [];
    var rest := m.Keys;
    ghost var all, todo := SortedKeys(rest), SortedKeys(rest);
    while rest != {}
      invariant todo == SortedKeys(rest) && all == ks + todo
      decreases |rest|
    {
      var k := LeastOf(rest);
      ks := ks + [k];
      rest := rest - {k};
      todo := todo[1..];
    }
  }

  method LeastOf(s: set<string>) returns (k: string)
    requires s != {}
    ensures k == Least(s)
  {
    k :| k in s;
    var rest := s - {k};
    ghost var seen := {k};
    LexTotal(k, k);
    while rest != {}
      invariant rest !! seen && rest + seen == s
      invariant IsLeast(k, seen)
      decreases |rest|
    {
      var x :| x in rest;
      rest := rest - {x};
      LexTotal(x, k);
      LexTotal(x, x);
      var better := LexLe(x, k);
      forall y | better && y in seen ensures LexLe(x, y) { LexTransitive(x, k, y); }
      seen := seen + {x};
      if better { k := x; }
    }
    LexTotal(k, Least(s));
    assert seen == s;
  }

  /** The loop of a mutable list iterator that removes the elements failing p. */
  method Keep<T>(p: T -> bool, s: seq<T>) returns (r: seq<T>)
    ensures r == Filter(p, s)
  {
    r := s;
    ghost var seen, todo := [], s;
    var mi := 0;
    while mi < |r|
      invariant s == seen + todo && r == Filter(p, seen) + todo && mi == |Filter(p, seen)|
      decreases |r| - mi
    {
      IteratorStep(Filter(p, seen), todo);
      IteratorStep(seen, todo);
      FilterSnoc(p, seen, todo[0]);
      if !p(r[mi]) {
        r := r[..mi] + r[mi + 1..];
      } else {
        mi := mi + 1;
      }
      seen, todo := seen + [todo[0]], todo[1..];
    }
    assert todo == [] && seen == s;
  }
}
