/** The `name(args)` syntax of sources: WSSource and EpSource. */
module SourceArgs {
  import opened Seqs

  const NPOS: int := 0xffff_ffff_ffff_ffff

  /** std::string::find of one character. */
  function Find(s: string, c: char): (pos: nat)
    requires |s| < NPOS
    ensures pos == NPOS <==> c !in s
    ensures pos != NPOS ==> pos < |s| && s[pos] == c && c !in s[..pos]
  {
    if s == "" then NPOS
    else if s[0] == c then 0
    else
      var rest := Find(s[1..], c);
      if rest == NPOS then NPOS else rest + 1
  }

  /** std::string::rfind of one character. */
  function RFind(s: string, c: char): (pos: nat)
    requires |s| < NPOS
    ensures pos == NPOS <==> c !in s
    ensures pos != NPOS ==> pos < |s| && s[pos] == c && c !in s[pos + 1..]
  {
    if s == "" then NPOS
    else if s[|s| - 1] == c then |s| - 1
    else RFind(s[..|s| - 1], c)
  }

  /** size_t subtraction. */
  function Minus(a: int, b: int): nat { (a - b) % (NPOS + 1) }

  /** std::string::substr for a start inside the string; the length is clamped to what is left. */
  function Substr(s: string, start: nat, len: nat): string
    requires start <= |s|
  {
    if len < |s| - start then s[start..start + len] else s[start..]
  }

  function GetArgsString(s: string): string
    requires |s| < NPOS
  {
    var pos := Find(s, '(');
    if pos == NPOS then "" else Substr(s, pos + 1, Minus(Minus(RFind(s, ')'), pos), 1))
  }

  function GetPV(s: string): string
    requires |s| < NPOS
  {
    var pos := Find(s, '(');
    if pos == NPOS then s else Substr(s, 0, pos)
  }

  /** The pieces between the separators. */
  function SplitAt(s: string, c: char): (ps: seq<string>)
    ensures |ps| >= 1
  {
    if s == "" then [""]
    else if s[0] == c then [""] + SplitAt(s[1..], c)
    else var ps := SplitAt(s[1..], c); [[s[0]] + ps[0]] + ps[1..]
  }

  function NonEmpty(ps: seq<string>): seq<string> {
    if ps == [] then [] else (if ps[0] != "" then [ps[0]] else []) + NonEmpty(ps[1..])
  }

  function Args(s: string): seq<string>
    requires |s| < NPOS
  {
    NonEmpty(SplitAt(GetArgsString(s), ','))
  }

  lemma {:induction false} NonEmptyStep(ret: seq<string>, tokens: seq<string>, k: nat)
    requires k < |tokens|
    ensures ret + NonEmpty(tokens[k..])
            == (if |tokens[k]| > 0 then ret + [tokens[k]] else ret) + NonEmpty(tokens[k + 1..])
  {
    assert tokens[k..][1..] == tokens[k + 1..];
  }

  method GetArgs(s: string) returns (ret: seq<string>)
    requires |s| < NPOS
    ensures ret == Args(s)
  {
    ret := [];
    var tokens := SplitAt(GetArgsString(s), ',');
    for k := 0 to |tokens|
      invariant ret + NonEmpty(tokens[k..]) == NonEmpty(tokens)
    {
      NonEmptyStep(ret, tokens, k);
      if |tokens[k]| > 0 { ret := ret + [tokens[k]]; }
    }
  }

  // ---- printing and parsing

  function PrintSource(name: string, args: seq<string>): string { name + "(" + Join(args) + ")" }

  predicate PlainArg(a: string) { a != "" && ',' !in a }

  lemma {:induction false} FindAfter(name: string, rest: string, c: char)
    requires c !in name && |name + [c] + rest| < NPOS
    ensures Find(name + [c] + rest, c) == |name|
  {
    if name != "" {
      assert (name + [c] + rest)[1..] == name[1..] + [c] + rest;
      FindAfter(name[1..], rest, c);
    }
  }

  lemma {:induction false} RFindLast(s: string, c: char)
    requires |s| + 1 < NPOS
    ensures RFind(s + [c], c) == |s|
  {
    assert (s + [c])[|s|] == c;
  }

  lemma {:induction false} MinusExact(a: int, b: int)
    requires 0 <= a - b <= NPOS
    ensures Minus(a, b) == a - b
  {
  }

  lemma {:induction false} MinusWraps(a: int, b: int)
    requires 0 < b - a <= NPOS
    ensures Minus(a, b) == NPOS + 1 + a - b
  {
  }

  lemma {:induction false} BetweenSlices(name: string, inner: string)
    ensures var s := name + "(" + inner + ")";
            s[|name| + 1..|name| + 1 + |inner|] == inner && s[..|name|] == name
  {
  }

  /** The wrapped length is exact: what lies between the first "(" and a closing ")" at the end. */
  lemma {:induction false} ArgsBetween(name: string, inner: string)
    requires '(' !in name && |name + "(" + inner + ")"| < NPOS
    ensures GetArgsString(name + "(" + inner + ")") == inner
    ensures GetPV(name + "(" + inner + ")") == name
  {
    var s := name + "(" + inner + ")";
    assert s == name + ['('] + (inner + ")") && s == (name + "(" + inner) + [')'];
    FindAfter(name, inner + ")", '(');
    RFindLast(name + "(" + inner, ')');
    MinusExact(|s| - 1, |name|);
    MinusExact(|s| - 1 - |name|, 1);
    BetweenSlices(name, inner);
  }

  lemma {:induction false} InTail(s: string, pos: nat, k: nat)
    requires pos < k < |s|
    ensures s[k] in s[pos + 1..]
  {
    assert s[pos + 1..][k - pos - 1] == s[k];
  }

  lemma {:induction false} RFindBefore(s: string, pos: nat, c: char)
    requires |s| < NPOS && pos < |s| && s[pos] != c && c !in s[pos + 1..]
    ensures RFind(s, c) == NPOS || RFind(s, c) < pos
  {
    if c in s {
      var r := RFind(s, c);
      if pos < r {
        InTail(s, pos, r);
        assert false;
      }
    }
  }

  /** A source without a "(" is all name. */
  lemma {:induction false} NoArguments(s: string)
    requires |s| < NPOS && '(' !in s
    ensures GetPV(s) == s && GetArgsString(s) == "" && Args(s) == []
  {
    assert SplitAt("", ',') == [""] && [""][1..] == [];
  }

  /** Without a ")" behind the "(" the length wraps round and the arguments run to the end of the source. */
  lemma {:induction false} WrappedLengthRunsToEnd(s: string)
    requires |s| < NPOS && '(' in s && ')' !in s[Find(s, '(') + 1..]
    ensures GetArgsString(s) == s[Find(s, '(') + 1..]
  {
    var pos := Find(s, '(');
    RFindBefore(s, pos, ')');
    WrappedLength(RFind(s, ')'), pos, |s|);
  }

  lemma {:induction false} WrappedLength(r: nat, pos: nat, n: nat)
    requires (r == NPOS || r < pos) && pos < n < NPOS
    ensures Minus(Minus(r, pos), 1) >= n - (pos + 1)
  {
    if r == NPOS {
      MinusExact(r, pos);
      MinusExact(r - pos, 1);
    } else {
      MinusWraps(r, pos);
      MinusExact(NPOS + 1 + r - pos, 1);
    }
  }

  /** For a source with a "(", name, "(", argument string and ")" rebuild it exactly when it ends in ")". */
  lemma {:induction false} RebuildIff(s: string)
    requires |s| < NPOS && '(' in s
    ensures GetPV(s) + "(" + GetArgsString(s) + ")" == s <==> s[|s| - 1] == ')'
  {
    var pos := Find(s, '(');
    if s[|s| - 1] == ')' {
      assert pos < |s| - 1;
      var inner := s[pos + 1..|s| - 1];
      assert s == s[..pos] + "(" + inner + ")";
      ArgsBetween(s[..pos], inner);
    } else {
      var t := GetPV(s) + "(" + GetArgsString(s) + ")";
      assert t[|t| - 1] == ')';
    }
  }

  lemma {:induction false} SplitJoin(args: seq<string>)
    requires args != [] && forall a :: a in args ==> ',' !in a
    ensures SplitAt(Join(args), ',') == args
  {
    var a := args[0];
    assert a in args;
    if |args| == 1 {
      SplitNone(a);
      assert args == [a];
    } else {
      SplitOne(a, Join(args[1..]));
      forall b | b in args[1..] ensures ',' !in b { assert b in args; }
      SplitJoin(args[1..]);
      assert args == [a] + args[1..];
    }
  }

  lemma {:induction false} SplitNone(a: string)
    requires ',' !in a
    ensures SplitAt(a, ',') == [a]
  {
    if a != "" {
      SplitNone(a[1..]);
      assert a == [a[0]] + a[1..];
    }
  }

  lemma {:induction false} SplitOne(a: string, rest: string)
    requires ',' !in a
    ensures SplitAt(a + "," + rest, ',') == [a] + SplitAt(rest, ',')
  {
    var s := a + "," + rest;
    if a == "" {
      assert s == "," + rest && s[1..] == rest;
    } else {
      assert s[1..] == a[1..] + "," + rest;
      SplitOne(a[1..], rest);
      assert a == [a[0]] + a[1..];
    }
  }

  lemma {:induction false} NonEmptyAll(ps: seq<string>)
    requires forall p :: p in ps ==> p != ""
    ensures NonEmpty(ps) == ps
  {
    if ps != [] {
      assert ps[0] in ps;
      forall p | p in ps[1..] ensures p != "" { assert p in ps; }
      NonEmptyAll(ps[1..]);
      assert ps == [ps[0]] + ps[1..];
    }
  }

  lemma {:induction false} TokensPlain(s: string)
    ensures forall p :: p in NonEmpty(SplitAt(s, ',')) ==> PlainArg(p)
  {
    SplitPlain(s);
    NonEmptyIn(SplitAt(s, ','));
  }

  lemma {:induction false} SplitPlain(s: string)
    ensures forall p :: p in SplitAt(s, ',') ==> ',' !in p
  {
    if s != "" {
      SplitPlain(s[1..]);
    }
  }

  lemma {:induction false} NonEmptyIn(ps: seq<string>)
    ensures forall p :: p in NonEmpty(ps) ==> p in ps && p != ""
  {
    if ps != [] {
      NonEmptyIn(ps[1..]);
    }
  }

  /**
   * Parsing undoes printing exactly for non-empty arguments without commas; they may contain parentheses.
   */
  lemma {:induction false} ParseUndoesPrint(name: string, args: seq<string>)
    requires '(' !in name && |PrintSource(name, args)| < NPOS
    ensures Args(PrintSource(name, args)) == args <==> forall a :: a in args ==> PlainArg(a)
  {
    ArgsBetween(name, Join(args));
    TokensPlain(Join(args));
    if forall a :: a in args ==> PlainArg(a) {
      if args == [] {
        assert SplitAt("", ',') == [""] && NonEmpty([""]) == NonEmpty([]);
      } else {
        SplitJoin(args);
        NonEmptyAll(args);
      }
    }
  }
}
