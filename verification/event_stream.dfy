/** The server-sent-event framing of the channel: line splitting, payload extraction and buffering. */
module EventStream {

  const MARKER: string := "data: "
  const HELLO: string := ": hi\n"

  /** QByteArray::split('\n'): n separators give n + 1 pieces. */
  function Split(s: string): (ls: seq<string>)
    ensures |ls| >= 1
  {
    if s == "" then [""]
    else if s[0] == '\n' then [""] + Split(s[1..])
    else var ls := Split(s[1..]); [[s[0]] + ls[0]] + ls[1..]
  }

  predicate MatchAt(s: string, pat: string, i: int) {
    0 <= i && i + |pat| <= |s| && s[i..i + |pat|] == pat
  }

  /** The greatest match position that is at most i, or -1. */
  function LastMatch(s: string, pat: string, i: int): (r: int)
    ensures -1 <= r && r <= (if i < -1 then -1 else i)
    ensures r >= 0 ==> MatchAt(s, pat, r)
    ensures forall j :: r < j <= i ==> !MatchAt(s, pat, j)
    decreases i + 1
  {
    if i < 0 then -1 else if MatchAt(s, pat, i) then i else LastMatch(s, pat, i - 1)
  }

  /** QByteArray::lastIndexOf. */
  function LastIndexOf(s: string, pat: string): int { LastMatch(s, pat, |s|) }

  predicate Contains(s: string, pat: string) { exists i :: 0 <= i <= |s| && MatchAt(s, pat, i) }

  /** What one line contributes: the text after its last marker, if it has one. */
  function LinePayload(line: string): seq<string> {
    var idx := LastIndexOf(line, MARKER);
    if idx >= 0 then [line[idx + |MARKER|..]] else []
  }

  function LinePayloads(ls: seq<string>): seq<string> {
    if ls == [] then [] else LinePayload(ls[0]) + LinePayloads(ls[1..])
  }

  function Extract(s: string): seq<string> { LinePayloads(Split(s)) }

  method ExtractData(s: string) returns (jdl: seq<string>)
    ensures jdl == Extract(s)
  {
    jdl := [];
    var dl := Split(s);
    for k := 0 to |dl|
      invariant jdl + LinePayloads(dl[k..]) == LinePayloads(dl)
    {
      var bai := dl[k];
      var idx := LastIndexOf(bai, MARKER);
      assert dl[k..][1..] == dl[k + 1..];
      if idx >= 0 {
        jdl := jdl + [bai[idx + |MARKER|..]];
      }
    }
  }

  predicate EndsWith(s: string, suffix: string) {
    |suffix| <= |s| && s[|s| - |suffix|..] == suffix
  }

  predicate LikelyValid(s: string) { !(HELLO <= s) }

  predicate Complete(buf: string) { EndsWith(buf, "\n\n") || EndsWith(buf, "\r\n\r\n") }

  // ---- extraction distributes over line boundaries

  lemma {:induction false} SplitAppend(a: string, b: string)
    ensures Split(a + "\n" + b) == Split(a) + Split(b)
  {
    if a == "" {
      assert a + "\n" + b == "\n" + b;
    } else {
      assert (a + "\n" + b)[1..] == a[1..] + "\n" + b;
      SplitAppend(a[1..], b);
    }
  }

  lemma {:induction false} LinePayloadsAppend(a: seq<string>, b: seq<string>)
    ensures LinePayloads(a + b) == LinePayloads(a) + LinePayloads(b)
  {
    if a == [] {
      assert a + b == b;
    } else {
      assert (a + b)[1..] == a[1..] + b;
      LinePayloadsAppend(a[1..], b);
    }
  }

  lemma {:induction false} EmptyLine()
    ensures Split("") == [""] && LinePayload("") == [] && LinePayloads([""]) == [] && Extract("") == []
  {
  }

  lemma {:induction false} ExtractLine(a: string, b: string)
    ensures Extract(a + "\n" + b) == LinePayloads(Split(a)) + Extract(b)
  {
    SplitAppend(a, b);
    LinePayloadsAppend(Split(a), Split(b));
  }

  lemma {:induction false} ExtractAppend(a: string, b: string)
    requires a == "" || a[|a| - 1] == '\n'
    ensures Extract(a + b) == Extract(a) + Extract(b)
  {
    EmptyLine();
    if a == "" {
      assert a + b == b;
    } else {
      var a0 := a[..|a| - 1];
      assert a == a0 + "\n" + "" && a + b == a0 + "\n" + b;
      ExtractLine(a0, "");
      ExtractLine(a0, b);
    }
  }

  // ---- buffering

  /** The receiver's buffer, with everything flushed from it, delivered, and dropped with a hello message. */
  datatype Stream = Stream(buf: string, flushed: string, payloads: seq<string>, dropped: seq<string>)

  function Feed(st: Stream, ba: string): Stream {
    var buf := st.buf + ba;
    if !Complete(buf) then st.(buf := buf)
    else if LikelyValid(buf) then Stream("", st.flushed + buf, st.payloads + Extract(buf), st.dropped)
    else Stream("", st.flushed + buf, st.payloads, st.dropped + Extract(buf))
  }

  function FeedAll(chunks: seq<string>): Stream {
    if chunks == [] then Stream("", "", [], []) else Feed(FeedAll(chunks[..|chunks| - 1]), chunks[|chunks| - 1])
  }

  function Bytes(chunks: seq<string>): string {
    if chunks == [] then "" else Bytes(chunks[..|chunks| - 1]) + chunks[|chunks| - 1]
  }

  ghost predicate Conserved(st: Stream) {
    && (st.flushed == "" || st.flushed[|st.flushed| - 1] == '\n')
    && |st.payloads| + |st.dropped| == |Extract(st.flushed)|
    && (st.dropped == [] ==> st.payloads == Extract(st.flushed))
  }

  lemma {:induction false} FeedConserves(st: Stream, ba: string)
    requires Conserved(st)
    ensures Conserved(Feed(st, ba))
    ensures Feed(st, ba).flushed + Feed(st, ba).buf == st.flushed + st.buf + ba
  {
    var buf := st.buf + ba;
    assert st.flushed + buf == st.flushed + st.buf + ba;
    if Complete(buf) {
      FlushConserves(st, buf);
      assert st.flushed + buf + "" == st.flushed + buf;
    }
  }

  lemma {:induction false} FlushConserves(st: Stream, buf: string)
    requires Conserved(st) && Complete(buf)
    ensures Conserved(Stream("", st.flushed + buf, st.payloads + Extract(buf), st.dropped))
    ensures Conserved(Stream("", st.flushed + buf, st.payloads, st.dropped + Extract(buf)))
  {
    var all := st.flushed + buf;
    assert all[|all| - 1] == buf[|buf| - 1] == '\n';
    ExtractAppend(st.flushed, buf);
    if st.dropped + Extract(buf) == [] {
      assert st.dropped == [] && Extract(buf) == [];
      assert Extract(st.flushed) + [] == Extract(st.flushed);
    }
  }

  /** Nothing is lost or reordered by buffering, and every payload of the flushed bytes is delivered or dropped. */
  lemma {:induction false} BufferingConserves(chunks: seq<string>)
    ensures FeedAll(chunks).flushed + FeedAll(chunks).buf == Bytes(chunks)
    ensures Conserved(FeedAll(chunks))
  {
    if chunks == [] {
      assert Split("") == [""] && LinePayload("") == [];
      assert LinePayloads([""]) == [];
    } else {
      var front := chunks[..|chunks| - 1];
      BufferingConserves(front);
      FeedConserves(FeedAll(front), chunks[|chunks| - 1]);
    }
  }

  /** The k-th chunk completes a buffer that starts with the hello line. */
  ghost predicate FlushesHello(chunks: seq<string>, k: nat)
    requires k < |chunks|
  {
    var buf := FeedAll(chunks[..k]).buf + chunks[k];
    Complete(buf) && !LikelyValid(buf)
  }

  /** And that buffer carries data as well. */
  ghost predicate SwallowsAt(chunks: seq<string>, k: nat)
    requires k < |chunks|
  {
    FlushesHello(chunks, k) && Extract(FeedAll(chunks[..k]).buf + chunks[k]) != []
  }

  ghost predicate Swallows(chunks: seq<string>) { exists k :: 0 <= k < |chunks| && SwallowsAt(chunks, k) }

  lemma {:induction false} SwallowsSnoc(front: seq<string>, ba: string)
    ensures Swallows(front + [ba]) <==> Swallows(front) || SwallowsAt(front + [ba], |front|)
  {
    var chunks := front + [ba];
    forall k | 0 <= k < |front| ensures SwallowsAt(chunks, k) <==> SwallowsAt(front, k) {
      assert chunks[..k] == front[..k] && chunks[k] == front[k];
    }
    if Swallows(front) {
      var k :| 0 <= k < |front| && SwallowsAt(front, k);
      assert SwallowsAt(chunks, k);
    }
  }

  lemma {:induction false} DroppedIffSwallowed(chunks: seq<string>)
    ensures FeedAll(chunks).dropped == [] <==> !Swallows(chunks)
  {
    if chunks != [] {
      var front, ba := chunks[..|chunks| - 1], chunks[|chunks| - 1];
      assert chunks == front + [ba] && chunks[..|front|] == front;
      DroppedIffSwallowed(front);
      SwallowsSnoc(front, ba);
    }
  }

  /**
   * The delivered payloads are those of the flushed bytes exactly when no flush that starts with the hello
   * line carries data; a hello line flushed alone is harmless.
   */
  lemma {:induction false} DeliveredIffNotSwallowed(chunks: seq<string>)
    ensures FeedAll(chunks).payloads == Extract(FeedAll(chunks).flushed) <==> !Swallows(chunks)
  {
    BufferingConserves(chunks);
    DroppedIffSwallowed(chunks);
  }

  /** In particular nothing is dropped when no flushed buffer starts with the hello line. */
  lemma {:induction false} NoHelloNoDrop(chunks: seq<string>)
    requires forall k :: 0 <= k < |chunks| ==> !FlushesHello(chunks, k)
    ensures FeedAll(chunks).dropped == []
    ensures FeedAll(chunks).payloads == Extract(FeedAll(chunks).flushed)
  {
    DroppedIffSwallowed(chunks);
    DeliveredIffNotSwallowed(chunks);
  }

  /** Two ways of cutting one stream that end flushed and swallow nothing give the payloads of the whole stream. */
  lemma {:induction false} ChunkingIrrelevant(a: seq<string>, b: seq<string>)
    requires Bytes(a) == Bytes(b)
    requires FeedAll(a).buf == "" && FeedAll(b).buf == ""
    ensures FeedAll(a).payloads == Extract(Bytes(a)) <==> !Swallows(a)
    ensures !Swallows(a) && !Swallows(b) ==> FeedAll(a).payloads == FeedAll(b).payloads
  {
    BufferingConserves(a);
    BufferingConserves(b);
    DeliveredIffNotSwallowed(a);
    DeliveredIffNotSwallowed(b);
    assert FeedAll(a).flushed + "" == FeedAll(a).flushed && FeedAll(b).flushed + "" == FeedAll(b).flushed;
  }

  /**
   * The hello line flushed together with data takes the data with it; flushed apart it does not. So the
   * payloads of one stream do depend on its chunking, for every complete data buffer that carries some.
   */
  lemma {:induction false} HelloSwallowsData(hi: string, data: string)
    requires Complete(hi) && !LikelyValid(hi)
    requires Complete(data) && LikelyValid(data)
    ensures Bytes([hi + data]) == Bytes([hi, data])
    ensures FeedAll([hi + data]).buf == FeedAll([hi, data]).buf == ""
    ensures FeedAll([hi + data]).payloads == []
    ensures FeedAll([hi, data]).payloads == Extract(data)
  {
    assert "" + (hi + data) == hi + data && "" + hi == hi && "" + data == data;
    FeedAllOne(hi + data);
    FeedAllTwo(hi, data);
    CompleteAfter(hi, data);
    assert HELLO <= hi + data;
  }

  lemma {:induction false} EndsWithAfter(a: string, b: string, suffix: string)
    requires EndsWith(b, suffix)
    ensures EndsWith(a + b, suffix)
  {
    assert (a + b)[|a + b| - |suffix|..] == b[|b| - |suffix|..];
  }

  lemma {:induction false} CompleteAfter(a: string, b: string)
    requires Complete(b)
    ensures Complete(a + b)
  {
    if EndsWith(b, "\n\n") { EndsWithAfter(a, b, "\n\n"); } else { EndsWithAfter(a, b, "\r\n\r\n"); }
  }

  /** One such stream: a hello frame and the frame of the message "1". */
  lemma {:induction false} HelloSwallowsOne()
    ensures var hi, one := ": hi\n\n", "data: 1\n\n";
            && Bytes([hi + one]) == Bytes([hi, one])
            && FeedAll([hi + one]).payloads == []
            && FeedAll([hi, one]).payloads == ["1"]
  {
    var hi, one := HELLO + "\n", MARKER + "1" + "\n\n";
    assert hi == ": hi\n\n" && one == "data: 1\n\n";
    assert EndsWith(hi, "\n\n") && EndsWith(one, "\n\n") && one[0] != HELLO[0];
    HelloSwallowsData(hi, one);
    forall i | 0 <= i <= |"1"| ensures !MatchAt("1", MARKER, i) {}
    PrintOne("1");
  }

  lemma {:induction false} CarriageLines()
    ensures Extract("data: 1\r\n\r\n") == ["1\r"]
  {
    var line := "data: 1\r";
    assert "data: 1\r\n\r\n" == line + "\n" + "\r\n" && "\r\n" == "\r" + "\n" + "";
    ExtractLine(line, "\r\n");
    ExtractLine("\r", "");
    SplitPlain(line);
    SplitPlain("\r");
    EmptyLine();
    OneLine(line);
    OneLine("\r");
    ShortLine("\r");
    CarriagePayload();
  }

  lemma {:induction false} CarriagePayload()
    ensures LinePayload("data: 1\r") == ["1\r"]
  {
    ShortLine("1\r");
    NoBorder("1\r");
    assert "data: 1\r" == MARKER + "1\r" && (MARKER + "1\r")[|MARKER|..] == "1\r";
  }

  /** A frame whose lines end in CR LF is flushed at its end, not before, and the CR stays in its payload. */
  lemma {:induction false} CarriageReturnStays()
    ensures FeedAll(["data: 1\r\n\r\n"]) == Stream("", "data: 1\r\n\r\n", ["1\r"], [])
    ensures FeedAll(["data: 1\r\n"]) == Stream("data: 1\r\n", "", [], [])
  {
    var frame, line := "data: 1\r\n\r\n", "data: 1\r\n";
    CarriageLines();
    assert EndsWith(frame, "\r\n\r\n") && frame[0] == 'd' && HELLO[0] == ':';
    assert line[|line| - 2] == '\r' && line[|line| - 4] == ' ';
    OneFlush(frame);
    OneFlush(line);
  }

  lemma {:induction false} OneFlush(a: string)
    ensures FeedAll([a]) == if !Complete(a) then Stream(a, "", [], [])
                            else if LikelyValid(a) then Stream("", a, Extract(a), []) else Stream("", a, [], Extract(a))
  {
    FeedAllOne(a);
    assert "" + a == a && [] + Extract(a) == Extract(a);
  }

  lemma {:induction false} OneLine(line: string)
    ensures LinePayloads([line]) == LinePayload(line)
  {
    assert LinePayload(line) + LinePayloads([]) == LinePayload(line);
  }

  /** A line shorter than the marker cannot hold it. */
  lemma {:induction false} ShortLine(line: string)
    requires |line| < |MARKER|
    ensures !Contains(line, MARKER) && LinePayload(line) == []
  {
  }

  lemma {:induction false} FeedAllOne(a: string)
    ensures FeedAll([a]) == Feed(Stream("", "", [], []), a) && Bytes([a]) == a
  {
    assert [a][..0] == [] && Bytes([]) == "" && FeedAll([]) == Stream("", "", [], []);
    assert Bytes([a]) == "" + a;
  }

  lemma {:induction false} FeedAllTwo(a: string, b: string)
    ensures FeedAll([a, b]) == Feed(Feed(Stream("", "", [], []), a), b) && Bytes([a, b]) == a + b
  {
    FeedAllOne(a);
    assert [a, b][..1] == [a];
  }

  // ---- round trip

  /** The frames a server sends for a list of messages. */
  function Print(ms: seq<string>): string {
    if ms == [] then "" else MARKER + ms[0] + "\n\n" + Print(ms[1..])
  }

  predicate Plain(m: string) { '\n' !in m && !Contains(m, MARKER) }

  /** The marker has no border: behind itself it can match again only inside the message. */
  lemma {:induction false} NoBorder(m: string)
    requires !Contains(m, MARKER)
    ensures LastIndexOf(MARKER + m, MARKER) == 0
  {
    var s := MARKER + m;
    assert MatchAt(s, MARKER, 0);
    forall i | 0 < i <= |s| ensures !MatchAt(s, MARKER, i) {
      if MatchAt(s, MARKER, i) {
        assert s[i] == MARKER[0];
        assert i >= |MARKER|;
        assert m[i - |MARKER|..i - |MARKER| + |MARKER|] == s[i..i + |MARKER|];
        assert MatchAt(m, MARKER, i - |MARKER|);
      }
    }
  }

  lemma {:induction false} SplitPlain(s: string)
    requires '\n' !in s
    ensures Split(s) == [s]
  {
    if s != "" {
      SplitPlain(s[1..]);
      assert s == [s[0]] + s[1..];
    }
  }

  lemma {:induction false} PrintOne(m: string)
    requires '\n' !in m
    ensures Extract(MARKER + m + "\n\n") == [(MARKER + m)[LastIndexOf(MARKER + m, MARKER) + |MARKER|..]]
    ensures Plain(m) ==> Extract(MARKER + m + "\n\n") == [m]
  {
    var line := MARKER + m;
    assert line + "\n\n" == line + "\n" + "\n" && line + "\n" == line + "\n" + "";
    SplitAppend(line, "\n");
    SplitAppend("", "");
    assert "" + "\n" + "" == "\n";
    SplitPlain(line);
    assert Split("") == [""] && LinePayload("") == [];
    assert Split(line + "\n\n") == [line, "", ""];
    assert MatchAt(line, MARKER, 0);
    var idx := LastIndexOf(line, MARKER);
    assert idx >= 0 && LinePayload(line) == [line[idx + |MARKER|..]];
    assert [line, "", ""][1..] == ["", ""] && ["", ""][1..] == [""] && [""][1..] == [];
    assert LinePayloads(["", ""]) == [];
    if Plain(m) { NoBorder(m); }
  }

  /** No payload contains a line break or the marker. */
  lemma {:induction false} SplitHasNoBreaks(s: string)
    ensures forall l :: l in Split(s) ==> '\n' !in l
  {
    if s != "" {
      SplitHasNoBreaks(s[1..]);
    }
  }

  lemma {:induction false} LinePayloadPlain(line: string)
    requires '\n' !in line
    ensures forall p :: p in LinePayload(line) ==> Plain(p)
  {
    var idx := LastIndexOf(line, MARKER);
    if idx >= 0 {
      var p := line[idx + |MARKER|..];
      forall i | 0 <= i <= |p| ensures !MatchAt(p, MARKER, i) {
        if MatchAt(p, MARKER, i) {
          assert line[idx + |MARKER| + i..idx + |MARKER| + i + |MARKER|] == p[i..i + |MARKER|];
          assert MatchAt(line, MARKER, idx + |MARKER| + i);
        }
      }
    }
  }

  lemma {:induction false} LinePayloadsPlain(ls: seq<string>)
    requires forall l :: l in ls ==> '\n' !in l
    ensures forall p :: p in LinePayloads(ls) ==> Plain(p)
  {
    if ls != [] {
      LinePayloadPlain(ls[0]);
      LinePayloadsPlain(ls[1..]);
    }
  }

  lemma {:induction false} PlainRoundTrip(ms: seq<string>)
    requires forall m :: m in ms ==> Plain(m)
    ensures Extract(Print(ms)) == ms
  {
    if ms == [] {
      assert Split("") == [""] && LinePayload("") == [];
    } else {
      var frame, rest := MARKER + ms[0] + "\n\n", ms[1..];
      assert frame[|frame| - 1] == '\n' && Print(ms) == frame + Print(rest);
      ExtractAppend(frame, Print(rest));
      assert ms[0] in ms && forall m :: m in rest ==> m in ms;
      PrintOne(ms[0]);
      PlainRoundTrip(rest);
      assert ms == [ms[0]] + rest;
    }
  }

  /** Printing and extracting gives the messages back exactly when each is one line and free of the marker. */
  lemma {:induction false} RoundTrip(ms: seq<string>)
    ensures Extract(Print(ms)) == ms <==> forall m :: m in ms ==> Plain(m)
  {
    SplitHasNoBreaks(Print(ms));
    LinePayloadsPlain(Split(Print(ms)));
    if forall m :: m in ms ==> Plain(m) {
      PlainRoundTrip(ms);
    }
  }

  // ---- the standard's interpretation of an event stream
  // Section 9.2.6 of the WHATWG HTML Living Standard, for lines ended by LF: comments start with a colon,
  // a field ends at the first colon, one space after it is skipped, "data" values accumulate with a line
  // feed each, and a blank line dispatches the accumulated data without its last line feed.

  function FirstColon(line: string): (i: nat)
    ensures i <= |line| && (i < |line| ==> line[i] == ':') && ':' !in line[..i]
  {
    if line == "" || line[0] == ':' then 0 else 1 + FirstColon(line[1..])
  }

  function FieldName(line: string): string { line[..FirstColon(line)] }

  function FieldValue(line: string): string {
    var i := FirstColon(line);
    if i == |line| then ""
    else if i + 1 < |line| && line[i + 1] == ' ' then line[i + 2..]
    else line[i + 1..]
  }

  function Interpret(ls: seq<string>, data: string): seq<string> {
    if ls == [] then []
    else if ls[0] == "" then (if data == "" then [] else [data[..|data| - 1]]) + Interpret(ls[1..], "")
    else if FieldName(ls[0]) == "data" then Interpret(ls[1..], data + FieldValue(ls[0]) + "\n")
    else Interpret(ls[1..], data)
  }

  predicate IsDataLine(line: string) { MARKER <= line && !Contains(line[|MARKER|..], MARKER) }

  /** Every event has at most one data line, written with the marker, and is closed by a blank line. */
  predicate OneDataLine(ls: seq<string>, open: bool) {
    if ls == [] then !open
    else if ls[0] == "" then OneDataLine(ls[1..], false)
    else if IsDataLine(ls[0]) then !open && OneDataLine(ls[1..], true)
    else !Contains(ls[0], MARKER) && FieldName(ls[0]) != "data" && OneDataLine(ls[1..], open)
  }

  lemma {:induction false} FirstColonAfter(name: string, rest: string)
    requires ':' !in name
    ensures FirstColon(name + ":" + rest) == |name|
  {
    if name != "" {
      assert (name + ":" + rest)[1..] == name[1..] + ":" + rest;
      FirstColonAfter(name[1..], rest);
    }
  }

  lemma {:induction false} DataLine(line: string)
    requires IsDataLine(line)
    ensures FieldName(line) == "data" && FieldValue(line) == line[|MARKER|..]
    ensures LinePayload(line) == [line[|MARKER|..]]
  {
    var m := line[|MARKER|..];
    assert line == MARKER + m && MARKER == "data" + ":" + " ";
    assert line == "data" + ":" + (" " + m);
    FirstColonAfter("data", " " + m);
    NoBorder(m);
  }

  lemma {:induction false} InterpretMatches(ls: seq<string>, open: bool, m: string)
    requires OneDataLine(ls, open)
    ensures Interpret(ls, if open then m + "\n" else "") == (if open then [m] else []) + LinePayloads(ls)
  {
    if ls != [] {
      assert LinePayload("") == [];
      if ls[0] == "" {
        InterpretMatches(ls[1..], false, "");
        assert (m + "\n")[..|m|] == m;
      } else if IsDataLine(ls[0]) {
        DataLine(ls[0]);
        var value := FieldValue(ls[0]);
        assert "" + value + "\n" == value + "\n";
        InterpretMatches(ls[1..], true, value);
        assert !open && [value] + LinePayloads(ls[1..]) == LinePayloads(ls);
      } else {
        InterpretMatches(ls[1..], open, m);
      }
    }
  }

  /** On streams whose events carry one data line each, extraction agrees with the standard. */
  lemma {:induction false} AgreesWithStandard(s: string)
    requires OneDataLine(Split(s), false)
    ensures Extract(s) == Interpret(Split(s), "")
  {
    InterpretMatches(Split(s), false, "");
  }

  /** A line both read alike: blank, a data line with the marker, or one that carries data for neither. */
  predicate PlainLine(line: string) {
    line == "" || IsDataLine(line) || (!Contains(line, MARKER) && FieldName(line) != "data")
  }

  /** The standard dispatches at most one message a data line, and as many as there are only for one a closed event. */
  lemma {:induction false} InterpretCount(ls: seq<string>, data: string)
    requires forall l :: l in ls ==> PlainLine(l)
    ensures var most := |LinePayloads(ls)| + if data != "" then 1 else 0;
            && |Interpret(ls, data)| <= most
            && (|Interpret(ls, data)| == most ==> OneDataLine(ls, data != ""))
  {
    if ls != [] {
      var line, rest := ls[0], ls[1..];
      assert line in ls && forall l :: l in rest ==> l in ls;
      assert LinePayload("") == [];
      if line == "" {
        InterpretCount(rest, "");
      } else if IsDataLine(line) {
        DataLine(line);
        InterpretCount(rest, data + FieldValue(line) + "\n");
      } else {
        InterpretCount(rest, data);
      }
    }
  }

  /**
   * On plain lines extraction is the standard's interpretation exactly when no event has two data lines or is
   * left open.
   */
  lemma {:induction false} AgreesIff(s: string)
    requires forall l :: l in Split(s) ==> PlainLine(l)
    ensures Extract(s) == Interpret(Split(s), "") <==> OneDataLine(Split(s), false)
  {
    InterpretCount(Split(s), "");
    if OneDataLine(Split(s), false) { AgreesWithStandard(s); }
  }

  /** Two data lines in one event: the standard joins them into one message, the receiver makes two. */
  lemma {:induction false} TwoDataLinesDiffer()
    ensures LinePayloads(["data: a", "data: b", ""]) == ["a", "b"]
    ensures Interpret(["data: a", "data: b", ""], "") == ["a\nb"]
  {
    ShortDataLine("data: a", "a");
    ShortDataLine("data: b", "b");
    TwoPayloads("data: a", "data: b");
    TwoValues("data: a", "data: b");
    TwoJoined();
  }

  lemma {:induction false} TwoJoined()
    ensures var d := "" + "a" + "\n" + "b" + "\n"; d[..|d| - 1] == "a\nb"
  {
  }

  lemma {:induction false} ShortDataLine(line: string, m: string)
    requires line == MARKER + m && |m| < |MARKER|
    ensures FieldName(line) == "data" && FieldValue(line) == m && LinePayload(line) == [m]
  {
    ShortLine(m);
    assert line[|MARKER|..] == m;
    DataLine(line);
  }

  lemma {:induction false} TwoPayloads(a: string, b: string)
    ensures LinePayloads([a, b, ""]) == LinePayload(a) + LinePayload(b)
  {
    assert [a, b, ""][1..] == [b, ""] && [b, ""][1..] == [""] && [""][1..] == [];
    EmptyLine();
    assert LinePayload(b) + [] == LinePayload(b);
  }

  lemma {:induction false} TwoValues(a: string, b: string)
    requires a != "" && b != "" && FieldName(a) == FieldName(b) == "data"
    ensures Interpret([a, b, ""], "") == var d := "" + FieldValue(a) + "\n" + FieldValue(b) + "\n"; [d[..|d| - 1]]
  {
    assert [a, b, ""][1..] == [b, ""] && [b, ""][1..] == [""] && [""][1..] == [];
    var va := "" + FieldValue(a) + "\n";
    var d := va + FieldValue(b) + "\n";
    assert Interpret([""], d) == [d[..|d| - 1]] + Interpret([], "");
    assert Interpret([b, ""], va) == Interpret([""], d);
  }
}
