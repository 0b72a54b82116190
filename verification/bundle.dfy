/** CuHttpBundledSrcReq: packing requests into one JSON object, and the reverse map of CumbiaHTTPWorld. */
module Bundle {
  import opened Seqs
  import opened HttpTypes

  datatype Json = JString(text: string) | JArray(items: seq<Json>) | JObject(fields: JsonMap)
  type JsonMap = map<string, Json>

  /** QString::number of a client id. */
  function Decimal(n: nat): string {
    if n < 10 then [('0' as int + n) as char] else Decimal(n / 10) + Decimal(n % 10)
  }

  // ---- what is packed

  function JStrings(ss: seq<string>): (js: seq<Json>)
    ensures |js| == |ss| && forall k :: 0 <= k < |ss| ==> js[k] == JString(ss[k])
  {
    if ss == [] then [] else JStrings(ss[..|ss| - 1]) + [JString(ss[|ss| - 1])]
  }

  function OptionValue(v: Variant): Json {
    if v.Vector? then JArray(JStrings(v.items)) else JString(v.Text())
  }

  function OptionFields(o: CuData): map<string, Json> { map k | k in o :: OptionValue(o[k]) }

  function FieldsUpTo(o: CuData, ks: seq<string>): map<string, Json> {
    if ks == [] then map[]
    else
      var last := ks[|ks| - 1];
      FieldsUpTo(o, ks[..|ks| - 1])[last := OptionValue(if last in o then o[last] else Invalid)]
  }

  lemma {:induction false} FieldsUpToAll(o: CuData, ks: seq<string>)
    requires forall k :: k in ks ==> k in o
    ensures FieldsUpTo(o, ks) == map k | k in o && k in ks :: OptionValue(o[k])
    ensures (forall k :: k in o ==> k in ks) ==> FieldsUpTo(o, ks) == OptionFields(o)
  {
    if ks != [] {
      FieldsUpToAll(o, ks[..|ks| - 1]);
    }
  }

  /** Writes carry their value in parentheses behind the name. */
  function SrcText(i: SrcItem): string {
    if i.verb.Write? then i.src + "(" + i.wrVal.Text() + ")" else i.src
  }

  /** The fixed keys overwrite options of the same name. */
  ghost function ItemFields(i: SrcItem): map<string, Json> {
    OptionFields(i.options)["options" := JArray(JStrings(SortedKeys(i.options.Keys)))]
    ["method" := JString(i.verb.Text())]["src" := JString(SrcText(i))]
  }

  /** The bundle channel after an item: the first non-empty channel stays. */
  function NextChannel(channel: string, i: SrcItem): string {
    if channel == "" then i.channel else channel
  }

  function BundleChannel(channel: string, srcs: seq<SrcItem>): string {
    if srcs == [] then channel else NextChannel(BundleChannel(channel, srcs[..|srcs| - 1]), srcs[|srcs| - 1])
  }

  /** An item keeps its own channel key only when its channel differs from the one already chosen. */
  predicate KeepsOwn(channel: string, i: SrcItem) {
    channel != "" && i.channel != "" && channel != i.channel
  }

  ghost function PackItem(channel: string, i: SrcItem): map<string, Json> {
    if KeepsOwn(channel, i) then ItemFields(i)["channel" := JString(i.channel)] else ItemFields(i)
  }

  ghost function PackItems(channel: string, srcs: seq<SrcItem>): (objs: seq<Json>)
    ensures |objs| == |srcs|
  {
    if srcs == [] then []
    else
      var front := srcs[..|srcs| - 1];
      PackItems(channel, front) + [JObject(PackItem(BundleChannel(channel, front), srcs[|srcs| - 1]))]
  }

  function Root(channel: string, clientId: nat, objs: seq<Json>): map<string, Json> {
    (if channel != "" then map["channel" := JString(channel)] else map[]) +
    (if clientId > 0 then map["id" := JString(Decimal(clientId))] else map[]) +
    map["srcs" := JArray(objs)]
  }

  ghost function Payload(channel: string, srcs: seq<SrcItem>, clientId: nat): map<string, Json> {
    Root(BundleChannel(channel, srcs), clientId, PackItems(channel, srcs))
  }

  // ---- rebuilding a bundle from the targets that wait for an authorisation

  function RebuildItem(k: string, sd: SrcData): SrcItem {
    MakeItem(k, sd.lis, sd.verb, sd.channel, sd.wrVal, sd.options)
  }

  function RebuildAll(t: map<string, SrcData>, ks: seq<string>): (items: seq<SrcItem>)
    requires forall k :: k in ks ==> k in t
    ensures |items| == |ks| && forall j :: 0 <= j < |ks| ==> items[j] == RebuildItem(ks[j], t[ks[j]])
  {
    if ks == [] then []
    else
      var last := ks[|ks| - 1];
      assert last in ks;
      RebuildAll(t, ks[..|ks| - 1]) + [RebuildItem(last, t[last])]
  }

  /** The header channel of a rebuilt bundle: the first non-empty channel of the targets. */
  function TargetsChannel(t: map<string, SrcData>, ks: seq<string>): string
    requires forall k :: k in ks ==> k in t
  {
    if ks == [] then ""
    else
      var last := ks[|ks| - 1];
      assert last in ks;
      var c := TargetsChannel(t, ks[..|ks| - 1]);
      if c == "" then t[last].channel else c
  }

  ghost function Rebuild(t: map<string, SrcData>): seq<SrcItem> {
    SortedKeysCover(t.Keys);
    RebuildAll(t, SortedKeys(t.Keys))
  }

  ghost function AllTargetsChannel(t: map<string, SrcData>): string {
    SortedKeysCover(t.Keys);
    TargetsChannel(t, SortedKeys(t.Keys))
  }

  lemma {:induction false} RebuildAt(t: map<string, SrcData>)
    ensures var ks := SortedKeys(t.Keys);
      && |Rebuild(t)| == |ks|
      && forall j :: 0 <= j < |ks| ==> ks[j] in t && Rebuild(t)[j] == RebuildItem(ks[j], t[ks[j]])
  {
    SortedKeysCover(t.Keys);
    forall j | 0 <= j < |SortedKeys(t.Keys)| ensures SortedKeys(t.Keys)[j] in t {
      assert SortedKeys(t.Keys)[j] in SortedKeys(t.Keys);
    }
  }

  /** One write per pending target, in target order, with that write's listener, value, method and options. */
  lemma {:induction false} RebuildIsExact(t: map<string, SrcData>)
    ensures |Rebuild(t)| == |t|
    ensures forall j, k :: 0 <= j < k < |t| ==> Rebuild(t)[j].src != Rebuild(t)[k].src
    ensures forall k :: k in t ==> exists j :: 0 <= j < |t| && Rebuild(t)[j].src == k
    ensures forall j :: 0 <= j < |t| ==>
              var i := Rebuild(t)[j];
              && i.src in t
              && i.l == t[i.src].lis && i.verb == t[i.src].verb
              && i.wrVal == t[i.src].wrVal && i.options == t[i.src].options
  {
    SortedKeysEnumerate(t.Keys);
    var ks := SortedKeys(t.Keys);
    assert |t.Keys| == |t|;
    RebuildAt(t);
    forall k | k in t ensures exists j :: 0 <= j < |t| && Rebuild(t)[j].src == k {
      var j :| 0 <= j < |ks| && ks[j] == k;
      assert Rebuild(t)[j].src == k;
    }
  }

  /** The header channel is that of the first target, in key order, that has one; there is none if no target has. */
  lemma {:induction false} HeaderChannel(t: map<string, SrcData>, ks: seq<string>)
    requires forall k :: k in ks ==> k in t
    ensures TargetsChannel(t, ks) == "" <==> forall k :: k in ks ==> t[k].channel == ""
    ensures forall n :: 0 <= n < |ks| && FirstWithChannel(t, ks, n) ==> TargetsChannel(t, ks) == t[ks[n]].channel
  {
    if ks != [] {
      var front := ks[..|ks| - 1];
      assert ks == front + [ks[|ks| - 1]] && forall k :: k in front ==> k in ks;
      HeaderChannel(t, front);
      forall n | 0 <= n < |front| && FirstWithChannel(t, ks, n) ensures FirstWithChannel(t, front, n) {}
    }
  }

  predicate FirstWithChannel(t: map<string, SrcData>, ks: seq<string>, n: nat)
    requires n < |ks| && forall k :: k in ks ==> k in t
  {
    t[ks[n]].channel != "" && forall j :: 0 <= j < n ==> t[ks[j]].channel == ""
  }

  /** One step of the packing loop. */
  lemma {:induction false} PackStep(channel: string, srcs: seq<SrcItem>, n: nat)
    requires n < |srcs|
    ensures var c := BundleChannel(channel, srcs[..n]);
      && BundleChannel(channel, srcs[..n + 1]) == NextChannel(c, srcs[n])
      && PackItems(channel, srcs[..n + 1]) == PackItems(channel, srcs[..n]) + [JObject(PackItem(c, srcs[n]))]
  {
    assert srcs[..n + 1][..n] == srcs[..n];
  }

  lemma {:induction false} OptionStep(opts: CuData, ks: seq<string>, n: nat)
    requires n < |ks|
    ensures JStrings(ks[..n + 1]) == JStrings(ks[..n]) + [JString(ks[n])]
    ensures FieldsUpTo(opts, ks[..n + 1])
            == FieldsUpTo(opts, ks[..n])[ks[n] := OptionValue(if ks[n] in opts then opts[ks[n]] else Invalid)]
  {
    assert ks[..n + 1][..n] == ks[..n];
  }

  class CuHttpBundledSrcReq {
    var channel: string
    var reqPayload: map<string, Json>

    constructor FromItems(srcs: seq<SrcItem>, clientId: nat)
      ensures reqPayload == Payload("", srcs, clientId)
    {
      channel, reqPayload := "", map[];
      new;
      reqPayload := JsonPack(srcs, clientId);
    }

    constructor FromTargets(t: map<string, SrcData>)
      ensures reqPayload == Payload(AllTargetsChannel(t), Rebuild(t), 0)
    {
      channel, reqPayload := "", map[];
      new;
      var il, chan := ItemsOf(t);
      channel := chan;
      reqPayload := JsonPack(il, 0);
    }

    static method ItemsOf(t: map<string, SrcData>) returns (il: seq<SrcItem>, channel: string)
      ensures il == Rebuild(t) && channel == AllTargetsChannel(t)
    {
      il, channel := [], "";
      SortedKeysCover(t.Keys);
      var ks := Keys(t);
      for n := 0 to |ks|
        invariant forall s :: s in ks[..n] ==> s in t
        invariant il == RebuildAll(t, ks[..n]) && channel == TargetsChannel(t, ks[..n])
      {
        assert ks[n] in ks && ks[..n + 1][..n] == ks[..n];
        var sd := t[ks[n]];
        il := il + [RebuildItem(ks[n], sd)];
        if channel == "" && sd.channel != "" { channel := sd.channel; }
      }
      assert ks[..|ks|] == ks;
    }

    method JsonPack(srcs: seq<SrcItem>, clientId: nat) returns (root: map<string, Json>)
      modifies this`channel
      ensures root == Payload(old(channel), srcs, clientId)
      ensures channel == BundleChannel(old(channel), srcs)
    {
      var sa: seq<Json> := [];
      for n := 0 to |srcs|
        invariant channel == BundleChannel(old(channel), srcs[..n])
        invariant sa == PackItems(old(channel), srcs[..n])
      {
        PackStep(old(channel), srcs, n);
        var i := srcs[n];
        var so := PackFields(i);
        if channel == "" && i.channel != "" {
          channel := i.channel;
        } else if i.channel != "" && channel != i.channel {
          so := so["channel" := JString(i.channel)];
        }
        sa := sa + [JObject(so)];
      }
      assert srcs[..|srcs|] == srcs;
      root := Root(channel, clientId, sa);
    }

    static method PackFields(i: SrcItem) returns (so: map<string, Json>)
      ensures so == ItemFields(i)
    {
      var options;
      so, options := PackOptions(i.options);
      so := so["options" := JArray(options)]["method" := JString(i.verb.Text())]["src" := JString(SrcText(i))];
    }

    static method PackOptions(opts: CuData) returns (so: map<string, Json>, options: seq<Json>)
      ensures so == OptionFields(opts) && options == JStrings(SortedKeys(opts.Keys))
    {
      so, options := map[], [];
      SortedKeysCover(opts.Keys);
      var o := Keys(opts);
      for k := 0 to |o|
        invariant options == JStrings(o[..k])
        invariant so == FieldsUpTo(opts, o[..k])
      {
        var s := o[k];
        assert s in o;
        OptionStep(opts, o, k);
        options := options + [JString(s)];
        so := so[s := OptionValue(opts[s])];
      }
      assert o[..|o|] == o;
      FieldsUpToAll(opts, o);
    }
  }

  // ---- channel factoring

  function TextAt(o: JsonMap, key: string): string {
    if key in o && o[key].JString? then o[key].text else ""
  }

  /** How the receiver of a bundle reads an item's channel: its own key, or else the root key. */
  function ChannelOf(root: JsonMap, o: JsonMap): string {
    if "channel" in o then TextAt(o, "channel") else TextAt(root, "channel")
  }

  lemma {:induction false} BundleChannelKeeps(channel: string, srcs: seq<SrcItem>, n: nat)
    requires n <= |srcs| && BundleChannel(channel, srcs[..n]) != ""
    ensures BundleChannel(channel, srcs) == BundleChannel(channel, srcs[..n])
  {
    if n == |srcs| {
      assert srcs[..n] == srcs;
    } else {
      var front := srcs[..|srcs| - 1];
      assert front[..n] == srcs[..n];
      BundleChannelKeeps(channel, front, n);
    }
  }

  lemma {:induction false} PackItemsAt(channel: string, srcs: seq<SrcItem>, n: nat)
    requires n < |srcs|
    ensures PackItems(channel, srcs)[n] == JObject(PackItem(BundleChannel(channel, srcs[..n]), srcs[n]))
  {
    if n < |srcs| - 1 {
      var front := srcs[..|srcs| - 1];
      assert front[..n] == srcs[..n];
      PackItemsAt(channel, front, n);
    }
  }

  ghost function PackedItem(srcs: seq<SrcItem>, n: nat): JsonMap
    requires n < |srcs|
  {
    PackItemsAt("", srcs, n);
    PackItems("", srcs)[n].fields
  }

  lemma {:induction false} RootChannel(channel: string, clientId: nat, objs: seq<Json>)
    ensures TextAt(Root(channel, clientId, objs), "channel") == channel
  {
  }

  /** The "channel" key of a packed item: its own channel if it keeps one, else an option of that name. */
  lemma {:induction false} ChannelKey(channel: string, i: SrcItem)
    ensures KeepsOwn(channel, i)
            ==> "channel" in PackItem(channel, i) && TextAt(PackItem(channel, i), "channel") == i.channel
    ensures !KeepsOwn(channel, i) ==> ("channel" in PackItem(channel, i) <==> "channel" in i.options)
    ensures !KeepsOwn(channel, i) && "channel" in i.options ==>
      PackItem(channel, i)["channel"] == OptionValue(i.options["channel"])
  {
    assert "channel" != "src" && "channel" != "method" && "channel" != "options";
  }

  /** No option of the item hides the bundle channel from it. */
  predicate OptionAllows(i: SrcItem, channel: string) {
    "channel" in i.options ==> i.options["channel"] == Scalar(channel)
  }

  ghost predicate ReadsBack(srcs: seq<SrcItem>, clientId: nat, n: nat)
    requires n < |srcs|
  {
    ChannelOf(Payload("", srcs, clientId), PackedItem(srcs, n)) == srcs[n].channel
  }

  /**
   * An item's non-empty channel is read back exactly when it differs from the bundle channel, or no option
   * named "channel" says otherwise.
   */
  lemma {:induction false} ChannelReadBack(srcs: seq<SrcItem>, clientId: nat, n: nat)
    requires n < |srcs| && srcs[n].channel != ""
    ensures var chan := BundleChannel("", srcs);
            ReadsBack(srcs, clientId, n) <==> srcs[n].channel != chan || OptionAllows(srcs[n], chan)
  {
    PackItemsAt("", srcs, n);
    assert srcs[..n + 1][..n] == srcs[..n];
    BundleChannelKeeps("", srcs, n + 1);
    RootChannel(BundleChannel("", srcs), clientId, PackItems("", srcs));
    ChannelKey(BundleChannel("", srcs[..n]), srcs[n]);
  }

  /** An option named "channel" hides the bundle channel from its item. */
  lemma {:induction false} OptionHidesChannel()
    ensures var i := MakeItem("a", 1, Subscribe, "ch", Invalid, map["channel" := Scalar("x")]);
            i.channel == "ch" && !ReadsBack([i], 0, 0)
  {
    var i := MakeItem("a", 1, Subscribe, "ch", Invalid, map["channel" := Scalar("x")]);
    assert [i][..0] == [];
    ChannelReadBack([i], 0, 0);
  }

  /**
   * Factoring the channel out of a bundle loses no item's channel exactly when no option named "channel"
   * contradicts the bundle channel; in particular when no option has that name.
   */
  lemma {:induction false} FactoringLosesNothing(srcs: seq<SrcItem>, clientId: nat)
    ensures (forall n :: 0 <= n < |srcs| && srcs[n].channel != "" ==> ReadsBack(srcs, clientId, n))
            <==> forall i ::
                   i in srcs && i.channel != "" && i.channel == BundleChannel("", srcs) ==> OptionAllows(i, i.channel)
    ensures (forall i :: i in srcs ==> "channel" !in i.options)
            ==> forall n :: 0 <= n < |srcs| && srcs[n].channel != "" ==> ReadsBack(srcs, clientId, n)
  {
    forall n | 0 <= n < |srcs| && srcs[n].channel != ""
      ensures ReadsBack(srcs, clientId, n)
              <==> srcs[n].channel != BundleChannel("", srcs) || OptionAllows(srcs[n], srcs[n].channel)
    {
      ChannelReadBack(srcs, clientId, n);
    }
  }

  /** Source text and method survive the packing whatever the options are called. */
  lemma {:induction false} PackedKeys(srcs: seq<SrcItem>, n: nat)
    requires n < |srcs|
    ensures TextAt(PackedItem(srcs, n), "src") == SrcText(srcs[n])
    ensures TextAt(PackedItem(srcs, n), "method") == srcs[n].verb.Text()
  {
    PackItemsAt("", srcs, n);
  }

  // ---- the packed object, field by field

  /** The names of the methods on the wire. */
  lemma {:induction false} PackedMethod(srcs: seq<SrcItem>, n: nat)
    requires n < |srcs|
    ensures var o, v := PackedItem(srcs, n), srcs[n].verb;
            && "method" in o
            && (v == Read ==> o["method"] == JString("read"))
            && (v == Subscribe ==> o["method"] == JString("s"))
            && (v == SubscribeAlt ==> o["method"] == JString("S"))
            && (v == Unsubscribe ==> o["method"] == JString("u"))
            && (v == Write ==> o["method"] == JString("write"))
            && (v == Conf ==> o["method"] == JString("conf"))
            && (v == Edit ==> o["method"] == JString("edit"))
  {
    PackItemsAt("", srcs, n);
  }

  /** No two methods have one name. */
  lemma {:induction false} MethodsDiffer(v: Verb, w: Verb)
    ensures v.Text() == w.Text() <==> v == w
  {
    if v.Text() == w.Text() && v.Text() != "" { assert v.Text()[0] == w.Text()[0]; }
  }

  /** A write carries its value behind the name of the target, a vector with commas; any other request the bare name. */
  lemma {:induction false} PackedSource(srcs: seq<SrcItem>, n: nat)
    requires n < |srcs|
    ensures var o, i := PackedItem(srcs, n), srcs[n];
            && "src" in o && o["src"].JString?
            && var text := o["src"].text;
               if i.verb != Write then text == i.src
               else match i.wrVal
                    case Invalid => text == i.src + "(" + ")"
                    case Scalar(x) => text == i.src + "(" + x + ")"
                    case Vector(xs) => text == i.src + "(" + (if xs == [] then "" else xs[0] + Rest(xs[1..])) + ")"
  {
    PackItemsAt("", srcs, n);
    var i := srcs[n];
    assert i.src + "(" + "" + ")" == i.src + "(" + ")";
    if i.wrVal.Vector? && i.wrVal.items != [] { JoinRest(i.wrVal.items); }
  }

  /** Each of the texts behind a comma. */
  function Rest(xs: seq<string>): string { if xs == [] then "" else "," + xs[0] + Rest(xs[1..]) }

  lemma {:induction false} JoinRest(xs: seq<string>)
    requires xs != []
    ensures Join(xs) == xs[0] + Rest(xs[1..])
  {
    if |xs| > 1 {
      JoinRest(xs[1..]);
      assert xs[1..][1..] == xs[2..];
      assert xs[0] + "," + (xs[1] + Rest(xs[2..])) == xs[0] + ("," + xs[1] + Rest(xs[2..]));
    }
  }

  /** Packing adds at most the channel to the fields of an item. */
  lemma {:induction false} PackedFields(srcs: seq<SrcItem>, n: nat, key: string)
    requires n < |srcs| && key != "channel"
    ensures var o, f := PackedItem(srcs, n), ItemFields(srcs[n]);
            (key in o <==> key in f) && (key in o ==> o[key] == f[key])
  {
    PackItemsAt("", srcs, n);
  }

  lemma {:induction false} ListedOptions(opts: CuData)
    ensures |JStrings(SortedKeys(opts.Keys))| == |opts|
    ensures forall k :: k in opts ==> JString(k) in JStrings(SortedKeys(opts.Keys))
  {
    var ks := SortedKeys(opts.Keys);
    SortedKeysEnumerate(opts.Keys);
    assert |opts.Keys| == |opts|;
    forall k | k in opts ensures JString(k) in JStrings(ks) {
      var j :| 0 <= j < |ks| && ks[j] == k;
      assert JStrings(ks)[j] == JString(k);
    }
  }

  /** The options of a request are listed, once each. */
  lemma {:induction false} PackedOptions(srcs: seq<SrcItem>, n: nat)
    requires n < |srcs|
    ensures var o, opts := PackedItem(srcs, n), srcs[n].options;
            && "options" in o && o["options"].JArray? && |o["options"].items| == |opts|
            && forall k :: k in opts ==> JString(k) in o["options"].items
  {
    PackedFields(srcs, n, "options");
    ListedOptions(srcs[n].options);
  }

  /** They keep their values, but for those called like one of the four fixed keys, and nothing else is packed. */
  lemma {:induction false} PackedOption(srcs: seq<SrcItem>, n: nat, key: string)
    requires n < |srcs| && key !in {"src", "method", "options", "channel"}
    ensures var o, opts := PackedItem(srcs, n), srcs[n].options;
            (key in o <==> key in opts) && (key in o ==> Says(o[key], opts[key]))
  {
    PackedFields(srcs, n, key);
  }

  /** A vector is an array of its texts, a scalar its text, and nothing the empty text. */
  predicate Says(j: Json, v: Variant) {
    match v
    case Invalid => j == JString("")
    case Scalar(x) => j == JString(x)
    case Vector(xs) => j.JArray? && |j.items| == |xs| && forall k :: 0 <= k < |xs| ==> j.items[k] == JString(xs[k])
  }

  /** The number that a text of digits stands for. */
  function Number(s: string): int {
    if s == "" then 0 else 10 * Number(s[..|s| - 1]) + (s[|s| - 1] as int - '0' as int)
  }

  lemma {:induction false} DecimalIsNumber(n: nat)
    ensures Number(Decimal(n)) == n && Decimal(n) != "" && forall c :: c in Decimal(n) ==> '0' <= c <= '9'
    ensures n > 0 ==> Decimal(n)[0] != '0'
  {
    if n >= 10 {
      DecimalIsNumber(n / 10);
      var front, last := Decimal(n / 10), Decimal(n % 10);
      assert last == [('0' as int + n % 10) as char] && Decimal(n)[..|front|] == front;
    } else {
      assert Decimal(n)[..0] == "";
    }
  }

  /**
   * The whole object: one packed request each, in order; the client id in decimal exactly if there is one; and the
   * first channel of the requests exactly if one of them has a channel.
   */
  lemma {:induction false} PackedRoot(srcs: seq<SrcItem>, clientId: nat)
    ensures var root := Payload("", srcs, clientId);
            && "srcs" in root && root["srcs"].JArray? && |root["srcs"].items| == |srcs|
            && (forall n :: 0 <= n < |srcs| ==> root["srcs"].items[n] == JObject(PackedItem(srcs, n)))
            && ("id" in root <==> clientId > 0)
            && (clientId > 0 ==> root["id"].JString? && Number(root["id"].text) == clientId)
            && ("channel" in root <==> exists n :: 0 <= n < |srcs| && srcs[n].channel != "")
            && (forall n :: 0 <= n < |srcs| && FirstChannel(srcs, n) ==> root["channel"] == JString(srcs[n].channel))
  {
    forall n | 0 <= n < |srcs| ensures PackItems("", srcs)[n] == JObject(PackedItem(srcs, n)) {
      PackItemsAt("", srcs, n);
    }
    DecimalIsNumber(clientId);
    ChannelOfBundle(srcs);
  }

  /** Request n has a channel and none before it has. */
  predicate FirstChannel(srcs: seq<SrcItem>, n: nat)
    requires n < |srcs|
  {
    srcs[n].channel != "" && forall j :: 0 <= j < n ==> srcs[j].channel == ""
  }

  lemma {:induction false} ChannelOfBundle(srcs: seq<SrcItem>)
    ensures BundleChannel("", srcs) == "" <==> forall n :: 0 <= n < |srcs| ==> srcs[n].channel == ""
    ensures forall n :: 0 <= n < |srcs| && FirstChannel(srcs, n) ==> BundleChannel("", srcs) == srcs[n].channel
  {
    if srcs != [] {
      var front := srcs[..|srcs| - 1];
      ChannelOfBundle(front);
      forall n | 0 <= n < |front| && FirstChannel(srcs, n) ensures FirstChannel(front, n) {}
    }
  }

  // ---- the reverse map

  function FieldsOf(j: Json): JsonMap { if j.JObject? then j.fields else map[] }

  function ArrayAt(o: JsonMap, key: string): seq<Json> {
    if key in o && o[key].JArray? then o[key].items else []
  }

  /** request_reverse_eng on a parsed request: each source text is mapped to the last object that carries it. */
  method RequestReverseEng(o: JsonMap, chan: string) returns (rev: map<string, JsonMap>, channel: string)
    ensures channel == if "channel" in o then TextAt(o, "channel") else chan
    ensures IsReverseMap(rev, ArrayAt(o, "srcs"))
  {
    rev, channel := map[], chan;
    if "channel" in o { channel := TextAt(o, "channel"); }
    if "srcs" in o {
      var a := ArrayAt(o, "srcs");
      for k := 0 to |a|
        invariant IsReverseMap(rev, a[..k])
      {
        var jo := FieldsOf(a[k]);
        ReverseMapSnoc(rev, a[..k], a[k]);
        assert a[..k + 1] == a[..k] + [a[k]];
        rev := rev[TextAt(jo, "src") := jo];
      }
      assert a[..|a|] == a;
    }
  }

  ghost predicate IsLastWith(a: seq<Json>, k: nat, s: string) {
    k < |a| && TextAt(FieldsOf(a[k]), "src") == s && forall j :: k < j < |a| ==> TextAt(FieldsOf(a[j]), "src") != s
  }

  ghost predicate IsReverseMap(rev: map<string, JsonMap>, a: seq<Json>) {
    && (forall k :: 0 <= k < |a| ==> TextAt(FieldsOf(a[k]), "src") in rev)
    && (forall s :: s in rev ==> exists k: nat :: IsLastWith(a, k, s) && rev[s] == FieldsOf(a[k]))
  }

  lemma {:induction false} LastWithSnoc(a: seq<Json>, j: Json, k: nat, s: string)
    requires IsLastWith(a, k, s) && TextAt(FieldsOf(j), "src") != s
    ensures IsLastWith(a + [j], k, s) && (a + [j])[k] == a[k]
  {
  }

  lemma {:induction false} ReverseMapSnoc(rev: map<string, JsonMap>, a: seq<Json>, j: Json)
    requires IsReverseMap(rev, a)
    ensures IsReverseMap(rev[TextAt(FieldsOf(j), "src") := FieldsOf(j)], a + [j])
  {
    var s0 := TextAt(FieldsOf(j), "src");
    var rev' := rev[s0 := FieldsOf(j)];
    assert (a + [j])[|a|] == j && forall k :: 0 <= k < |a| ==> (a + [j])[k] == a[k];
    forall s | s in rev' ensures exists k: nat :: IsLastWith(a + [j], k, s) && rev'[s] == FieldsOf((a + [j])[k]) {
      if s == s0 {
        assert IsLastWith(a + [j], |a|, s);
      } else {
        var k: nat :| IsLastWith(a, k, s) && rev[s] == FieldsOf(a[k]);
        LastWithSnoc(a, j, k, s);
      }
    }
  }

  lemma {:induction false} PackedAt(srcs: seq<SrcItem>, n: nat)
    requires n < |srcs|
    ensures PackItems("", srcs)[n] == JObject(PackedItem(srcs, n))
    ensures TextAt(FieldsOf(PackItems("", srcs)[n]), "src") == SrcText(srcs[n])
  {
    PackItemsAt("", srcs, n);
    PackedKeys(srcs, n);
  }

  lemma {:induction false} PayloadArray(srcs: seq<SrcItem>, clientId: nat)
    ensures ArrayAt(Payload("", srcs, clientId), "srcs") == PackItems("", srcs)
  {
  }

  lemma {:induction false} ReverseMapEntry(srcs: seq<SrcItem>, rev: map<string, JsonMap>, s: string)
    requires IsReverseMap(rev, PackItems("", srcs)) && s in rev
    ensures exists n :: 0 <= n < |srcs| && SrcText(srcs[n]) == s && rev[s] == PackedItem(srcs, n)
                        && forall j :: n < j < |srcs| ==> SrcText(srcs[j]) != s
  {
    var a := PackItems("", srcs);
    var n: nat :| IsLastWith(a, n, s) && rev[s] == FieldsOf(a[n]);
    PackedAt(srcs, n);
    forall j | n < j < |srcs| ensures SrcText(srcs[j]) != s { PackedAt(srcs, j); }
  }

  /** For a packed bundle the reverse map's keys are exactly the packed source texts, each with its last item. */
  lemma {:induction false} ReverseMapOfPayload(srcs: seq<SrcItem>, clientId: nat, rev: map<string, JsonMap>)
    requires IsReverseMap(rev, ArrayAt(Payload("", srcs, clientId), "srcs"))
    ensures forall s :: s in rev <==> exists n :: 0 <= n < |srcs| && SrcText(srcs[n]) == s
    ensures forall s ::
              s in rev ==>
              exists n ::
                && 0 <= n < |srcs| && SrcText(srcs[n]) == s && rev[s] == PackedItem(srcs, n)
                && forall j :: n < j < |srcs| ==> SrcText(srcs[j]) != s
  {
    PayloadArray(srcs, clientId);
    forall n | 0 <= n < |srcs| ensures SrcText(srcs[n]) in rev { PackedAt(srcs, n); }
    forall s | s in rev
      ensures exists n :: 0 <= n < |srcs| && SrcText(srcs[n]) == s && rev[s] == PackedItem(srcs, n)
                          && forall j :: n < j < |srcs| ==> SrcText(srcs[j]) != s
    {
      ReverseMapEntry(srcs, rev, s);
    }
  }
}
