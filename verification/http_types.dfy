/** The values that travel through the HTTP engine. */
module HttpTypes {
  import opened Seqs

  /** A data listener pointer; 0 is the null pointer. */
  type Listener = nat
  const NULL_LISTENER: Listener := 0

  /** The request methods the engine knows; `NoMethod` is a reader's method before its first source. */
  datatype Verb = NoMethod | Read | Subscribe | SubscribeAlt | Unsubscribe | Write | Conf | Edit
  {
    function Text(): string {
      match this
      case NoMethod => ""
      case Read => "read"
      case Subscribe => "s"
      case SubscribeAlt => "S"
      case Unsubscribe => "u"
      case Write => "write"
      case Conf => "conf"
      case Edit => "edit"
    }

    /** Methods submitted to the asynchronous client; they need a client id. */
    predicate NeedsId() {
      Subscribe? || Unsubscribe? || SubscribeAlt?
    }
  }

  datatype Variant = Invalid | Scalar(text: string) | Vector(items: seq<string>)
  {
    /** CuVariant::toString: the elements of a vector are joined with commas. */
    function Text(): string {
      match this
      case Invalid => ""
      case Scalar(text) => text
      case Vector(items) => Join(items)
    }
  }

  type CuData = map<string, Variant>

  datatype SrcItem = SrcItem(src: string, l: Listener, verb: Verb, channel: string, wrVal: Variant, options: CuData)

  datatype SrcData = SrcData(lis: Listener, verb: Verb, channel: string, options: CuData, wrVal: Variant)

  /** The SrcItem constructor: only subscribe and unsubscribe requests carry the channel. */
  function MakeItem(src: string, l: Listener, verb: Verb, channel: string, wrVal: Variant,
          options: CuData): (i: SrcItem)
    ensures i.channel != "" ==> verb.NeedsId() && i.channel == channel
  {
    SrcItem(src, l, verb, if verb.Subscribe? || verb.Unsubscribe? then channel else "", wrVal, options)
  }

  /** What the wait maps keep of a request; the value to write is kept for writes only. */
  function DataOf(i: SrcItem): SrcData {
    SrcData(i.l, i.verb, i.channel, i.options, if i.verb.Write? then i.wrVal else Invalid)
  }

  /** One call of CuDataListener::onUpdate. */
  datatype Call = Call(lis: Listener, da: CuData)

  /** CuData::has: the field is there, holds something, and reads as the value. */
  predicate Has(da: CuData, key: string, value: string) {
    key in da && da[key] != Invalid && da[key] != Vector([]) && da[key].Text() == value
  }

  /** The "src" field of a reply, as text; a missing field reads as the empty string. */
  function SrcOf(da: CuData): string { if "src" in da then da["src"].Text() else "" }

  /** The "src" field of a channel message, which is JSON still; what is not a string reads as the empty string. */
  function NameOf(da: CuData): string { if "src" in da && da["src"].Scalar? then da["src"].text else "" }
}
