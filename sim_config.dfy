/** `load_config`: normalising the YAML document that drives the device simulator. */
module SimConfig {
  import opened Wrappers
  import opened Text

  /** A scalar as `yaml.safe_load` hands it over. */
  datatype Scalar = Bool(b: bool) | Int(i: int) | Str(s: string) | Null

  /** One entry of a `Messages` list: a file-name regular expression, a delay in ms, a repeat count. */
  datatype MessageRule = MessageRule(pattern: string, delay: int, repeat: int)

  /** One entry of `Replies`: its `reply_number` (when given) and its `Messages` (empty when absent). */
  datatype Reply = Reply(replyNumber: Option<int>, messages: seq<MessageRule>)

  /** The top-level keys of the loaded document; None is a key that is absent. */
  datatype Document = Document(
    waitToStart: Option<Scalar>,
    receiveCount: Option<Scalar>,
    replies: Option<seq<Reply>>,
    messages: Option<seq<MessageRule>>)

  /** The dictionary `load_config` returns: exactly these three keys. */
  datatype Config = Config(waitToStart: bool, receiveCount: int, replies: seq<Reply>)

  /** `int(value)` raised: `value` is neither a number nor numeric text. */
  datatype ConfigError = BadReceiveCount(value: Scalar)

  /** `str(value)` for a scalar. */
  function PyStr(v: Scalar): string
  {
    match v
    case Bool(b) => if b then "True" else "False"
    case Int(i) => IntToString(i)
    case Str(s) => s
    case Null => "None"
  }

  /** The WaitToStart conversion: a boolean is kept, anything else is compared as lower-cased text. */
  function AsFlag(v: Scalar): (r: bool)
    ensures v.Bool? ==> (r <==> v.b)
    ensures v.Str? ==> (r <==> Lower(v.s) in ["yes", "true", "1"])
  {
    if v.Bool? then v.b
    else
      var text := Lower(PyStr(v));
      text == "yes" || text == "true" || text == "1"
  }

  /** What the WaitToStart text rule means for each kind of scalar: the integer 1 is the only true number, and null is false. */
  lemma AsFlagMeaning(v: Scalar)
    ensures v.Bool? ==> (AsFlag(v) <==> v.b)
    ensures v.Int? ==> (AsFlag(v) <==> v.i == 1)
    ensures v.Str? ==> (AsFlag(v) <==> Lower(v.s) in ["yes", "true", "1"])
    ensures v.Null? ==> !AsFlag(v)
  {
    match v
    case Bool(_) =>
    case Int(i) =>
      LowerIntToString(i);
      IntToStringIsOne(i);
      var t := IntToString(i);
      assert |t| == 3 ==> t[0] == '-' || IsDigit(t[0]);
      assert |t| == 4 ==> t[0] == '-' || IsDigit(t[0]);
    case Str(_) =>
    case Null =>
      var t := Lower("None");
      assert |t| == 4 && t[0] == 'n';
  }

  /** `int(value)` for a scalar: booleans count as 0 and 1, text is parsed, None raises. */
  function AsInt(v: Scalar): (r: Option<int>)
    ensures v.Null? ==> r.None?
    ensures v.Int? ==> r == Some(v.i)
    ensures v.Bool? ==> r == Some(if v.b then 1 else 0)
    ensures v.Str? ==> r == ParseInt(v.s)
  {
    match v
    case Bool(b) => Some(if b then 1 else 0)
    case Int(i) => Some(i)
    case Str(s) => ParseInt(s)
    case Null => None
  }

  /** `load_config` once the YAML text has been parsed into `doc`. */
  function LoadConfig(doc: Document): (r: Result<Config, ConfigError>)
    ensures r.Err? <==> doc.receiveCount.Some? && AsInt(doc.receiveCount.value).None?
    ensures r.Ok? ==> r.value.waitToStart == (doc.waitToStart.Some? && AsFlag(doc.waitToStart.value))
    ensures r.Ok? ==> r.value.receiveCount == (if doc.receiveCount.Some? then AsInt(doc.receiveCount.value).value else 0)
    ensures r.Ok? && doc.replies.None? && doc.messages.None? ==> r.value.replies == []
  {
    var waitToStart := if doc.waitToStart.Some? then AsFlag(doc.waitToStart.value) else false;
    var count := if doc.receiveCount.Some? then AsInt(doc.receiveCount.value) else Some(0);
    var replies :=
      if doc.replies.Some? then doc.replies.value
      else if doc.messages.Some? then [Reply(Some(1), doc.messages.value)]
      else [];
    if count.None? then Err(BadReceiveCount(doc.receiveCount.value))
    else Ok(Config(waitToStart, count.value, replies))
  }

  /**
   * Each key defaults on its own: whatever the other keys hold, a missing ReceiveCount loads as 0,
   * a missing WaitToStart as false, and a present one through the flag conversion.
   */
  lemma KeyDefaults(doc: Document)
    ensures doc.receiveCount.None? ==> LoadConfig(doc).Ok? && LoadConfig(doc).value.receiveCount == 0
    ensures doc.waitToStart.None? && LoadConfig(doc).Ok? ==> !LoadConfig(doc).value.waitToStart
    ensures doc.waitToStart.Some? && LoadConfig(doc).Ok? ==> LoadConfig(doc).value.waitToStart == AsFlag(doc.waitToStart.value)
    ensures doc.replies.None? && doc.messages.None? && LoadConfig(doc).Ok? ==> LoadConfig(doc).value.replies == []
  {
  }

  /** A document without any of the keys loads as: do not wait, expect no receipts, no replies. */
  lemma EmptyDocumentDefaults()
    ensures LoadConfig(Document(None, None, None, None)) == Ok(Config(false, 0, []))
  {
  }

  /** When Replies is present, Messages is ignored whatever it holds. */
  lemma RepliesTakePrecedence(doc: Document, messages: Option<seq<MessageRule>>)
    requires doc.replies.Some?
    ensures LoadConfig(doc.(messages := messages)) == LoadConfig(doc)
    ensures LoadConfig(doc).Ok? ==> LoadConfig(doc).value.replies == doc.replies.value
  {
  }

  /** The older Messages-only format becomes a single reply numbered 1 holding those messages. */
  lemma LegacyMessagesWrapped(doc: Document)
    requires doc.replies.None? && doc.messages.Some?
    requires LoadConfig(doc).Ok?
    ensures var replies := LoadConfig(doc).value.replies;
      |replies| == 1 && replies[0].replyNumber == Some(1) && replies[0].messages == doc.messages.value
  {
  }

  /** ReceiveCount given as the text of an integer loads as that integer. */
  lemma ReceiveCountFromText(doc: Document, n: int)
    requires doc.receiveCount == Some(Str(IntToString(n)))
    ensures LoadConfig(doc).Ok? && LoadConfig(doc).value.receiveCount == n
  {
    AsIntOfText(n);
  }

  lemma AsIntOfText(n: int)
    ensures AsInt(Str(IntToString(n))) == Some(n)
  {
    ParseIntToString(n);
  }
}
