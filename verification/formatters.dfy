/**
  The formatters seen together, as the HTTP layer chooses one of them per
  request, and the properties that hold across all of them.
 */
module Formatters {
  import opened Messages
  import Format

  /** Which formatter a request is answered with (and its extra argument). */
  datatype Formatter =
    | EventEntryFormat
    | StreamBackwardFormat(headOfStream: bool)
    | StreamForwardFormat
    | AllBackwardFormat
    | AllForwardFormat
    | DeleteStreamFormat
    | TextFormat
    | WriteEventsFormat
    | FreshStatsFormat

  /**
    Runs formatter `f`. A message of a class the formatter does not expect
    gives an empty body; a body is rendered exactly when the expected message
    reports success; only the range-checked formatters throw, and only on an
    out-of-range result. A rendered body is built from the caller's arguments
    unchanged.
   */
  function Apply(f: Formatter, args: FormatterArgs, message: Message, embed: EmbedLevel): (o: Format.Outcome)
    ensures !Expects(f, message) ==> o == Format.Empty
    ensures o.Rendered? <==> Expects(f, message) && Succeeded(message)
    ensures o.Throws? <==> RangeChecked(f) && Expects(f, message) && OutOfRange(message)
    ensures o.Rendered? ==> PassesThrough(f, args, message, embed, o.doc)
  {
    match f
    case EventEntryFormat => Format.EventEntry(args, message, embed)
    case StreamBackwardFormat(headOfStream) => Format.GetStreamEventsBackward(args, message, embed, headOfStream)
    case StreamForwardFormat => Format.GetStreamEventsForward(args, message, embed)
    case AllBackwardFormat => Format.ReadAllEventsBackwardCompleted(args, message, embed)
    case AllForwardFormat => Format.ReadAllEventsForwardCompleted(args, message, embed)
    case DeleteStreamFormat => Format.DeleteStreamCompleted(args, message)
    case TextFormat => Format.TextMessage(args, message)
    case WriteEventsFormat => Format.WriteEventsCompleted(args, message)
    case FreshStatsFormat => Format.GetFreshStatsCompleted(args, message)
  }

  /** The message class formatter `f` casts its message to; the acknowledgement formatters cast to none. */
  predicate Expects(f: Formatter, message: Message) {
    match f
    case EventEntryFormat => message.ReadEventCompleted?
    case StreamBackwardFormat(_) => message.ReadStreamEventsBackwardCompleted?
    case StreamForwardFormat => message.ReadStreamEventsForwardCompleted?
    case AllBackwardFormat => message.ReadAllEventsBackwardCompleted?
    case AllForwardFormat => message.ReadAllEventsForwardCompleted?
    case DeleteStreamFormat => false
    case TextFormat => message.TextMessage?
    case WriteEventsFormat => false
    case FreshStatsFormat => message.GetFreshStatsCompleted?
  }

  /** The message reports success: result code Success, the stats flag set, or a text message. */
  predicate Succeeded(message: Message) {
    match message
    case ReadEventCompleted(r, _) => r.Success?
    case ReadStreamEventsBackwardCompleted(r, _) => r.Success?
    case ReadStreamEventsForwardCompleted(r, _) => r.Success?
    case ReadAllEventsBackwardCompleted(r, _) => r.Success?
    case ReadAllEventsForwardCompleted(r, _) => r.Success?
    case TextMessage(_) => true
    case GetFreshStatsCompleted(success, _) => success
    case _ => false
  }

  /** The message's result code is not a declared member of its enum. */
  predicate OutOfRange(message: Message) {
    match message
    case ReadEventCompleted(r, _) => r.Unknown?
    case ReadStreamEventsBackwardCompleted(r, _) => r.Unknown?
    case ReadStreamEventsForwardCompleted(r, _) => r.Unknown?
    case ReadAllEventsBackwardCompleted(r, _) => r.Unknown?
    case ReadAllEventsForwardCompleted(r, _) => r.Unknown?
    case _ => false
  }

  /** The formatters whose switch default throws on an out-of-range result. */
  predicate RangeChecked(f: Formatter) {
    f.EventEntryFormat? || f.StreamBackwardFormat? || f.StreamForwardFormat? || f.AllForwardFormat?
  }

  /**
    A rendered document was built from the formatter's own arguments, unchanged:
    the caller's codec, the message itself for the smart formatter, and for an
    entry or feed the caller's embed level, host name and head-of-stream flag.
   */
  predicate PassesThrough(f: Formatter, args: FormatterArgs, message: Message, embed: EmbedLevel, d: Format.Document) {
    && (d.Encoded? ==> d.codec == args.codec)
    && (d.SmartFormatted? ==> d.formatCodec == args.codec && d.completed == message)
    && (d.Encoded? && !d.payload.TextBody? && !d.payload.StatsBody? ==>
          d.payload.embed == embed && d.payload.userHostName == args.userHostName)
    && (d.Encoded? && d.payload.StreamEventBackwardFeed? ==>
          f.StreamBackwardFormat? && d.payload.headOfStream == f.headOfStream)
  }

  /** Two outcomes are of the same kind: both empty, both rendered, or both thrown. */
  predicate SameKind(a: Format.Outcome, b: Format.Outcome) {
    a.Empty? == b.Empty? && a.Rendered? == b.Rendered? && a.Throws? == b.Throws?
  }

  /** Without a rendered body, the outcome depends neither on the embed level nor on head-of-stream. */
  lemma ExtraArgumentsIgnoredUnlessRendered(f: Formatter, args: FormatterArgs, message: Message, embed: EmbedLevel,
                                            embed': EmbedLevel, headOfStream: bool)
    requires !Apply(f, args, message, embed).Rendered?
    ensures Apply(f, args, message, embed') == Apply(f, args, message, embed)
    ensures f.StreamBackwardFormat? ==>
      Apply(StreamBackwardFormat(headOfStream), args, message, embed') == Apply(f, args, message, embed)
  {
  }

  /** A stream deletion is acknowledged with an empty body, whatever the message. */
  lemma DeleteStreamIsEmpty(args: FormatterArgs, message: Message, embed: EmbedLevel)
    ensures Apply(DeleteStreamFormat, args, message, embed) == Format.Empty
  {
  }

  /** A write is acknowledged with an empty body, whatever the message. */
  lemma WriteEventsIsEmpty(args: FormatterArgs, message: Message, embed: EmbedLevel)
    ensures Apply(WriteEventsFormat, args, message, embed) == Format.Empty
  {
  }

  /** Reading a stream forward or backward gives the same kind of outcome for the same result. */
  lemma StreamDirectionsAgree(args: FormatterArgs, result: ReadStreamResult, slice: Slice, embed: EmbedLevel,
                              headOfStream: bool)
    ensures SameKind(Format.GetStreamEventsForward(args, ReadStreamEventsForwardCompleted(result, slice), embed),
                     Format.GetStreamEventsBackward(args, ReadStreamEventsBackwardCompleted(result, slice), embed, headOfStream))
  {
  }

  /**
    The guard of the backward all-log formatter matters only for out-of-range
    results: on every declared result both directions agree, and on an
    out-of-range one the forward formatter throws where the backward one is empty.
   */
  lemma AllDirectionsDifferOnlyOutOfRange(args: FormatterArgs, result: ReadAllResult, slice: Slice, embed: EmbedLevel)
    ensures var forward := Format.ReadAllEventsForwardCompleted(args, ReadAllEventsForwardCompleted(result, slice), embed);
            var backward := Format.ReadAllEventsBackwardCompleted(args, ReadAllEventsBackwardCompleted(result, slice), embed);
      && (SameKind(forward, backward) <==> !result.Unknown?)
      && (result.Unknown? ==> forward.Throws? && backward.Empty?)
  {
  }
}
