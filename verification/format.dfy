/**
  The HTTP response formatters of the event store: each takes the formatter
  arguments and a completed message and produces the response body, an empty
  body, or an ArgumentOutOfRangeException.

  The converters and the codec are not modelled; their applications are kept
  as terms. `Encoded(codec, p)` stands for `codec.To(p)`, the payload
  constructors stand for the `Convert.To...` calls with exactly the arguments
  the formatter passed, and `SmartFormatted` stands for the automatic event
  converter. Two outcomes are then equal exactly when the formatters made the
  same calls with the same arguments.
 */
module Format {
  import opened Messages
  import opened CaseSwitch

  /** What a formatter hands to the codec. */
  datatype Payload =
    | Entry(record: EventRecord, userHostName: string, embed: EmbedLevel)
    | StreamEventBackwardFeed(readStream: Message, userHostName: string, embed: EmbedLevel, headOfStream: bool)
    | StreamEventForwardFeed(readStream: Message, userHostName: string, embed: EmbedLevel)
    | AllEventsBackwardFeed(readAll: Message, userHostName: string, embed: EmbedLevel)
    | AllEventsForwardFeed(readAll: Message, userHostName: string, embed: EmbedLevel)
    | TextBody(textMessage: Message)
    | StatsBody(stats: Stats)

  /** A rendered response body. */
  datatype Document =
    | Encoded(codec: ResponseCodec, payload: Payload)
    | SmartFormatted(completed: Message, formatCodec: ResponseCodec)

  /** The three ways a formatter can finish. */
  datatype Outcome = Empty | Rendered(doc: Document) | Throws

  /** The content types a single event is rendered for as an Atom entry. */
  predicate AtomFamily(ct: ContentType) {
    ct.Atom? || ct.AtomJson? || ct.Html?
  }

  /** The single-event results answered with an empty body. */
  predicate EventReadFailed(r: ReadEventResult) {
    r.NotFound? || r.NoStream? || r.StreamDeleted? || r.Error? || r.AccessDenied?
  }

  /** The stream-read results answered with an empty body. */
  predicate StreamReadFailed(r: ReadStreamResult) {
    r.NoStream? || r.StreamDeleted? || r.NotModified? || r.Error? || r.AccessDenied?
  }

  /** The all-log-read results answered with an empty body. */
  predicate AllReadFailed(r: ReadAllResult) {
    r.NotModified? || r.Error? || r.AccessDenied?
  }

  /** The single-event formatter's content-type switch, given the Atom entry body. */
  function ContentTypeSections(entry: Outcome): seq<Section<ContentType, Outcome>> {
    [Section([Atom, AtomJson, Html], entry)]
  }

  /** The single-event formatter's result switch, given the Success body. */
  function EventResultSections(success: Outcome): seq<Section<ReadEventResult, Outcome>> {
    [ Section([ReadEventResult.Success], success),
      Section([ReadEventResult.NotFound, ReadEventResult.NoStream, ReadEventResult.StreamDeleted,
               ReadEventResult.Error, ReadEventResult.AccessDenied], Empty) ]
  }

  /** The result switch of both stream formatters, given the Success body. */
  function StreamResultSections(success: Outcome): seq<Section<ReadStreamResult, Outcome>> {
    [ Section([ReadStreamResult.Success], success),
      Section([ReadStreamResult.NoStream, ReadStreamResult.StreamDeleted, ReadStreamResult.NotModified,
               ReadStreamResult.Error, ReadStreamResult.AccessDenied], Empty) ]
  }

  /** The result switch of both all-log formatters, given the Success body. */
  function AllResultSections(success: Outcome): seq<Section<ReadAllResult, Outcome>> {
    [ Section([ReadAllResult.Success], success),
      Section([ReadAllResult.NotModified, ReadAllResult.Error, ReadAllResult.AccessDenied], Empty) ]
  }

  /**
    No case label appears twice in any of the formatters' switches, so the
    first-match reading of each switch agrees with C#'s jump to the one
    matching label: a labelled value selects its own section's body.
   */
  lemma SwitchLabelsDistinct(entry: Outcome, success: Outcome)
    ensures DistinctLabels(ContentTypeSections(entry))
    ensures DistinctLabels(EventResultSections(success))
    ensures DistinctLabels(StreamResultSections(success))
    ensures DistinctLabels(AllResultSections(success))
  {
  }

  /** Renders a single event read. */
  function EventEntry(args: FormatterArgs, message: Message, embed: EmbedLevel): (o: Outcome)
    ensures !message.ReadEventCompleted? ==> o == Empty
    ensures message.ReadEventCompleted? && message.eventResult.Success? && AtomFamily(args.codec.contentType)
      ==> o == Rendered(Encoded(args.codec, Entry(message.record, args.userHostName, embed)))
    ensures message.ReadEventCompleted? && message.eventResult.Success? && !AtomFamily(args.codec.contentType)
      ==> o == Rendered(SmartFormatted(message, args.codec))
    ensures message.ReadEventCompleted? && EventReadFailed(message.eventResult) ==> o == Empty
    ensures o.Throws? <==> message.ReadEventCompleted? && message.eventResult.Unknown?
  {
    match message
    case ReadEventCompleted(result, record) =>
      var codec := args.codec;
      var success := Switch(
        ContentTypeSections(Rendered(Encoded(codec, Entry(record, args.userHostName, embed)))),
        codec.contentType,
        Rendered(SmartFormatted(message, codec)));
      var sections := EventResultSections(success);
      assert EventReadFailed(result) ==> FirstMatch(sections, 1, result);
      Switch(sections, result, Throws)
    case _ => Empty
  }

  /** The switch shared by both stream formatters, given the Success body. */
  function StreamSwitch(result: ReadStreamResult, success: Outcome): (o: Outcome)
    ensures result.Success? ==> o == success
    ensures StreamReadFailed(result) ==> o == Empty
    ensures result.Unknown? ==> o == Throws
  {
    var sections := StreamResultSections(success);
    assert StreamReadFailed(result) ==> FirstMatch(sections, 1, result);
    Switch(sections, result, Throws)
  }

  /** Renders a backward read of one stream as a feed page. */
  function GetStreamEventsBackward(args: FormatterArgs, message: Message, embed: EmbedLevel, headOfStream: bool): (o: Outcome)
    ensures !message.ReadStreamEventsBackwardCompleted? ==> o == Empty
    ensures message.ReadStreamEventsBackwardCompleted? && message.streamResult.Success?
      ==> o == Rendered(Encoded(args.codec, StreamEventBackwardFeed(message, args.userHostName, embed, headOfStream)))
    ensures message.ReadStreamEventsBackwardCompleted? && StreamReadFailed(message.streamResult) ==> o == Empty
    ensures o.Throws? <==> message.ReadStreamEventsBackwardCompleted? && message.streamResult.Unknown?
  {
    match message
    case ReadStreamEventsBackwardCompleted(result, _) =>
      StreamSwitch(result, Rendered(Encoded(args.codec, StreamEventBackwardFeed(message, args.userHostName, embed, headOfStream))))
    case _ => Empty
  }

  /** Renders a forward read of one stream as a feed page. */
  function GetStreamEventsForward(args: FormatterArgs, message: Message, embed: EmbedLevel): (o: Outcome)
    ensures !message.ReadStreamEventsForwardCompleted? ==> o == Empty
    ensures message.ReadStreamEventsForwardCompleted? && message.streamResult.Success?
      ==> o == Rendered(Encoded(args.codec, StreamEventForwardFeed(message, args.userHostName, embed)))
    ensures message.ReadStreamEventsForwardCompleted? && StreamReadFailed(message.streamResult) ==> o == Empty
    ensures o.Throws? <==> message.ReadStreamEventsForwardCompleted? && message.streamResult.Unknown?
  {
    match message
    case ReadStreamEventsForwardCompleted(result, _) =>
      StreamSwitch(result, Rendered(Encoded(args.codec, StreamEventForwardFeed(message, args.userHostName, embed))))
    case _ => Empty
  }

  /** The switch of both all-log formatters, given the Success body. */
  function AllSwitch(result: ReadAllResult, success: Outcome): (o: Outcome)
    ensures result.Success? ==> o == success
    ensures AllReadFailed(result) ==> o == Empty
    ensures result.Unknown? ==> o == Throws
  {
    var sections := AllResultSections(success);
    assert AllReadFailed(result) ==> FirstMatch(sections, 1, result);
    Switch(sections, result, Throws)
  }

  /**
    Renders a backward read of the whole log. A guard turns every result other
    than Success into an empty body before the switch is reached, so this
    formatter never throws, and the switch's failure and default arms are dead.
   */
  function ReadAllEventsBackwardCompleted(args: FormatterArgs, message: Message, embed: EmbedLevel): (o: Outcome)
    ensures !o.Throws?
    ensures o.Rendered? <==> message.ReadAllEventsBackwardCompleted? && message.allResult.Success?
    ensures o.Rendered? ==> o == Rendered(Encoded(args.codec, AllEventsBackwardFeed(message, args.userHostName, embed)))
  {
    match message
    case ReadAllEventsBackwardCompleted(result, _) =>
      if result != ReadAllResult.Success then Empty
      else AllSwitch(result, Rendered(Encoded(args.codec, AllEventsBackwardFeed(message, args.userHostName, embed))))
    case _ => Empty
  }

  /** Renders a forward read of the whole log. */
  function ReadAllEventsForwardCompleted(args: FormatterArgs, message: Message, embed: EmbedLevel): (o: Outcome)
    ensures !message.ReadAllEventsForwardCompleted? ==> o == Empty
    ensures message.ReadAllEventsForwardCompleted? && message.allResult.Success?
      ==> o == Rendered(Encoded(args.codec, AllEventsForwardFeed(message, args.userHostName, embed)))
    ensures message.ReadAllEventsForwardCompleted? && AllReadFailed(message.allResult) ==> o == Empty
    ensures o.Throws? <==> message.ReadAllEventsForwardCompleted? && message.allResult.Unknown?
  {
    match message
    case ReadAllEventsForwardCompleted(result, _) =>
      AllSwitch(result, Rendered(Encoded(args.codec, AllEventsForwardFeed(message, args.userHostName, embed))))
    case _ => Empty
  }

  /** A stream deletion is acknowledged with an empty body, whatever the message. */
  function DeleteStreamCompleted(args: FormatterArgs, message: Message): Outcome {
    Empty
  }

  /** A text message is serialized as it is; any other message gives an empty body. */
  function TextMessage(args: FormatterArgs, message: Message): (o: Outcome)
    ensures o.Rendered? <==> message.TextMessage?
    ensures o.Rendered? ==> o.doc == Encoded(args.codec, TextBody(message))
    ensures !o.Throws?
  {
    if message.TextMessage? then Rendered(Encoded(args.codec, TextBody(message))) else Empty
  }

  /** A write is acknowledged with an empty body, whatever the message. */
  function WriteEventsCompleted(args: FormatterArgs, message: Message): Outcome {
    Empty
  }

  /** Serializes the statistics of a successful stats request. */
  function GetFreshStatsCompleted(args: FormatterArgs, message: Message): (o: Outcome)
    ensures o.Rendered? <==> message.GetFreshStatsCompleted? && message.success
    ensures o.Rendered? ==> o.doc == Encoded(args.codec, StatsBody(message.stats))
    ensures !o.Throws?
  {
    if !message.GetFreshStatsCompleted? || !message.success then Empty
    else Rendered(Encoded(args.codec, StatsBody(message.stats)))
  }
}
