/**
  The completed messages the HTTP formatters receive, and the formatter
  arguments. Only what the formatters inspect is modelled: which kind of
  message arrived, its result code, and (for single-event reads) the content
  type of the response codec. Everything else a message carries is an opaque
  value that the formatters hand on unchanged to the converters.
 */
module Messages {

  /** The event record of a single-event read (EventStore.Core.Data, not part of this model). */
  type EventRecord(==)

  /** The statistics snapshot of a GetFreshStatsCompleted message. */
  type Stats(==)

  /** The payload of a text message. */
  type Text(==)

  /** What a completed stream or all-log read carries besides its result code. */
  type Slice(==)

  /** The rest of a response codec besides its content type (its serializer). */
  type Encoder(==)

  /** How much of each event a feed embeds; the formatters never inspect it. */
  type EmbedLevel(==)

  /**
    Result of a single-event read. C# enum variables may hold values outside
    the declared members; `Unknown` stands for such a value. There is no
    NotModified member: single-event reads are never answered "not modified".
   */
  datatype ReadEventResult =
    | Success
    | NotFound
    | NoStream
    | StreamDeleted
    | Error
    | AccessDenied
    | Unknown(code: int)

  /** Result of a forward or backward read of one stream. */
  datatype ReadStreamResult =
    | Success
    | NoStream
    | StreamDeleted
    | NotModified
    | Error
    | AccessDenied
    | Unknown(code: int)

  /** Result of a forward or backward read of the whole log. */
  datatype ReadAllResult =
    | Success
    | NotModified
    | Error
    | AccessDenied
    | Unknown(code: int)

  /**
    The media type a response codec writes. The three named ones are the
    labels the single-event formatter switches on; `Other` is any media type
    that equals none of those three labels.
   */
  datatype ContentType =
    | Atom
    | AtomJson
    | Html
    | Other

  /** A response codec: the content type it produces and how it serializes. */
  datatype ResponseCodec = ResponseCodec(contentType: ContentType, encoder: Encoder)

  /** What the HTTP layer passes to every formatter. */
  datatype FormatterArgs = FormatterArgs(codec: ResponseCodec, userHostName: string)

  /**
    A message reaching a formatter. Each constructor is one message class; a
    formatter's `message as X` test becomes a test of the constructor.
    `OtherMessage` is any message class no formatter looks for.
   */
  datatype Message =
    | ReadEventCompleted(eventResult: ReadEventResult, record: EventRecord)
    | ReadStreamEventsBackwardCompleted(streamResult: ReadStreamResult, streamSlice: Slice)
    | ReadStreamEventsForwardCompleted(streamResult: ReadStreamResult, streamSlice: Slice)
    | ReadAllEventsBackwardCompleted(allResult: ReadAllResult, allSlice: Slice)
    | ReadAllEventsForwardCompleted(allResult: ReadAllResult, allSlice: Slice)
    | WriteEventsCompleted
    | DeleteStreamCompleted
    | TextMessage(text: Text)
    | GetFreshStatsCompleted(success: bool, stats: Stats)
    | OtherMessage(className: string)
}
