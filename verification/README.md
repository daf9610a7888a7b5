# EventStore HTTP response formatters, in Dafny

This project models the response formatters of the EventStore HTTP layer
(`Format.Atom.EventEntry`, `GetStreamEventsBackward`, `GetStreamEventsForward`,
`ReadAllEventsBackwardCompleted`, `ReadAllEventsForwardCompleted`,
`DeleteStreamCompleted`, and `Format.TextMessage`, `WriteEventsCompleted`,
`GetFreshStatsCompleted`). Each formatter looks at a completed message, at its
result code and, for single-event reads, at the content type of the response
codec, and ends in one of three ways: an empty body, a body rendered by the
converters and the codec, or an `ArgumentOutOfRangeException`. The model is
the total function `Outcome = Empty | Rendered(doc) | Throws`.

Files and modules:

- `switch.dfy` (`CaseSwitch`): the C# `switch` statement as the formatters use
  it. Sections of case labels share a body, the first section whose labels
  contain the value is taken, and `default` is taken otherwise. The formatters
  are written with it, so their structure follows the source's switches. Their
  contracts then state the decision table in terms of result codes. Proving
  those contracts needs the recursive `Switch` contract.
- `messages.dfy` (`Messages`): message classes as constructors of one
  datatype. A `message as X` cast becomes a constructor test. The result enums
  have an extra `Unknown(code)` constructor, because a C# enum variable can
  hold a value outside its declared members. Record, slice, stats, text,
  encoder and embed level are opaque types, since the formatters only pass
  them on.
- `format.dfy` (`Format`): the nine formatters. Converter and codec calls are
  kept as terms. `Encoded(codec, p)` is `codec.To(p)`. `Entry(...)` and the
  `...Feed(...)` payloads are the `Convert.To...` calls with exactly the
  arguments passed. `SmartFormatted` is the automatic event converter.
- `formatters.dfy` (`Formatters`): the formatters seen together through one
  `Apply`. Holds the cross-cutting properties: only success renders,
  out-of-range results throw, unexpected messages are empty, and extra
  arguments are ignored unless a body is rendered or passed through unchanged
  when one is.
- `projection_state.dfy` (`ProjectionState`): the `ManagedProjectionState`
  enumeration as a plain datatype, with no transitions.

Facts about the code that the model keeps:

- A `NotModified` result gets the same empty body as every other failure
  result.
- `EventEntry`, both stream formatters and the forward all-log formatter throw
  `ArgumentOutOfRangeException` on a result that no case label names.
- The backward all-log formatter guards on `Result != Success` before its
  switch. So it returns an empty body for every non-success value, including
  unlabelled ones, and the failure and default arms of its switch are dead.
- The all-log switches label only Success, NotModified, Error and
  AccessDenied. There is no NoStream or StreamDeleted label.
- The single-event switch labels only Success, NotFound, NoStream,
  StreamDeleted, Error and AccessDenied. There is no NotModified label.

## Model

| member | source | states |
|---|---|---|
| CaseSwitch.Switch | src/EventStore/EventStore.Core/Services/Transport/Http/Format.cs:47-151 | a value that is no section's label gives the default body; otherwise the body of the first section labelling it |
| CaseSwitch.SwitchTotal | src/EventStore/EventStore.Core/Services/Transport/Http/Format.cs:47-151 | every value either falls to the default or has exactly one first labelling section, never both |
| CaseSwitch.SwitchDistinctSelects | src/EventStore/EventStore.Core/Services/Transport/Http/Format.cs:47-151 | when labels are distinct, as the compiler enforces, a labelled value selects its own section whatever the section order |
| Format.SwitchLabelsDistinct | src/EventStore/EventStore.Core/Services/Transport/Http/Format.cs:47-151 | no case label appears twice in the content-type switch, the single-event result switch, the stream result switch or the all-log result switch, so with the lemma above each labelled value selects its own section |
| Format.EventEntry | src/EventStore/EventStore.Core/Services/Transport/Http/Format.cs:42-72 | not a ReadEventCompleted: empty; Success with Atom, AtomJson or Html: the codec-encoded entry of the record, host and embed level; Success with any other content type: the smart-formatted message; NotFound, NoStream, StreamDeleted, Error, AccessDenied: empty; throws exactly on an out-of-range result |
| Format.StreamSwitch | src/EventStore/EventStore.Core/Services/Transport/Http/Format.cs:80-92 | stream read switch: Success gives the success body, NoStream, StreamDeleted, NotModified, Error, AccessDenied give empty, an out-of-range result throws |
| Format.GetStreamEventsBackward | src/EventStore/EventStore.Core/Services/Transport/Http/Format.cs:74-93 | not a backward stream read: empty; Success: the encoded backward feed of the message, host, embed level and head-of-stream flag; the five failure results: empty; throws exactly on an out-of-range result |
| Format.GetStreamEventsForward | src/EventStore/EventStore.Core/Services/Transport/Http/Format.cs:95-114 | not a forward stream read: empty; Success: the encoded forward feed of the message, host and embed level; the five failure results: empty; throws exactly on an out-of-range result |
| Format.AllSwitch | src/EventStore/EventStore.Core/Services/Transport/Http/Format.cs:141-151 | all-log switch: Success gives the success body, NotModified, Error, AccessDenied give empty, an out-of-range result throws |
| Format.ReadAllEventsBackwardCompleted | src/EventStore/EventStore.Core/Services/Transport/Http/Format.cs:116-133 | never throws; renders exactly for a backward all-log read with result Success (assuming the converter and codec return), and then the encoded backward all-events feed of the message, host and embed level |
| Format.ReadAllEventsForwardCompleted | src/EventStore/EventStore.Core/Services/Transport/Http/Format.cs:135-152 | not a forward all-log read: empty; Success: the encoded forward all-events feed; NotModified, Error, AccessDenied: empty; throws exactly on an out-of-range result |
| Format.TextMessage | src/EventStore/EventStore.Core/Services/Transport/Http/Format.cs:160-164 | renders exactly for a text message, encoding the message itself; empty otherwise; never throws (assuming the codec returns) |
| Format.GetFreshStatsCompleted | src/EventStore/EventStore.Core/Services/Transport/Http/Format.cs:171-178 | renders exactly for a stats message whose Success flag is set, encoding its stats; empty otherwise; never throws (assuming the codec returns) |
| Formatters.Apply | src/EventStore/EventStore.Core/Services/Transport/Http/Format.cs:42-178 | over all nine formatters: a message of a class the formatter does not cast to gives an empty body; a body is rendered if and only if the expected message reports success (result Success, stats flag set, or any text message); a formatter raises its own ArgumentOutOfRangeException if and only if it is one of the four range-checked read formatters, gets its message class, and the result code is out of range; a rendered body uses the caller's codec, and an entry or feed carries the caller's embed level, host name and head-of-stream flag unchanged |
| Formatters.DeleteStreamIsEmpty | src/EventStore/EventStore.Core/Services/Transport/Http/Format.cs:154-157 | a stream deletion is answered with an empty body for every input |
| Formatters.WriteEventsIsEmpty | src/EventStore/EventStore.Core/Services/Transport/Http/Format.cs:166-169 | a write is answered with an empty body for every input |
| Formatters.ExtraArgumentsIgnoredUnlessRendered | src/EventStore/EventStore.Core/Services/Transport/Http/Format.cs:74-152 | when no body is rendered, changing the embed level, or the head-of-stream flag of the backward stream formatter, does not change the outcome |
| Formatters.StreamDirectionsAgree | src/EventStore/EventStore.Core/Services/Transport/Http/Format.cs:74-114 | for the same result code, forward and backward stream reads end the same way (empty, rendered or thrown) |
| Formatters.AllDirectionsDifferOnlyOutOfRange | src/EventStore/EventStore.Core/Services/Transport/Http/Format.cs:116-152 | forward and backward all-log reads end the same way if and only if the result is a declared member; on an out-of-range result forward throws and backward is empty |

## Left out

- Serialization internals (`ResponseCodec.To`, `Convert.ToEntry`, the `To...Feed` converters, `AutoEventConverter.SmartFormat`) are foreign calls whose code is not part of this model. They are uninterpreted terms, so nothing is said about feed contents, entry order or which fields an embed level includes.
- The string a rendered body becomes is not modelled. An empty body is the `Empty` outcome, never a rendered document that happens to serialize to an empty string.
- The converters and the codec are assumed to return: a failure inside `ResponseCodec.To`, `Convert.To...` or `AutoEventConverter.SmartFormat`, or a null argument object, is not modelled. `Throws` stands only for the formatter's own `ArgumentOutOfRangeException`, so "never throws" and "throws if and only if" in the table are about that exception alone.
- The exception is a bare `Throws` outcome. Its message and stack are not modelled.
- `HttpResponseFormatterArgs` is reduced to the response codec and the user host name. The HTTP request, response and transport are not part of this model.
- The declarations of `ReadEventResult`, `ReadStreamResult`, `ReadAllResult`, `ContentType` and `EmbedLevel` are not part of this model. The result members are the case labels the switches use. `EmbedLevel` is opaque because it is only passed through. `ContentType` names the three labels of the single-event switch, and `Other` stands for any media type string equal to none of those three label values. The string values themselves are not modelled.
- Message classes are not fully modelled: each message keeps only the fields a formatter reads or passes on. Runtime casting is a constructor test.
- Only the `ManagedProjectionState` enumeration is modelled, as a plain datatype; it has no transitions. Its declaration order is not a transition order.
- Cache validity (`NotModified` decisions) is not modelled: the formatters only map a `NotModified` result to an empty body, and no validator comparison is part of this model.
- Concurrency is left out: the formatters are static, stateless functions.
