# hop, modelled in Dafny

hop is an in-memory key-value store. Keys are byte strings. Each key holds a
typed value: a boolean, bytes, a float, an integer, a list, a map, a set or a
string. Clients send binary requests. A request is a command id, an optional
key type and up to 255 length-prefixed arguments. The engine parses the request,
dispatches it to the command's handler, counts the outcome in its metrics and
writes back a typed response. The response is a type tag followed by a
big-endian payload. The client decodes it incrementally as bytes arrive.

This project models that core as immutable datatypes and pure functions:

- **Wire codecs.**
  - The code tables for command ids, key types, response types and error codes.
  - The typed response writers, the current ones (`Responses`) and the older twin (`ResponsesOld`).
  - The incremental response decoder (`ResponseDecoder`) and its round-trip laws (`ResponseDecoding`, `ResponseRoundTrip`).
  - The request framing parser (`RequestParser`, `RequestParsing`, `RequestStreaming`).
  - The argument accessors and converters (`Requests`) and the request builder (`RequestBuilders`).
  - UTF-8 validity as RFC 3629 defines it (`Utf8`).
- **Keyspace and values.** The keyspace is a map from keys to `Value`s (`Keyspace`, `Values`). It supports insert, remove, lookup, insert-if-absent and typed access. Lookups panic on a key with the reserved `__hop__:` prefix; insert, remove and contains do not.
- **Command handlers** (`Handlers`, `HandlerLaws`). Each handler is a function from a keyspace and a request to a new keyspace and either a response or an error, or to a panic when a client's key with the reserved prefix reaches a lookup. The laws relate the handlers to one another and to the source's unit tests.
- **Engine** (`Engine`). Covers the configuration builder, dispatch routing, the success and error counters, and the panic that unwinds out of dispatch.
- **Small state machines.**
  - The timer and `parse_timespec` (`Timer`).
  - The metrics registry with its weak handles (`Metrics`, `MetricNames`).
  - The session-id allocator (`Sessions`).
  - The pubsub subscription registry (`PubSub`).
- **Front ends.**
  - The command-line parser (`Cli`).
  - The client's checks before it sends a request, and its statistics reader (`Client`).
- **The earlier `lib` crate.**
  - Its command tables (`LegacyCommandIds`, `LegacyKinds`).
  - Its two request parsers (`LegacyRequestParsing`, `LegacyProtocolParsing`, over `LegacyRequests` and `LegacyProtocol`).
  - Its newline-terminated responses (`LegacyResponses`) and its handlers' view of a request (`LegacyCommandRequest`).
  - Its keyspace of objects (`LegacyState`).
  - Its buffer pool (`Pools`).

Several modelling choices apply throughout:

- Bytes are `seq<uint8>`, where `uint8` is a subset of `int`.
- Fixed-width integers are subset types. Each cast and wrap-around the source performs is written out (`Bytes.AsU8`, `Bytes.AsI64`, `Bytes.WrapI64`).
- The model follows a release build: integer overflow wraps and `debug_assert!` is not checked. "## Left out" names each place where a debug build would panic instead.
- A `DashMap` or `DashSet` is a Dafny `map` or `set`.
  - Where the source iterates one, the model takes the order as a parameter, an `order` sequence that enumerates the keys.
  - Properties are then stated for every such order.
- A panic is handled in one of two ways:
  - A panic that input from the wire or a long-running server can reach is an explicit outcome (`Panicked`, `Panic`, `Engine.Unwound`, `Sessions.Panicked`). A client's key with the reserved prefix is such input.
  - The function that panics states the panic's condition as a precondition (for example `Keyspace.KeyRef` on a reserved key). Every modelled caller of such a function checks that condition first and comes to the panic outcome itself.

Where the source as written disagrees with what its authors evidently meant, both versions are modelled. The as-written version is suffixed `AsWritten`. The intended version is the one the rest of the model uses. See "## Findings".

Source cells cite paths in the hop repository.

## Model

| member | source | states |
|---|---|---|
| CommandIds.Code | engine/src/command/command_id.rs:25-42 | every command's discriminant has its top bit clear |
| CommandIds.TryFromU8 | engine/src/command/command_id.rs:146-168 | a byte names a command exactly when it is one of 0, 1, 2, 3, 10, 12, 13, 14, 15, 20, 21, 22, 100, 101, and then the command's discriminant is that byte |
| CommandIds.TryFromCode | engine/src/command/command_id.rs:146-252 | decoding a command's discriminant gives the command back |
| CommandIds.ArgumentNotationOf | engine/src/command/command_id.rs:45-65 | only echo takes multiple arguments; append, delete, decrement:by, increment:by, length and set take one; the other seven none |
| CommandIds.KeyNotationOf | engine/src/command/command_id.rs:67-87 | the key notation is None exactly for echo and stats, Multiple exactly for exists and is, Two exactly for rename |
| CommandIds.IsSimple | engine/src/command/command_id.rs:45-94 | a command is simple exactly when it is stats |
| CommandIds.Name | engine/src/command/command_id.rs:96-113 | every command has a non-empty name |
| CommandIds.Display | engine/src/command/command_id.rs:116-120 | `Display` writes a text that parses back to the command |
| CommandIds.FromStr | engine/src/command/command_id.rs:122-144 | a successful parse gives the command whose name is the text |
| CommandIds.FromStrName | engine/src/command/command_id.rs:96-235 | parsing a command's name gives the command back |
| CommandIds.FromStrExact | engine/src/command/command_id.rs:122-144 | parsing succeeds exactly on the fourteen names |
| CommandIds.NameInjective | engine/src/command/command_id.rs:96-113 | distinct commands have distinct names |
| CommandIds.FromStrRejects | engine/src/command/command_id.rs:125-142 | matching is exact and case-sensitive: "Stats", "" and "increment:int" are refused |
| Errors.Code | engine/src/command/error.rs:11-17 | the five variants of the enumeration, and only they, have a code below 5 |
| Errors.TryFromU8 | engine/src/command/error.rs:31-44 | a byte decodes exactly when it is below 5, to the variant with that discriminant |
| Errors.TryFromCode | engine/src/command/error.rs:31-80 | decoding a variant's discriminant gives the variant back |
| Errors.CodeInjective | engine/src/command/error.rs:11-17 | distinct errors have distinct codes |
| Errors.Message | engine/src/command/error.rs:19-29 | every variant of the enumeration has a non-empty message |
| Errors.MessagesDistinct | engine/src/command/error.rs:19-29 | distinct variants have distinct messages |
| ParseErrors.TryFromU8 | engine/src/command/request/context.rs:16-26 | a byte decodes exactly when it is 0 or 1, to the error with that discriminant |
| ParseErrors.TryFromCode | engine/src/command/request/context.rs:16-271 | decoding an error's discriminant gives the error back |
| Values.KeyTypeTryFromU8 | engine/src/state/mod.rs:16-47 | a byte names a key type exactly when it is below 8, and then the key type's discriminant is that byte |
| Values.KeyTypeRoundTrip | engine/src/state/mod.rs:16-47 | reading back a key type's discriminant gives the key type |
| Values.Default | engine/src/state/value.rs:31-187 | each default constructor gives a value of its own kind holding false, zero or an empty payload |
| Values.AsBoolean | engine/src/state/value.rs:35-47 | Some exactly for a Boolean value, with its payload |
| Values.AsBytes | engine/src/state/value.rs:57-69 | Some exactly for a Bytes value, with its payload |
| Values.AsFloat | engine/src/state/value.rs:79-91 | Some exactly for a Float value, with its payload |
| Values.AsInteger | engine/src/state/value.rs:101-113 | Some exactly for an Integer value, with its payload |
| Values.AsList | engine/src/state/value.rs:123-135 | Some exactly for a List value, with its payload |
| Values.AsMap | engine/src/state/value.rs:145-157 | Some exactly for a Map value, with its payload |
| Values.AsSet | engine/src/state/value.rs:167-179 | Some exactly for a Set value, with its payload |
| Values.AsString | engine/src/state/value.rs:189-201 | Some exactly for a String value, with its payload |
| Values.IsBoolean | engine/src/state/value.rs:49-51 | `is_boolean` holds exactly for values of the Boolean kind |
| Values.IsBytes | engine/src/state/value.rs:71-73 | `is_bytes` holds exactly for values of the Bytes kind |
| Values.IsFloat | engine/src/state/value.rs:93-95 | `is_float` holds exactly for values of the Float kind |
| Values.IsInteger | engine/src/state/value.rs:115-117 | `is_integer` holds exactly for values of the Integer kind |
| Values.IsList | engine/src/state/value.rs:137-139 | `is_list` holds exactly for values of the List kind |
| Values.IsMap | engine/src/state/value.rs:159-161 | `is_map` holds exactly for values of the Map kind |
| Values.IsSet | engine/src/state/value.rs:181-183 | `is_set` holds exactly for values of the Set kind |
| Values.IsString | engine/src/state/value.rs:203-205 | `is_string` as its name and its siblings intend holds exactly for values of the String kind |
| Values.IsStringAsWritten | engine/src/state/value.rs:203-205 | `is_string` as written holds exactly for values of the Boolean kind |
| Values.IsStringAsWrittenMisreports | engine/src/state/value.rs:203-205 | as written, `is_string` is false for an empty string and true for `false` |
| Values.IsStringAsWrittenIsBoolean | engine/src/state/value.rs:203-205 | as written, `is_string` never holds of a string, and it disagrees with the intended test on exactly the strings and the Booleans |
| Values.KindSeparates | engine/src/state/value.rs:18-29 | values of different kinds are never equal |
| Keyspace.Insert | engine/src/state/mod.rs:88-90 | `insert` returns the previous value (None when absent), and afterwards the key maps to the new value; other keys are unchanged |
| Keyspace.Remove | engine/src/state/mod.rs:108-110 | `remove` returns the pair exactly when the key was present; afterwards it is absent and other keys are unchanged |
| Keyspace.KeyRef | engine/src/state/mod.rs:130-138 | `key_ref` never inserts and is None exactly when the key is absent |
| Keyspace.KeyOrInsertWith | engine/src/state/mod.rs:157-180 | an existing value is returned untouched; otherwise the initial value is inserted and returned |
| Keyspace.TypedKey | engine/src/state/mod.rs:203-211 | the key exists afterwards (holding the kind's default if it was absent), a value of another kind is never overwritten, and the result is Some exactly when the stored kind is the one asked for |
| Keyspace.InsertRemove | engine/src/state/mod.rs:88-110 | inserting a fresh key and removing it restores the state |
| Keyspace.TypedKeyFresh | engine/src/state/mod.rs:203-211 | on a fresh key typed access succeeds with the kind's default |
| Keyspace.InternalExample | engine/src/state/mod.rs:131-162 | a key starting with `__hop__:` is internal, and a shorter look-alike is not |
| Requests.Arg | engine/src/command/request/mod.rs:165-177 | `arg` has something only for an index below the number of recorded positions |
| Requests.Key | engine/src/command/request/mod.rs:189-195 | `key` is nothing for `echo` and `stats`, whose key notation is None, and argument 0 for every other command |
| Requests.Collect | engine/src/command/request/mod.rs:108-121 | the iterator yields, in order, what `arg` gives at each index from its start, and ends at its end or at the first index `arg` has nothing for |
| Requests.Args | engine/src/command/request/mod.rs:136-157 | `args` is nothing exactly when the request has no arguments |
| Requests.ToBool | engine/src/command/request/mod.rs:41-47 | the boolean conversion has a value exactly when the argument is not empty |
| Requests.ToInteger | engine/src/command/request/mod.rs:57-63 | the integer conversion has a value exactly when the argument has at least eight bytes |
| Requests.ToFloatBits | engine/src/command/request/mod.rs:49-55 | the float conversion has a value exactly when the argument has at least eight bytes |
| Requests.ToStr | engine/src/command/request/mod.rs:89-93 | the string conversion succeeds exactly when the bytes are valid UTF-8, and then gives them unchanged |
| Requests.ToBoolOfByte | engine/src/command/request/mod.rs:41-47 | a boolean written as the byte 1 or 0 reads back as itself, whatever follows |
| Requests.ToIntegerRoundTrip | engine/src/command/request/mod.rs:57-63 | an integer's eight big-endian bytes read back as the integer, whatever follows |
| Requests.ToFloatBitsRoundTrip | engine/src/command/request/mod.rs:49-55 | a float's eight big-endian bytes read back as its bit pattern, whatever follows |
| Requests.ToIntegerShort | engine/src/command/request/mod.rs:51-59 | an argument shorter than eight bytes converts to no integer and no float |
| Requests.Pairs | engine/src/command/request/mod.rs:69-71 | the map loop takes consecutive arguments two at a time, dropping a trailing odd one |
| Requests.MapOfPairsContents | engine/src/command/request/mod.rs:65-75 | the map holds exactly the keys of the pairs, each with the value of the last pair with that key |
| Requests.ToMapAppendPair | engine/src/command/request/mod.rs:69-71 | one more pair of arguments sets its key to its value, whatever the key held |
| Requests.ToMapDropsOdd | engine/src/command/request/mod.rs:69 | a trailing odd argument leaves the map as it was |
| Requests.ToSet | engine/src/command/request/mod.rs:77-87 | the set holds exactly the arguments |
| Requests.ToSetSize | engine/src/command/request/mod.rs:77-87 | the set has at most as many elements as there are arguments, and exactly as many when they are distinct |
| Requests.TypedArgsMap | engine/src/command/request/mod.rs:159-163 | `typed_args` for a map is nothing exactly when the request has no arguments |
| Requests.TypedArgsSet | engine/src/command/request/mod.rs:159-163 | `typed_args` for a set is nothing exactly when the request has no arguments |
| Requests.Header | engine/src/command/request/mod.rs:237-348 | a header is two bytes, or three with a key type, ends with the count, and starts with the command byte, its top bit set when a key type follows |
| Requests.PositionsFrom | engine/src/command/request/mod.rs:128 | one position is recorded per argument |
| Requests.PositionAt | engine/src/command/request/mod.rs:165-321 | the position of argument `i` is the last byte of its frame: after the frames before it, four length bytes and the argument |
| Requests.ArgStartParsed | engine/src/command/request/mod.rs:168-176 | argument `i` of an encoded request is read from just after its own length prefix |
| Requests.EncodedHolds | engine/src/command/request/mod.rs:287-348 | a request's framed arguments lie right after its header |
| Requests.ArgHeld | engine/src/command/request/mod.rs:165-177 | an argument whose recorded bounds enclose bytes held in the buffer reads back as those bytes |
| Requests.ArgOfFramed | engine/src/command/request/mod.rs:165-177 | every argument of a buffer that holds framed arguments after a header reads back unchanged |
| Requests.ArgOfEncoded | engine/src/command/request/mod.rs:165-321 | every argument of an encoded request reads back unchanged, whatever follows the request |
| Requests.KeyOfEncoded | engine/src/command/request/mod.rs:189-195 | an encoded request of a command with a key has its first argument as key |
| Requests.CollectAll | engine/src/command/request/mod.rs:108-121 | when every argument reads back, the iterator from any index yields the rest of them in order |
| Requests.ArgsOfEncoded | engine/src/command/request/mod.rs:136-285 | `args(..)` of an encoded request gives every argument, and `args(1..)` every one after the first |
| Requests.EncodeExamples | engine/src/command/request/mod.rs:237-260 | `stats` encodes as the one byte 0x65, and `increment` with the float key type as 0x80, 2, 0 |
| RequestBuilders.NewBuilder | engine/src/command/request/builder.rs:41-47 | a new builder has the command, no arguments and no key type |
| RequestBuilders.WithKeyType | engine/src/command/request/builder.rs:69-73 | `key_type` sets the key type and keeps the rest |
| RequestBuilders.ArgumentRef | engine/src/command/request/builder.rs:196-200 | `argument_ref` has something exactly for an index below the number of arguments, and then that argument |
| RequestBuilders.WouldOverfill | engine/src/command/request/builder.rs:202-207 | more arguments overfill exactly when they would take the count past 255 |
| RequestBuilders.PushArgument | engine/src/command/request/builder.rs:217-232 | with 255 arguments held the push is refused as TooManyArguments and nothing changes; otherwise the argument goes last |
| RequestBuilders.AddBytes | engine/src/command/request/builder.rs:92-104 | empty bytes are refused as ArgumentEmpty; otherwise the bytes are pushed as one argument, or refused when 255 are held, with nothing changed |
| RequestBuilders.PushArguments | engine/src/command/request/builder.rs:165-181 | pushing in turn succeeds exactly when everything fits; within the limit every argument is added in order, and past it the builder ends full with those that fitted |
| RequestBuilders.FirstEmpty | engine/src/command/request/builder.rs:148-151 | the list loop stops at the first empty item, and every item before it is not empty |
| RequestBuilders.PushListItems | engine/src/command/request/builder.rs:148-154 | within the limit the list loop pushes the items before the first empty one, and fails with ValueEmpty exactly when there is an empty one |
| RequestBuilders.EntryArgs | engine/src/command/request/builder.rs:165-168 | a map's entries push each key followed by its value, in the visiting order |
| RequestBuilders.AddMapAsWritten | engine/src/command/request/builder.rs:156-169 | the map arm refuses, unchanged, a map whose entry count would overfill the arguments |
| RequestBuilders.AddMap | engine/src/command/request/builder.rs:156-169 | the map arm counting two arguments per entry: refused unchanged when they would not fit, ValueEmpty for an empty map, otherwise every key and value appended in order |
| RequestBuilders.AddValue | engine/src/command/request/builder.rs:122-193 | `value` never changes the command, key type or the arguments already held, and never takes the builder past 255 arguments |
| RequestBuilders.IntoRequest | engine/src/command/request/builder.rs:55-61 | `into_request` carries the arguments, key type and command unchanged |
| RequestBuilders.FromRequest | engine/src/command/request/builder.rs:235-249 | the builder made from a request carries its arguments, key type and command |
| RequestBuilders.RequestRoundTrip | engine/src/command/request/builder.rs:55-249 | a builder turned into a request and back is the same builder, and a request turned into a builder and back is the same request |
| RequestBuilders.PushArgumentFits | engine/src/command/request/builder.rs:92-232 | pushing never takes a builder past 255 arguments |
| RequestBuilders.RefusedUnchanged | engine/src/command/request/builder.rs:134-186 | empty bytes or an empty string are refused before anything is pushed |
| RequestBuilders.EmptyListAccepted | engine/src/command/request/builder.rs:143-155 | an empty list is accepted and pushes nothing |
| RequestBuilders.ListArm | engine/src/command/request/builder.rs:143-155 | a list that passes the limit check is the list loop |
| RequestBuilders.ListStopsAtEmpty | engine/src/command/request/builder.rs:148-151 | a list with an empty item pushes the items before it and is then refused as ValueEmpty |
| RequestBuilders.ScalarReadsBack | engine/src/command/request/builder.rs:128-188 | a boolean, integer, bytes or string value is pushed as one argument that the argument conversions read back as the value |
| RequestBuilders.EntriesPairBack | engine/src/command/request/builder.rs:165-168 | a map's entries pushed in any visiting order are paired back into the entries visited |
| RequestBuilders.MapReadsBack | engine/src/command/request/builder.rs:156-169 | the arguments pushed for a map pair back into that map |
| RequestBuilders.SetReadsBack | engine/src/command/request/builder.rs:170-182 | the arguments pushed for a set collect back into that set |
| RequestBuilders.BytesParseBack | engine/src/command/request/builder.rs:50-52 | the bytes of a builder with arguments are parsed back to a request with its command, key type and every argument in order |
| RequestBuilders.MapOverfillsAsWritten | engine/src/command/request/builder.rs:157-168 | a map that passes the entry-count check but needs more than 255 arguments is refused after filling the builder to 255 with part of the map |
| RequestBuilders.MapAllOrNothing | engine/src/command/request/builder.rs:156-169 | counting two per entry, a map is pushed whole or refused with the builder unchanged |
| RequestBuilders.BuilderExamples | engine/src/command/request/builder.rs:273-326 | the builder tests: `decrement` with a key type alone, and `set` with "foo" and the integer 123 |
| RequestParser.InitAsWritten | engine/src/command/request/context.rs:105-139 | as written: an empty buffer waits; a first byte with its top bit set is refused as a key type; another byte is refused as a command id exactly when it is none; `stats` finishes with no key type; any other command moves to the count one byte on |
| RequestParser.KindStep | engine/src/command/request/context.rs:141-160 | the count stage waits exactly when the index is past the buffer, and otherwise takes the byte there as the count and moves one on |
| RequestParser.ArgumentAsWritten | engine/src/command/request/context.rs:162-189 | as written: a length prefix past the buffer waits; the argument check counts from the prefix; a request finishes when the positions reach the count; a push onto 256 positions panics, exactly when the check passed; it never fails |
| RequestParser.StepAsWritten | engine/src/command/request/context.rs:74-85 | as written, a step that moves on reads further or leaves a header stage, and never drops a position |
| RequestParser.FeedAsWritten | engine/src/command/request/context.rs:62-195 | as written, a finished request is handed out over the buffer fed, with the context reset |
| RequestParser.InitStep | engine/src/command/request/context.rs:105-139 | intended: the first byte is refused as a command id exactly when its low seven bits name none; a top bit with a second byte that is no key type code is refused as a key type; `stats` finishes on its byte; another command moves on to the count with the key type exactly when the top bit is set |
| RequestParser.CountStep | engine/src/command/request/context.rs:141-160 | intended: a count of zero finishes the request, another count starts the arguments, and the stage waits exactly when the index is past the buffer |
| RequestParser.ArgumentStep | engine/src/command/request/context.rs:162-189 | intended: an argument is read exactly when its prefix and all its bytes have arrived; the position recorded is its last byte; the request finishes exactly when the count is reached; it never fails |
| RequestParser.Step | engine/src/command/request/context.rs:74-85 | intended, a step that moves on reads further or leaves a header stage |
| RequestParser.Feed | engine/src/command/request/context.rs:62-103 | intended, a finished request is handed out over the buffer fed, with the context reset |
| RequestParsing.FeedNext | engine/src/command/request/context.rs:100 | a step that moves on leaves the outcome of feeding the same buffer unchanged |
| RequestParsing.FeedFinished | engine/src/command/request/context.rs:89-98 | a step that finishes a request ends the feed with it and resets the context |
| RequestParsing.FeedRun | engine/src/command/request/context.rs:62-103 | a run of steps that ends by finishing a request is what feeding the buffer does |
| RequestParsing.HeaderStep | engine/src/command/request/context.rs:105-139 | the header of a command that is not simple leads to the count byte, with its key type |
| RequestParsing.KeyedStep | engine/src/command/request/context.rs:116-136 | a first byte with its top bit set, followed by a key type code, leads to the count at index 2 with that key type |
| RequestParsing.UnkeyedStep | engine/src/command/request/context.rs:124-136 | a command byte without its top bit leads to the count at index 1 with no key type |
| RequestParsing.CountRead | engine/src/command/request/context.rs:141-160 | the count byte finishes a request without arguments and otherwise starts on the arguments |
| RequestParsing.SimpleStep | engine/src/command/request/context.rs:128-130 | a simple command is finished on its byte |
| RequestParsing.ArgumentRead | engine/src/command/request/context.rs:162-189 | one argument that has arrived is read off, recording its last byte and moving past it |
| RequestParsing.Offsets | engine/src/command/request/context.rs:182 | each argument's length starts after the header and the frames before it |
| RequestParsing.ArgContexts | engine/src/command/request/context.rs:162-189 | the context before each argument is at that argument's offset with the positions of the ones before it |
| RequestParsing.ArgTurnFacts | engine/src/command/request/context.rs:162-189 | offsets and positions that agree with the buffer give the context before each argument what reading it needs |
| RequestParsing.OffsetFacts | engine/src/command/request/context.rs:169-182 | the offsets and positions computed from framed arguments agree with each other and with the buffer |
| RequestParsing.LengthHeld | engine/src/command/request/context.rs:169-176 | a framed argument's length reads back, and the argument fits the buffer |
| RequestParsing.ArgLengthHeld | engine/src/command/request/context.rs:169-176 | each framed argument's length reads back where the frames before it end |
| RequestParsing.ArgTurn | engine/src/command/request/context.rs:162-189 | reading each argument moves on to the context before the next, or finishes the request on the last |
| RequestParsing.ArgRun | engine/src/command/request/context.rs:62-189 | reading argument after argument, each where the previous one ends, finishes the request |
| RequestParsing.ArgsDecode | engine/src/command/request/context.rs:62-189 | the framed arguments after a header are read one by one into a request recording the positions `arg` reads them back from |
| RequestParsing.HeaderOfEncoded | engine/src/command/request/mod.rs:237-348 | the header of an encoded request sits at its start |
| RequestParsing.FeedEncoded | engine/src/command/request/context.rs:62-103 | feeding the encoding of a request, followed by anything, frames exactly that request: its command, its key type and its arguments' positions |
| RequestParsing.FeedEncodedArgs | engine/src/command/request/context.rs:62-103 | a request framed off its encoding hands back, through `args(..)`, exactly the arguments encoded |
| RequestStreaming.ExtendedBytes | engine/src/command/request/context.rs:62-71 | bytes received later only extend what was received before |
| RequestStreaming.StepExtends | engine/src/command/request/context.rs:105-189 | a step that moves on or finishes reads only bytes already received, so more bytes do not change it |
| RequestStreaming.FeedResumes | engine/src/command/request/context.rs:62-103 | after `feed` waits, feeding the context it kept the bytes so far and more gives what feeding the original context gives |
| RequestStreaming.FeedTwoRounds | engine/src/command/request/context.rs:62-103 | a request split anywhere and fed in two rounds is read as if fed at once |
| RequestStreaming.StepSound | engine/src/command/request/context.rs:162-189 | from a context the parser produces, a step never overfills the positions and moves on only to such a context |
| RequestStreaming.FeedSound | engine/src/command/request/context.rs:62-103 | feeding such a context never panics and leaves such a context behind |
| RequestStreaming.NeverPanics | engine/src/command/request/context.rs:62-177 | whatever bytes arrive, a new context never panics |
| RequestFindings.TruncatedAcceptedAsWritten | engine/src/command/request/context.rs:176 | as written, `increment foo` missing its last byte is handed out as complete |
| RequestFindings.TruncatedWaits | engine/src/command/request/context.rs:176 | the intended parser waits for the missing byte, at the argument's prefix |
| RequestFindings.PositionShortAsWritten | engine/src/command/request/context.rs:177 | as written, the position of `foo` is 5, from which `arg` reads an empty argument |
| RequestFindings.OneArgument | engine/src/command/request/mod.rs:287-321 | a request with one short argument, laid out byte by byte, records the argument's last byte |
| RequestFindings.OneItem | engine/src/command/request/mod.rs:301-309 | one short argument is framed as three zero bytes, its length, then the argument |
| RequestFindings.PositionOfFoo | engine/src/command/request/context.rs:229-262 | the intended parser records 8, the last `o`, for the source's test request, and `arg` reads `foo` back |
| RequestFindings.DoneWithoutPositionsAsWritten | engine/src/command/request/context.rs:89-195 | as written, every request `feed` hands out has no positions, so neither a key nor `args` |
| RequestFindings.KeyedRefusedAsWritten | engine/src/command/request/context.rs:116-122 | as written, every first byte with the top bit set is refused as a key type, whatever follows |
| RequestFindings.KeyedAccepted | engine/src/command/request/context.rs:116-122 | the intended parser reads the source's keyed `increment` request and its key |
| RequestFindings.ZeroCountNeverDoneAsWritten | engine/src/command/request/context.rs:184 | as written, argument parsing under a count of zero never finishes a request |
| RequestFindings.ZeroCountRequestAsWritten | engine/src/command/request/context.rs:141-189 | as written, a request whose count byte is zero is never handed out, whatever follows it |
| RequestFindings.ZeroCountRequest | engine/src/command/request/context.rs:141-160 | the intended parser hands out a request with no arguments on its count byte |
| RequestFindings.ZeroRun | engine/src/command/request/context.rs:176-187 | as written, after `k` empty arguments under a count of zero, `k` positions are recorded and the stage is unchanged |
| RequestFindings.ZeroRunPanics | engine/src/command/request/context.rs:176-177 | as written, empty arguments under a count of zero fill the positions until a push panics |
| RequestFindings.ZeroCountPanicsAsWritten | engine/src/command/request/context.rs:51-184 | as written, a count of zero followed by enough zero bytes panics the parser |
| Responses.TagTryFromU8 | engine/src/command/response/mod.rs:27-45 | a byte is a response type exactly when it is below 10, and then it is that type's code |
| Responses.TagRoundTrip | engine/src/command/response/mod.rs:14-45 | every response type's code reads back as that type |
| Responses.ItemBytes | engine/src/command/response/mod.rs:175-180 | a list item is written as its length cast to `u32`, big-endian, then the item |
| Responses.EntryBytes | engine/src/command/response/mod.rs:189-199 | a map entry is written as the key length cast to `u8`, the key, the value length cast to `u32`, then the value |
| Responses.ElemBytes | engine/src/command/response/mod.rs:208-213 | a set element is written as its length cast to `u16`, then the element |
| Responses.ListItemsAppend | engine/src/command/response/mod.rs:175-180 | the items of two lists one after the other are framed as the two framings one after the other |
| Responses.ListPosition | engine/src/command/response/mod.rs:175-180 | the `i`-th item is framed after the frames of the items before it |
| Responses.WriteBool | engine/src/command/response/mod.rs:135-138 | appends the boolean tag and one byte that is 1 exactly for true and otherwise 0, keeping what was there |
| Responses.WriteBytes | engine/src/command/response/mod.rs:140-146 | appends the bytes tag, the length cast to `u32` big-endian, and the bytes |
| Responses.WriteDispatchError | engine/src/command/response/mod.rs:148-151 | appends the dispatch error tag and a byte that reads back as the error for every error that has a code |
| Responses.WriteParseError | engine/src/command/response/mod.rs:153-156 | appends the parse error tag and a byte that reads back as the error |
| Responses.WriteFloat | engine/src/command/response/mod.rs:158-161 | appends the float tag and the float's bit pattern, big-endian |
| Responses.WriteInt | engine/src/command/response/mod.rs:163-166 | appends the integer tag and eight big-endian bytes that read back as the integer |
| Responses.WriteList | engine/src/command/response/mod.rs:168-181 | appends the list tag, the item count cast to `u16`, and every item framed in order |
| Responses.WriteMap | engine/src/command/response/mod.rs:183-200 | appends the map tag, the entry count cast to `u16`, and every entry framed in the map's iteration order |
| Responses.WriteSet | engine/src/command/response/mod.rs:202-214 | appends the set tag, the element count cast to `u16`, and every element framed in the set's iteration order |
| Responses.WriteStr | engine/src/command/response/mod.rs:216-223 | appends the string tag, the byte length cast to `u32`, and the string's bytes |
| Responses.WriteValue | engine/src/command/response/mod.rs:61-68 | a value is written under its own variant's tag, after what was there |
| Responses.AsBytes | engine/src/command/response/mod.rs:55-72 | a response's bytes start with the tag of its variant |
| Responses.BoolExamples | engine/src/command/response/mod.rs:231-241 | true is written as 0, 1 and false as 0, 0 |
| Responses.IntExamples | engine/src/command/response/mod.rs:296-320 | -7 and 68125 are written as the test's bytes |
| Responses.EmptyExamples | engine/src/command/response/mod.rs:263-455 | empty bytes are written as 1, 0, 0, 0, 0 and an empty map as 5, 0, 0 |
| ResponsesOld.WriteBool | engine/src/command/response.rs:94-101 | the older boolean writer builds what the newer one appends to an empty buffer |
| ResponsesOld.WriteBytes | engine/src/command/response.rs:103-113 | the older bytes writer builds what the newer one appends to an empty buffer |
| ResponsesOld.WriteDispatchError | engine/src/command/response.rs:115-122 | the older dispatch error writer builds what the newer one appends, the error's code second |
| ResponsesOld.WriteParseError | engine/src/command/response.rs:124-131 | the older parse error writer builds what the newer one appends, the error's code second |
| ResponsesOld.WriteFloat | engine/src/command/response.rs:133-140 | the older float writer builds what the newer one appends to an empty buffer |
| ResponsesOld.WriteInt | engine/src/command/response.rs:142-149 | the older integer writer builds what the newer one appends, whose last eight bytes read back as the integer |
| ResponsesOld.WriteStr | engine/src/command/response.rs:211-221 | the older string writer builds what the newer one appends to an empty buffer |
| ResponsesOld.WriteList | engine/src/command/response.rs:151-168 | the older list loop builds byte for byte what the newer list writer appends to an empty buffer |
| ResponsesOld.WriteMap | engine/src/command/response.rs:170-191 | the older map loop, in any iteration order, builds what the newer map writer appends in that order |
| ResponsesOld.WriteSet | engine/src/command/response.rs:193-209 | the older set loop, in any iteration order, builds what the newer set writer appends in that order |
| ResponsesOld.IntoBytes | engine/src/command/response.rs:30-43 | the older `into_bytes` gives exactly what the newer `as_bytes` gives |
| ResponseDecoder.RemainingBytes | engine/src/command/response/context.rs:499-504 | nothing remains exactly when the bytes wanted from `start` have all been read; otherwise what remains makes up the difference |
| ResponseDecoder.StageInit | engine/src/command/response/context.rs:125-150 | an empty buffer asks for one byte; a first byte that names no response type is `ResponseTypeInvalid`; otherwise the decoder moves one byte on, past the initial stage |
| ResponseDecoder.StageBoolean | engine/src/command/response/context.rs:152-161 | a present byte concludes a boolean that is true unless the byte is 0; a missing one asks for one byte |
| ResponseDecoder.StageBytes | engine/src/command/response/context.rs:163-178 | a payload fully read concludes those bytes, the empty payload included as in a release build; a short one asks for exactly the missing count |
| ResponseDecoder.StageDispatchError | engine/src/command/response/context.rs:180-191 | a missing byte asks for one; a byte naming no dispatch error fails the unwrap; otherwise the error it names is concluded |
| ResponseDecoder.StageFloat | engine/src/command/response/context.rs:193-204 | fewer than eight bytes ask for one more; eight conclude the float of those big-endian bits |
| ResponseDecoder.StageInteger | engine/src/command/response/context.rs:206-217 | fewer than eight bytes ask for one more; eight conclude the big-endian two's complement integer |
| ResponseDecoder.StageList | engine/src/command/response/context.rs:219-262 | a short length header asks for the rest of it; moving on lands past the item with the earlier items kept in front and fewer items than announced; concluding gives a list holding at least the announced count |
| ResponseDecoder.StageMap | engine/src/command/response/context.rs:264-329 | moving on lands past the entry with the earlier keys kept and fewer entries than announced; concluding gives a map holding at least the announced count |
| ResponseDecoder.StageParseError | engine/src/command/response/context.rs:331-342 | a missing byte asks for one; a byte naming no parse error fails the unwrap; otherwise the error it names is concluded |
| ResponseDecoder.StageTypeInit | engine/src/command/response/context.rs:344-420 | a short header asks for what it lacks; a read header moves past it to the stage of its type, never back to a header or the start |
| ResponseDecoder.StageSet | engine/src/command/response/context.rs:422-467 | a short length header asks for the rest of it; moving on lands past the element with fewer elements than announced; concluding gives a set holding at least the announced count |
| ResponseDecoder.StageString | engine/src/command/response/context.rs:469-491 | a short payload asks for exactly the missing count; a full one that is valid UTF-8 concludes that string, and one that is not is refused |
| ResponseDecoder.Step | engine/src/command/response/context.rs:98-111 | every step that moves on either reads further into the buffer or advances to a later stage, so the feed loop ends |
| ResponseDecoder.Feed | engine/src/command/response/context.rs:96-496 | a feed that concludes a response leaves the context reset for the next one |
| ResponseDecoding.FeedNext | engine/src/command/response/context.rs:98-111 | the feed loop carries on from whichever context a step moves to |
| ResponseDecoding.FeedConcluded | engine/src/command/response/context.rs:112-118 | a concluding step ends the feed with the response and a reset context |
| ResponseDecoding.ListItemStep | engine/src/command/response/context.rs:219-262 | a framed item at the list stage's index is read and appended to the items so far |
| ResponseDecoding.MapEntryStep | engine/src/command/response/context.rs:264-329 | a framed entry at the map stage's index is read and inserted into the entries so far |
| ResponseDecoding.SetElemStep | engine/src/command/response/context.rs:422-467 | a framed element at the set stage's index is read and inserted into the elements so far |
| ResponseDecoding.FeedRun | engine/src/command/response/context.rs:96-123 | a run of steps that ends by concluding a response is what the feed does from its first context |
| ResponseDecoding.ListTurn | engine/src/command/response/context.rs:219-262 | reading the next item moves to the context after it, or concludes the whole list after the last |
| ResponseDecoding.ListRun | engine/src/command/response/context.rs:219-262 | items read one after another, each where the previous ended, conclude the list of all of them in order |
| ResponseDecoding.ListDecodes | engine/src/command/response/context.rs:219-262 | a laid-out non-empty list is decoded, from its first item, as exactly those items |
| ResponseDecoding.CollectedHas | engine/src/command/response/context.rs:313-329 | the entries inserted so far are those of the map under the keys read so far |
| ResponseDecoding.CollectedSize | engine/src/command/response/context.rs:313-329 | after `k` distinct keys the map being built holds `k` entries, which is what the stage compares with the count |
| ResponseDecoding.CollectedAll | engine/src/command/response/context.rs:313-329 | once every key has been read the map built is the map written |
| ResponseDecoding.MapTurn | engine/src/command/response/context.rs:264-329 | reading the next entry moves to the context after it, or concludes the whole map after the last |
| ResponseDecoding.MapRun | engine/src/command/response/context.rs:264-329 | entries read one after another conclude the map they make up |
| ResponseDecoding.MapDecodes | engine/src/command/response/context.rs:264-329 | a laid-out non-empty map is decoded, in the order it was written, as exactly that map |
| ResponseDecoding.CollectedSetHas | engine/src/command/response/context.rs:450-467 | the elements inserted so far are those read so far |
| ResponseDecoding.CollectedSetSize | engine/src/command/response/context.rs:450-467 | after `k` distinct elements the set being built holds `k` of them |
| ResponseDecoding.CollectedSetAll | engine/src/command/response/context.rs:450-467 | once every element has been read the set built is the set written |
| ResponseDecoding.SetTurn | engine/src/command/response/context.rs:422-467 | reading the next element moves to the context after it, or concludes the whole set after the last |
| ResponseDecoding.SetRun | engine/src/command/response/context.rs:422-467 | elements read one after another conclude the set they make up |
| ResponseDecoding.SetDecodes | engine/src/command/response/context.rs:422-467 | a laid-out non-empty set is decoded, in the order it was written, as exactly that set |
| ResponseRoundTrip.TagRead | engine/src/command/response/context.rs:134-149 | a valid type byte moves a fresh decoder to that type's stage at index 1 |
| ResponseRoundTrip.BoolDecodes | engine/src/command/response/mod.rs:135-138 | a written boolean, followed by anything, decodes as itself |
| ResponseRoundTrip.DispatchErrorDecodes | engine/src/command/response/mod.rs:148-151 | a written dispatch error that has a discriminant decodes as itself |
| ResponseRoundTrip.ParseErrorDecodes | engine/src/command/response/mod.rs:153-156 | a written parse error decodes as itself |
| ResponseRoundTrip.FloatDecodes | engine/src/command/response/mod.rs:158-161 | a written float decodes as the same bits |
| ResponseRoundTrip.IntDecodes | engine/src/command/response/mod.rs:163-166 | a written integer decodes as itself |
| ResponseRoundTrip.BytesDecodes | engine/src/command/response/mod.rs:140-146 | written bytes of any length that fits a `u32`, the empty ones included, decode as themselves |
| ResponseRoundTrip.StringDecodes | engine/src/command/response/mod.rs:216-223 | a written string that fits a `u32` length decodes as itself, the empty string included |
| ResponseRoundTrip.ListRoundTrip | engine/src/command/response/mod.rs:168-181 | a written non-empty list that fits its headers decodes as the same items in order |
| ResponseRoundTrip.MapRoundTrip | engine/src/command/response/mod.rs:183-200 | a written map that fits its headers decodes as the same map, whatever order it was written in, the empty map included |
| ResponseRoundTrip.SetRoundTrip | engine/src/command/response/mod.rs:202-214 | a written non-empty set that fits its headers decodes as the same set, whatever order it was written in |
| ResponseRoundTrip.AsBytesDecodes | engine/src/command/response/mod.rs:55-72 | feeding a fresh decoder the bytes of any decodable response, followed by anything, concludes that response and resets the decoder |
| ResponseRoundTrip.FeedWaits | engine/src/command/response/context.rs:119-121 | a step asking for more bytes ends the feed with that request and keeps the context for the next feed |
| ResponseRoundTrip.EmptyListWaits | engine/src/command/response/context.rs:219-262 | an empty list as written leaves the decoder asking for an item length that never comes |
| ResponseRoundTrip.EmptySetWaits | engine/src/command/response/context.rs:422-467 | an empty set as written leaves the decoder asking for an element length that never comes |
| ResponseRoundTrip.UncodedDispatchErrorPanics | engine/src/command/response/context.rs:188 | a dispatch error without a discriminant as written fails the decoder's unwrap |
| ResponseRoundTrip.DecodesExactly | engine/src/command/response/mod.rs:55-72 | the encoding of a response decodes back to that response if and only if the response is decodable |
| ResponseRoundTrip.FeedEmpty | engine/src/command/response/context.rs:128-131 | feeding a fresh decoder nothing asks for the type byte |
| ResponseRoundTrip.InvalidTagFails | engine/src/command/response/context.rs:134 | a first byte naming no response type fails the feed and keeps the context |
| ResponseExamples.RemainingBytesExamples | engine/src/command/response/context.rs:612-616 | the remaining-byte counts of the unit test |
| ResponseExamples.BooleanExample | engine/src/command/response/context.rs:520-544 | a lone boolean tag waits for one byte; the complete boolean concludes true and resets the decoder |
| ResponseExamples.BytesExample | engine/src/command/response/context.rs:546-558 | a three-byte payload arriving in parts asks for 3, then 1, then concludes `[2, 3, 0]` |
| ResponseExamples.DispatchErrorExamples | engine/src/command/response/context.rs:560-610 | a lone dispatch-error tag waits for one byte; codes 0, 1 and 2 conclude the three errors they name |
| ResponseExamples.ListExample | engine/src/command/response/context.rs:618-648 | the unit test's two-item list decodes as `["foo", "bar"]` |
| ResponseExamples.MapExample | engine/src/command/response/context.rs:650-679 | the unit test's one-entry map decodes as `{"foo": "bar!"}` |
| ResponseExamples.EmptyMapExample | engine/src/command/response/context.rs:681-688 | a map header announcing no entries concludes the empty map |
| ResponseExamples.SetExample | engine/src/command/response/context.rs:690-709 | after one element, an element length one byte short makes the decoder ask for one byte |
| ResponseExamples.StringExample | engine/src/command/response/context.rs:711-731 | the string "abc" arriving a byte at a time asks for 2, then 1, then concludes and resets |
| Handlers.Converted | engine/src/command/impl/set.rs:14-136 | each type's conversion of the value argument: a boolean is its first byte being non-zero, an integer or float its first eight bytes big-endian, a string only valid UTF-8, bytes as they came; the collections take every argument after the key and exist exactly when the request has arguments |
| Handlers.Set | engine/src/command/impl/set.rs:140-162 | no key is KeyUnspecified and no value argument ArgumentRetrieval, both leaving the keyspace alone; a client key with the internal prefix panics exactly when no key type is given (nothing changed) or the argument converts to the given one (the key already removed); otherwise it succeeds exactly when the argument converts to the type stored under, and then the key holds that value, whatever was there before, and the reply is that value |
| Handlers.Grown | engine/src/command/impl/append.rs:15-57 | a value of the appended kind grows by the arguments' bytes, by the arguments as items, or by the UTF-8 arguments only; a value of another kind is refused |
| Handlers.Append | engine/src/command/impl/append.rs:61-75 | no key is KeyUnspecified; a client key with the internal prefix panics, with nothing changed, exactly when the type worked on is appendable; otherwise it succeeds exactly when the type worked on is Bytes, List or String and the stored value (created empty when absent) is of that type, and then the key holds the grown value, which is the reply; otherwise KeyTypeDifferent with the keyspace unchanged |
| Handlers.Rename | engine/src/command/impl/rename.rs:8-31 | never panics, internal keys included; a key type is KeyTypeUnexpected; a missing source is KeyNonexistent; an existing destination is PreconditionFailed; otherwise the value moves to the new name, the old name is gone, every other key is untouched and the reply is the new name |
| Handlers.Delete | engine/src/command/impl/delete.rs:8-23 | never panics, internal keys included; a key type is KeyTypeUnexpected; an absent key is PreconditionFailed with nothing changed; otherwise the key is gone, every other key is untouched and the reply is the key |
| Handlers.AllPresent | engine/src/command/impl/exists.rs:16 | true exactly when every key listed is present |
| Handlers.Exists | engine/src/command/impl/exists.rs:8-21 | never panics and never changes the keyspace; a key type is KeyTypeUnexpected, no arguments ArgumentRetrieval; otherwise true exactly when every argument names a present key |
| Handlers.AllOfKind | engine/src/command/impl/is.rs:15-18 | the `all` scan with `key_ref` panics exactly when it meets an internal key before it stops; otherwise it is true exactly when every key listed is present with the given type |
| Handlers.Is | engine/src/command/impl/is.rs:8-23 | never changes the keyspace; no key type is KeyTypeRequired, and ArgumentRetrieval comes back exactly when there are no arguments; it panics exactly when the scan meets an internal key; otherwise true exactly when every argument names a present key of that type |
| Handlers.Get | engine/src/command/impl/get.rs:10-26 | never changes the keyspace; no key is KeyUnspecified; an internal key panics, and nothing else does; an absent key is KeyNonexistent, a stored value of another type than the one asked for KeyTypeDifferent; otherwise the stored value |
| Handlers.Type | engine/src/command/impl/type.rs:10-25 | never changes the keyspace; no key is KeyUnspecified, a key type KeyTypeUnexpected; an internal key otherwise panics, and nothing else does; an absent key is KeyNonexistent; otherwise an integer in 0..255 that decodes as the stored value's type |
| Handlers.Keys | engine/src/command/impl/keys.rs:11-33 | no key is KeyUnspecified and a key type other than Map KeyTypeInvalid; an internal key otherwise panics with nothing changed; otherwise an absent key becomes an empty map, a stored value that is not a map is KeyTypeDifferent, and a map answers with a list holding each of its keys exactly once |
| Handlers.Length | engine/src/command/impl/length.rs:14-62 | no key is KeyRetrieval; an internal key panics with nothing changed unless the type asked for cannot be measured; otherwise the type measured is the one asked for, else the stored one, else Bytes; it succeeds exactly when that type is Bytes, List or String and the stored value (created empty when absent) has it, answering its length in bytes, items or Unicode scalar values; otherwise WrongType |
| Handlers.ChangeInteger | engine/src/command/impl/increment_by.rs:20-29 | an internal key panics with nothing changed; otherwise an integer under the key (0 when absent) becomes itself plus the amount, wrapped to 64 bits as an unchecked `i64` add, stored and answered; a value of another type is KeyRetrieval with nothing changed |
| Handlers.Change | engine/src/command/impl/increment_by.rs:13-42 | a key type other than Integer or Float is WrongType; with Integer, Float or no key type an internal key panics with nothing changed; a stored value of another type is KeyRetrieval with nothing changed; otherwise the integer grows by the amount with 64-bit wrap-around, or the float by the float step, and the new value is stored and answered |
| Handlers.Increment | engine/src/command/impl/increment.rs:11-15 | no key is KeyUnspecified; it panics exactly when the change does, on an internal key; otherwise a change by +1, so an integer reply is the old integer plus one, wrapped |
| Handlers.IncrementBy | engine/src/command/impl/increment_by.rs:46-50 | no key is KeyRetrieval; it panics exactly when the change does, on an internal key; otherwise a change by +1, so an integer reply is the old integer plus one, wrapped |
| Handlers.Decrement | engine/src/command/impl/decrement.rs:11-15 | no key is KeyRetrieval; it panics exactly when the change does, on an internal key; otherwise a change by -1, so an integer reply is the old integer minus one, wrapped |
| Handlers.DecrementBy | engine/src/command/impl/decrement_by.rs:47-51 | no key is KeyRetrieval; it panics exactly when the change does, on an internal key; otherwise a change by -1, so an integer reply is the old integer minus one, wrapped |
| Handlers.Echo | engine/src/command/impl/echo.rs:8-20 | never panics and never changes the keyspace; answers a list whose items are the request's arguments in order, all of them, and the empty list when there are none |
| Handlers.Stats | engine/src/command/impl/stats.rs:6-8 | never changes the keyspace; always answers the five-character string "Pong!" |
| HandlerLaws.BuiltArg | engine/src/command/request/mod.rs:165-177 | every argument of an encoded request reads back as the argument encoded |
| HandlerLaws.BuiltArgs | engine/src/command/request/mod.rs:136-157 | the argument ranges the handlers take read back as the encoded arguments, from the first or from the second |
| HandlerLaws.SetBytes | engine/src/command/impl/set.rs:223-234 | a set with key type Bytes stores the value argument as it came and answers it |
| HandlerLaws.SetInteger | engine/src/command/impl/set.rs:251-262 | an integer sent as its eight big-endian bytes is stored and answered as that integer |
| HandlerLaws.SetIntegerAnswered | engine/src/command/impl/set.rs:61-74 | the response to that set decodes, on the client's side, as the same integer |
| HandlerLaws.SetInternalPanics | engine/src/command/impl/set.rs:29-44 | a client can send a key with the internal prefix: a set of one with key type Bytes removes the key and then panics |
| HandlerLaws.SetThenGet | engine/src/command/impl/get.rs:10-26 | a get after a successful set, naming the same key and no other type, answers what the set answered and changes nothing |
| HandlerLaws.SetThenType | engine/src/command/impl/type.rs:10-25 | a type request after a successful set reports the type the set stored under |
| HandlerLaws.SetThenIs | engine/src/command/impl/is.rs:8-23 | an is request for the key just set, with the type it was stored under, answers true |
| HandlerLaws.ExistsBuilt | engine/src/command/impl/exists.rs:43-98 | exists over encoded keys answers whether every one of them is present |
| HandlerLaws.DeleteThenExists | engine/src/command/impl/delete.rs:44-55 | once a key is deleted, exists on it answers false |
| HandlerLaws.DeleteTwice | engine/src/command/impl/delete.rs:58-68 | a second delete of the same key is PreconditionFailed and changes nothing |
| HandlerLaws.RenameBuilt | engine/src/command/impl/rename.rs:45-58 | renaming a present key to an absent one moves its value across and answers the new name |
| HandlerLaws.RenameBack | engine/src/command/impl/rename.rs:8-31 | renaming to a fresh name and back restores the keyspace exactly |
| HandlerLaws.IncrementThenDecrement | engine/src/command/impl/increment_by.rs:20-29 | incrementing any integer and decrementing it again restores the keyspace and answers the original integer, the maximum included |
| HandlerLaws.IncrementWraps | engine/src/command/impl/increment_by.rs:20-29 | there is no overflow check: incrementing the largest integer stores and answers the smallest |
| HandlerLaws.IncrementAbsent | engine/src/command/impl/increment_by.rs:20-29 | incrementing an absent key stores and answers 1 |
| HandlerLaws.AppendGrows | engine/src/command/impl/append.rs:15-57 | a successful append grows the stored value by exactly what its arguments add |
| HandlerLaws.AppendThenLength | engine/src/command/impl/length.rs:14-39 | a length after a successful append is the old length plus what the arguments add |
| HandlerLaws.LengthOfAbsent | engine/src/command/impl/length.rs:112-123 | the length of an absent key creates empty bytes under it and answers 0 |
| HandlerLaws.LengthOfInternalPanics | engine/src/state/mod.rs:157-164 | a length request encoded with a key carrying the internal prefix panics and leaves the keyspace as it was |
| HandlerLaws.KeysOfAbsent | engine/src/command/impl/keys.rs:11-21 | the keys of an absent key create an empty map under it and answer the empty list |
| HandlerLaws.SetMapThenKeys | engine/src/command/impl/keys.rs:48-65 | after a map is set, its keys are answered each exactly once |
| HandlerLaws.EchoOfEncoded | engine/src/command/impl/echo.rs:33-52 | echo answers the arguments of an encoded request, in order |
| HandlerLaws.EchoOfNothing | engine/src/command/impl/echo.rs:55-64 | echo of a request without arguments answers the empty list |
| Engine.DefaultConfig | engine/src/hop.rs:47-54 | pubsub is on and the active-session limit is `usize::MAX` |
| Engine.NewBuilder | engine/src/hop.rs:84-86 | a new builder starts from the default configuration |
| Engine.WithPubsubEnabled | engine/src/hop.rs:96-100 | the setter changes the pubsub flag and keeps the session limit |
| Engine.WithSessionsActiveMax | engine/src/hop.rs:105-109 | the setter changes the session limit and keeps the pubsub flag |
| Engine.Build | engine/src/hop.rs:89-145 | the engine built carries the builder's configuration and starts with no metrics, no subscriptions, no sessions and an empty keyspace |
| Engine.NewHop | engine/src/hop.rs:157-159 | a new engine has the default configuration, an empty keyspace and no counters |
| Engine.BuilderExample | engine/src/hop.rs:60-73 | the documented builder example: pubsub off and at most 150 sessions |
| Engine.SettersCommute | engine/src/hop.rs:96-109 | the two setters touch different fields, so their order does not matter |
| Engine.Dispatch | engine/src/hop.rs:170-194 | it unwinds exactly when the request is not routable, i.e. exactly when its handler panics, and then no counter is bumped and the keyspace is as the handler left it; otherwise the keyspace and result are the chosen handler's and exactly one counter is bumped, CommandsSuccessful on success and CommandsErrored on failure; configuration, pubsub, sessions and gauges are untouched either way |
| Engine.Route | engine/src/hop.rs:171-185 | each command id goes to its handler, and the handler panics exactly when the request is not routable |
| Engine.DispatchCountsOnce | engine/src/hop.rs:187-191 | short of a counter wrapping, a dispatch that returns adds exactly one to the commands counted, and one that unwinds adds nothing |
| Engine.DispatchEchoAndStats | engine/src/hop.rs:175-182 | an echo or stats request never unwinds; echo is routed to the echo handler and stats answers "Pong!", the keyspace untouched |
| Engine.DispatchDelete | engine/src/hop.rs:174 | a delete never unwinds, whatever its key, and is routed to the delete handler: same keyspace change, same result |
| Engine.DispatchInternalUnwinds | engine/src/state/mod.rs:130-164 | a client key with the internal prefix, without a key type, makes dispatch of append (on Bytes), length, keys or any increment or decrement unwind, and `is` with a key type; nothing is counted and the keyspace is unchanged |
| Utf8.LeadLength | engine/src/command/request/mod.rs:89-93 | the width of the well-formed character a byte string starts with, never more than four or than the string |
| Utf8.CharCount | engine/src/command/impl/length.rs:32-39 | a valid string has no more characters than bytes, and none exactly when it is empty |
| Utf8.EncodeChar | engine/src/command/response/mod.rs:216-223 | a character takes one to four bytes |
| Utf8.Encode | engine/src/command/response/mod.rs:216-223 | a string of characters takes between one and four bytes per character |
| Utf8.EncodeCharLead | engine/src/command/request/mod.rs:89-93 | a character's encoding is read back as one character of its own width, whatever follows |
| Utf8.EncodeValid | engine/src/command/response/context.rs:488 | the bytes of any character string are valid UTF-8 and hold as many characters as the string |
| Utf8.ConcatValid | engine/src/command/impl/append.rs:49-53 | two valid strings joined are valid, and their character counts add up |
| Utf8.AsciiValid | engine/src/command/impl/stats.rs:6-8 | bytes below 0x80 are valid UTF-8 with one character per byte |
| Utf8.CowboyIsOneChar | engine/src/command/impl/length.rs:159-189 | the four bytes of U+1F920 are valid and count as one character |
| Utf8.InvalidExamples | engine/src/command/request/mod.rs:89-93 | a lone continuation byte, an encoded surrogate and an overlong encoding are refused |
| Bytes.FromBEOfBE | engine/src/command/response/mod.rs:140-146 | a number written big-endian in a width it fits reads back as itself |
| Bytes.BEOfFromBE | engine/src/command/response/context.rs:361-394 | bytes read as a big-endian number and written back in the same width are the same bytes |
| Bytes.I64RoundTrip | engine/src/command/response/mod.rs:163-166 | an integer's eight two's complement big-endian bytes read back as the integer |
| Bytes.I64RoundTripBytes | engine/src/command/request/mod.rs:56-62 | any eight bytes read as an integer and written back are the same bytes |
| Bytes.I64BE | engine/src/command/response/mod.rs:163-166 | an integer's eight bytes read as the unsigned number it is, or that number plus 2^64 when negative |
| Bytes.I64FromBE | engine/src/command/request/mod.rs:56-62 | eight bytes read as a two's complement integer: negative exactly when the first byte's top bit is set, and otherwise the unsigned number they denote |
| Bytes.I64Examples | engine/src/command/response/mod.rs:296-320 | 7, -7 and 68125 take the eight bytes of the unit test |
| Bytes.WrapI64 | engine/src/command/impl/increment_by.rs:26 | the unchecked `+=` on an `i64`: a sum in range is kept, one past the largest value is the smallest and one below the smallest is the largest |
| Bytes.AsI64 | engine/src/command/impl/length.rs:14-62 | a length below 2^63 is its own `i64` |
| Pools.New | lib/src/pool.rs:18-29 | a new pool holds exactly `n` items, each the one the constructor makes |
| Pools.Pull | lib/src/pool.rs:31-34 | pulling takes the most recently pushed item and shrinks the pool by one; an empty pool gives a fresh item and stays empty |
| Pools.Push | lib/src/pool.rs:36-43 | pushing puts the item on top and keeps everything below it |
| Pools.PushThenPull | lib/src/pool.rs:32-43 | a push followed by a pull gives back the pushed item and the pool as it was (LIFO) |
| Pools.PullThenPush | lib/src/pool.rs:32-43 | pulling from a non-empty pool and pushing the item back restores the pool |
| MetricNames.MetricCode | engine/src/metrics.rs:7-14 | the discriminants are 0, 1, 10 and 11 |
| MetricNames.Name | engine/src/metrics.rs:16-24 | every metric has a non-empty name |
| MetricNames.NamesDistinct | engine/src/metrics.rs:9-24 | distinct metrics have distinct codes and distinct names |
| Metrics.New | lib/metrics/src/lib.rs:94-163 | a new instance has no counters and no gauges |
| Metrics.Snap | lib/metrics/src/lib.rs:122-153 | a snapshot copies both maps |
| Metrics.SnapshotCounter | lib/metrics/src/lib.rs:65-70 | a snapshot's counter is present exactly when the key is in its counters, with that value |
| Metrics.SnapshotGauge | lib/metrics/src/lib.rs:80-87 | a snapshot's gauge is present exactly when the key is in its gauges, with that value |
| Metrics.Bumped | lib/metrics/src/lib.rs:247 | an absent counter becomes 1; a present one below the maximum goes up by one |
| Metrics.Increment | lib/metrics/src/lib.rs:236-250 | on a live instance the counter is bumped, every other counter and every gauge is kept, and the call reports true; on a dropped one nothing changes and it reports false |
| Metrics.Gauge | lib/metrics/src/lib.rs:219-234 | on a live instance the gauge holds exactly the value afterwards, every other gauge and every counter is kept, and the call reports true; on a dropped one it reports false |
| Metrics.Counter | lib/metrics/src/lib.rs:174-185 | a reader's counter is present exactly when the instance is alive and holds the key |
| Metrics.GaugeValue | lib/metrics/src/lib.rs:187-201 | a reader's gauge is present exactly when the instance is alive and the gauge was set |
| Metrics.IncrementCounts | lib/metrics/src/lib.rs:236-250 | an increment of a counter reading `k` (absent reading as 0) leaves it reading `k + 1` |
| Metrics.CounterCounts | lib/metrics/src/lib.rs:219-250 | after any sequence of writes a counter reads its starting value plus its number of increments, modulo 2^64, and a counter never incremented keeps its starting reading |
| Metrics.GaugeIsLastWrite | lib/metrics/src/lib.rs:219-234 | after any sequence of writes a gauge reads the value of its last write, or its starting value if there was none |
| Metrics.DroppedIsInert | lib/metrics/src/lib.rs:173-256 | once the instance is gone every write reports false and changes nothing, every read is None, and `valid` is false |
| Metrics.SnapshotUnaffected | lib/metrics/src/lib.rs:127-153 | a snapshot keeps the counter it copied while the live counter moves on by every later increment |
| Metrics.FreshReads | lib/metrics/src/lib.rs:80-250 | a fresh counter reads None and 1 after one increment; a gauge set to 0 reads Some(0) |
| Sessions.New | engine/src/session/manager.rs:21-27 | a new manager has no sessions and starts ids at 0 |
| Sessions.Add | engine/src/session/manager.rs:29-46 | `add` panics, changing nothing, exactly when the current id is still in use; otherwise it stores a session carrying that id, increments SessionsStarted once, and advances the id by one modulo 2^32 |
| Sessions.Remove | engine/src/session/manager.rs:48-50 | `remove` reports whether the id was present, and afterwards it is absent; the next id is kept |
| Sessions.AllocatedPreserved | engine/src/session/manager.rs:29-50 | while every stored id lies below the next id, the id `add` uses is free (so the `unreachable!` arm is never taken), and add (short of wrapping) and remove keep that so |
| Sessions.AddMany | engine/src/session/manager.rs:29-46 | a run of adds from a fresh manager keeps every id below the next, and the next id is the number of adds |
| Sessions.AddManyIds | engine/src/session/manager.rs:29-46 | after `n` adds from a fresh manager exactly the ids 0..n-1 are in use |
| Sessions.AddManyCounts | engine/src/session/manager.rs:39 | after `n` adds SessionsStarted reads `n` |
| Sessions.AddManyStep | engine/src/session/manager.rs:39 | each add is exactly one more increment of SessionsStarted |
| Sessions.WrapsToZero | engine/src/session/manager.rs:41-43 | at the last id the next id wraps to 0 |
| Sessions.WrappedIdPanics | engine/src/session/manager.rs:29-46 | the `unreachable!` arm can be reached: once the id wraps to 0 with session 0 still live, the next add panics |
| PubSub.New | engine/src/pubsub/manager.rs:6-13 | a new registry has no keys and no sessions |
| PubSub.Get | engine/src/pubsub/manager.rs:16-22 | `get` is Some exactly when the session holds a subscription for the key |
| PubSub.SubscribeAsWritten | engine/src/pubsub/manager.rs:28-52 | an existing subscription gives None and changes nothing; otherwise the session gains the key, and only if the key had no set yet is one created with the session and the subscription returned |
| PubSub.Subscribe | engine/src/pubsub/manager.rs:24-28 | as documented: None exactly when the subscription already existed; otherwise the session is recorded in both maps and the subscription returned |
| PubSub.Unsubscribe | engine/src/pubsub/manager.rs:54-75 | reports true exactly when the session was in the key's set or the key in the session's map; afterwards neither holds, and other keys and sessions are unchanged |
| PubSub.RemoveSession | engine/src/pubsub/manager.rs:77-90 | reports whether the session had an entry, closes every subscription it held, and leaves the key sets alone |
| PubSub.CoveredPreserved | engine/src/pubsub/manager.rs:28-90 | subscribe, unsubscribe and remove_session keep every held subscription recorded in its key's set |
| PubSub.SecondSubscriberUnrecordedAsWritten | engine/src/pubsub/manager.rs:43-44 | a second session subscribing to the same key gets None, is missing from the key's set, and breaks the coverage invariant |
| PubSub.SecondSubscriberRecorded | engine/src/pubsub/manager.rs:24-28 | under the documented behaviour both sessions are in the key's set and the invariant holds |
| Timer.NewDuration | lib/timer/src/lib.rs:252 | `Duration::new` keeps the total length, carrying whole seconds out of the nanoseconds |
| Timer.FromNanos | lib/timer/src/lib.rs:176-178 | a length in nanoseconds becomes the duration of exactly that length |
| Timer.NanosInjective | lib/timer/src/lib.rs:176-178 | a duration is determined by its length |
| Timer.ParseTimespec | lib/timer/src/lib.rs:240-253 | negative seconds read as 0; negative nanoseconds read as 0; nanoseconds too wide for 32 bits read as 999999999 with one second taken off, saturating at 0; otherwise the length is seconds times 10^9 plus nanoseconds |
| Timer.ParseExact | lib/timer/src/lib.rs:240-253 | a well-formed timespec converts to exactly its seconds and nanoseconds |
| Timer.ParseMonotone | lib/timer/src/lib.rs:234-253 | later well-formed readings never convert to shorter durations |
| Timer.ParseExamples | lib/timer/src/lib.rs:287-315 | the source's three correction tests: (-1, 5000000), (3, i64::MAX) and (3, -1) |
| Timer.New | lib/timer/src/lib.rs:62-93 | a new timer is neither started nor stopped |
| Timer.Start | lib/timer/src/lib.rs:113-121 | `start` reports true exactly when the timer was not started, and only then records the reading |
| Timer.Elapsed | lib/timer/src/lib.rs:176-178 | `duration` is Some exactly when the timer has both readings, and start plus the result is the stop |
| Timer.Stop | lib/timer/src/lib.rs:145-153 | `stop` gives Some exactly when the timer is running, records the reading, and returns stop minus start; otherwise nothing changes |
| Timer.IsRunning | lib/timer/src/lib.rs:199-201 | a started timer is running exactly when it has no duration yet |
| Timer.Reset | lib/timer/src/lib.rs:220-223 | a reset timer equals a new one |
| Timer.Lifecycle | lib/timer/src/lib.rs:113-379 | the source's timer tests in one: start once, a second start fails and keeps the reading, stop returns what `duration` reports afterwards, a second stop gives None, running exactly in between, reset gives a new timer |
| Timer.OrderedPreserved | lib/timer/src/lib.rs:113-223 | start and reset keep a timer's readings in order |
| Client.Int | client/src/model.rs:16-22 | a metric's entry of exactly eight bytes reads as the big-endian `i64` those bytes encode; a missing entry, or one of any other length, reads as 0 |
| Client.IntRoundTrip | client/src/model.rs:16-22 | a metric stored as its eight bytes reads back as the value stored |
| Client.IntReadsOwnEntry | client/src/model.rs:16-22 | whatever is stored under another metric's name, a metric reads the same |
| Client.CommandsErrored | client/src/model.rs:24-26 | reads the CommandsErrored metric's own entry: 0 when it is missing or not eight bytes long, and otherwise the integer its eight bytes encode |
| Client.CommandsSuccessful | client/src/model.rs:28-30 | reads the CommandsSuccessful metric's own entry: 0 when it is missing or not eight bytes long, and otherwise the integer its eight bytes encode |
| Client.SessionsEnded | client/src/model.rs:32-34 | reads the SessionsEnded metric's own entry: 0 when it is missing or not eight bytes long, and otherwise the integer its eight bytes encode |
| Client.SessionsStarted | client/src/model.rs:36-38 | reads the SessionsStarted metric's own entry: 0 when it is missing or not eight bytes long, and otherwise the integer its eight bytes encode |
| Client.AccessorsReadOwnMetric | client/src/model.rs:24-38 | each accessor reads only its own metric: another metric's entry never changes what it gives |
| Client.ExistsKey | client/src/request/exists.rs:79-87 | `key` always builds a request with exactly that one key |
| Client.ExistsKeys | client/src/request/exists.rs:103-116 | no keys gives NoKeys, more than 255 gives TooManyKeys, and otherwise the keys are kept in order |
| Client.IsKey | client/src/request/is.rs:62-67 | `key` always builds a one-key request with the key type asked about |
| Client.IsKeys | client/src/request/is.rs:83-96 | no keys gives NoKeys, more than 255 gives TooManyKeys, and otherwise the keys and the key type are kept |
| Client.KeysAcceptedFit | client/src/request/exists.rs:103-116 | the key lists accepted are exactly the non-empty ones whose length a `u8` count holds without wrapping; `is` accepts the same lists, and one key given either way builds the same request |
| Cli.Split | cli/lib/src/parse.rs:35 | `split(' ')` gives at least one piece, no piece holds a space, and the pieces joined back with spaces are the line |
| Cli.SplitJoin | cli/lib/src/parse.rs:35 | splitting words joined with single spaces gives the words back, when none holds a space |
| Cli.SplitUnique | cli/lib/src/parse.rs:35 | the pieces are the only space-free words that join to the line |
| Cli.EncodeAll | cli/lib/src/parse.rs:50 | each word becomes its UTF-8 bytes, in order |
| Cli.Tokenize | cli/lib/src/parse.rs:35-53 | the line is refused exactly when its first piece is empty (empty line or leading space); otherwise the name is the first piece, and the arguments are None exactly when nothing follows it, else the pieces that rejoin to the rest of the line |
| Cli.TokenizeJoined | cli/lib/src/parse.rs:35-53 | a name followed by space-free words is taken apart into that name and those words |
| Cli.Parse | cli/lib/src/parse.rs:34-56 | an empty first piece gives NoCommandProvided; a first piece the engine's table does not know gives InvalidCommandType carrying that piece; otherwise the command named by the leading piece, with arguments None exactly when the input is the name alone |
| Cli.ParseRoundTrip | cli/lib/src/parse.rs:34-56 | a command's name followed by space-free words parses to that command with the words' bytes as arguments |
| Cli.NameIsWord | engine/src/command/command_id.rs:96-113 | the engine's command names are non-empty and hold no space |
| Cli.ParseUnknown | cli/lib/src/parse.rs:44-46 | an unknown first word is refused with InvalidCommandType carrying exactly that word |
| Cli.ParseKeepsEmptyWords | cli/lib/src/parse.rs:35-53 | two spaces in a row give an empty argument; nothing is collapsed |
| Cli.LeadingSpace | cli/src/input.rs:41 | counts the white space a string starts with, and stops at the first other character |
| Cli.TrailingSpace | cli/src/input.rs:41 | counts the white space a string ends with, and stops at the last other character |
| Cli.Trim | cli/src/input.rs:41 | `trim` removes only white space from the ends, and what is left neither starts nor ends with it; the result is empty exactly when the line is all white space |
| Cli.TrimIdempotent | cli/src/input.rs:41 | trimming twice is trimming once |
| Cli.ProcessCommand | cli/src/input.rs:38-64 | a failed read gives Retrieval; an all-white-space line gives NoCommandProvided; an unknown name gives InvalidCommandType; otherwise a request without a key type |
| Cli.LegacyNameIsWord | lib/src/command/command_id.rs:60-96 | the earlier crate's command names are non-empty and hold no white space |
| Cli.LineEnds | cli/src/input.rs:41-43 | a name and non-empty words joined with spaces neither start nor end with white space |
| Cli.ProcessCommandRoundTrip | cli/src/input.rs:38-64 | white space around a command's name and its words does not matter: the request is that command with the words' bytes as arguments |
| Cli.TrimAround | cli/src/input.rs:41 | trimming a line framed by white space gives the line, when it neither starts nor ends with white space |
| Cli.KeyTypeName | cli/lib/src/print.rs:3-14 | every key type has a non-empty name |
| Cli.KeyTypeNamesDistinct | cli/lib/src/print.rs:5-12 | the eight names are pairwise distinct |
| LegacyCommandIds.Code | lib/src/command/command_id.rs:19-28 | every discriminant is one of the eight codes `try_from` accepts |
| LegacyCommandIds.ArgumentNotationOf | lib/src/command/command_id.rs:31-45 | only echo takes multiple arguments; append, decrement:by, increment:by and length take one; the other three none |
| LegacyCommandIds.TryFromU8 | lib/src/command/command_id.rs:98-114 | a byte names a command exactly when it is one of 0, 1, 2, 3, 20, 21, 100, 101, and then the command's discriminant is that byte |
| LegacyCommandIds.TryFromCode | lib/src/command/command_id.rs:98-172 | decoding a command's discriminant gives the command back |
| LegacyCommandIds.HasKey | lib/src/command/command_id.rs:47-54 | every command has a key except echo and stats |
| LegacyCommandIds.IsSimple | lib/src/command/command_id.rs:31-58 | a command is simple exactly when it is stats |
| LegacyCommandIds.Name | lib/src/command/command_id.rs:60-72 | every command has a non-empty name |
| LegacyCommandIds.FromStr | lib/src/command/command_id.rs:80-96 | a successful parse gives the command whose name is the text |
| LegacyCommandIds.FromStrName | lib/src/command/command_id.rs:60-157 | parsing a command's name gives the command back |
| LegacyCommandIds.NameInjective | lib/src/command/command_id.rs:60-72 | distinct commands have distinct names |
| LegacyCommandIds.FromStrRejects | lib/src/command/command_id.rs:83-94 | names of the other tables ("set", "increment:int") and the empty text are refused |
| LegacyKinds.TryFromU8 | lib/src/command/kind.rs:92-108 | the same eight codes as the later table are accepted, each to the command with that discriminant |
| LegacyKinds.TryFromCode | lib/src/command/kind.rs:92-148 | decoding a command's discriminant gives the command back |
| LegacyKinds.ArgumentNotationOf | lib/src/command/kind.rs:25-39 | only echo takes multiple arguments; append, increment:int:by, decrement:int:by and string:length take one; the other three none |
| LegacyKinds.HasKey | lib/src/command/kind.rs:41-48 | every command has a key except echo and stats |
| LegacyKinds.IsSimple | lib/src/command/kind.rs:25-52 | a command is simple exactly when it is stats |
| LegacyKinds.Name | lib/src/command/kind.rs:54-66 | every command has a non-empty name |
| LegacyKinds.FromStr | lib/src/command/kind.rs:74-90 | a successful parse gives the command whose name is the text |
| LegacyKinds.FromStrName | lib/src/command/kind.rs:54-160 | parsing a command's name gives the command back |
| LegacyKinds.NameInjective | lib/src/command/kind.rs:54-66 | distinct commands have distinct names |
| LegacyKinds.Renamed | lib/src/command/kind.rs:13-52 | the two legacy tables agree code for code, with the same key and simplicity flags |
| LegacyKinds.FromStrRejects | lib/src/command/kind.rs:77-88 | "length", "increment" and "" are refused, and "string:length" names the string length command |
| LegacyState.Default | lib/src/state/object.rs:15-46 | each default constructor gives an object of its own kind holding false, zero or an empty payload |
| LegacyState.Equal | lib/src/state/object.rs:51-81 | objects of different kinds are never equal; objects of the same kind other than floats are equal exactly when their payloads are; floats compare as the float comparison says |
| LegacyState.EqualSymmetric | lib/src/state/object.rs:62-79 | equality is symmetric on objects that are not both floats, and on floats whenever the float comparison is |
| LegacyState.EqualReflexive | lib/src/state/object.rs:62-79 | every object other than a float equals itself |
| LegacyState.DefaultsEqual | lib/src/state/object.rs:15-79 | two defaults are equal exactly when they are of the same kind |
| LegacyState.Key | lib/src/state/mod.rs:204-221 | the key holds the returned object afterwards; an existing object is returned with the state unchanged; otherwise the initial object is inserted; other keys are kept |
| LegacyState.Access | lib/src/state/mod.rs:223-293 | a typed accessor succeeds exactly when the key is absent or holds an object of its kind; on a fresh key it inserts that kind's default; a failure is KeyWrongType and leaves the state unchanged |
| LegacyState.AccessAgain | lib/src/state/mod.rs:223-293 | a successful access repeated changes nothing and gives the same object |
| LegacyState.AccessFrames | lib/src/state/mod.rs:204-293 | an access to one key leaves every other key as it was |
| LegacyState.AccessOtherKindFails | lib/src/state/mod.rs:223-293 | once a key holds an object of one kind, the accessor of any other kind fails on it with the state unchanged |
| LegacyState.IntoBoolean | lib/src/utils.rs:5-13 | 1 is true, 0 is false, and every byte from 2 up gives BooleanValueInvalid |
| LegacyState.BooleanRoundTrip | lib/src/utils.rs:5-54 | a boolean's byte reads back as the boolean, and every accepted byte is one of the two |
| LegacyState.IntoInteger | lib/src/utils.rs:21-25 | exactly eight bytes are accepted, read as the big-endian `i64` they encode; any other length gives IntegerTooSmall |
| LegacyState.IntegerRoundTrip | lib/src/utils.rs:21-25 | an integer's eight bytes read back as the integer |
| LegacyState.Reserve | lib/src/utils.rs:27-37 | afterwards the capacity is at least the length plus the extra asked for and never smaller than before, the items are kept, and a buffer with room enough is left as it was |
| LegacyState.ReserveSettles | lib/src/utils.rs:27-65 | reserving again what was reserved, or less, changes nothing |
| LegacyState.ReserveExample | lib/src/utils.rs:56-66 | the source's test: an empty buffer grown by 12 has capacity 12, and reserving 11 more keeps it at 12 |
| LegacyResponses.IntoBytes | lib/src/command/response.rs:7-13 | `bytes` and `into_bytes` give the buffer unchanged |
| LegacyResponses.Line | lib/src/command/response.rs:15-20 | pushing a newline keeps every byte and adds one newline at the end |
| LegacyResponses.Payload | lib/src/command/response.rs:15-20 | what a line carries is every byte before the last |
| LegacyResponses.PayloadOfLine | lib/src/command/response.rs:15-20 | a line ends with a newline and carries exactly what it was made from |
| LegacyResponses.LineOfPayload | lib/src/command/response.rs:52-62 | a buffer that ends with a newline is the line of what comes before it |
| LegacyResponses.FromBytes | lib/src/command/response.rs:15-20 | `from_bytes` ends with a newline and carries the bytes given |
| LegacyResponses.FromString | lib/src/command/response.rs:44-49 | `from_string` ends with a newline and carries the string's UTF-8 bytes |
| LegacyResponses.FromInt | lib/src/command/response.rs:22-27 | `from_int` is nine bytes: the value's eight big-endian bytes, which read back as the value, then a newline |
| LegacyResponses.FromUsize | lib/src/command/response.rs:37-42 | `from_usize` is nine bytes: the value's eight big-endian bytes, which read back as the value, then a newline |
| LegacyResponses.FromList | lib/src/command/response.rs:29-35 | `from_list` is exactly one newline |
| LegacyResponses.From | lib/src/command/response.rs:52-62 | the conversion always ends with a newline, leaves a buffer that already ends with one exactly as it is, and otherwise pushes one |
| LegacyResponses.FromIdempotent | lib/src/command/mod.rs:80-90 | converting a converted buffer again changes nothing |
| LegacyResponses.FromKeepsConstructed | lib/src/command/response.rs:15-62 | what the constructors build is left alone by the conversion |
| LegacyResponses.ConstructorDoubles | lib/src/command/response.rs:15-62 | a buffer that already ends with a newline gets a second one from `from_bytes` and none from the conversion |
| LegacyResponses.FromIntExamples | lib/src/command/mod.rs:65-121 | `from_int(7)` and `from_int(68125)` are the test's eight bytes followed by a newline, so they differ from the test's expected arrays |
| LegacyCommandRequest.Arg | lib/src/command/mod.rs:36-38 | `arg(i)` is Some exactly when there are arguments and more than `i` of them, and then it is the `i`-th |
| LegacyCommandRequest.Key | lib/src/command/mod.rs:48-50 | `key` is argument 0 |
| LegacyCommandRequest.FoldExtend | lib/src/command/mod.rs:41-45 | the fold leaves the accumulator followed by every argument in order |
| LegacyCommandRequest.FlattenArgs | lib/src/command/mod.rs:40-46 | `flatten_args` is None exactly when there are no arguments, and otherwise every argument, the key included, one after another |
| LegacyCommandRequest.FlattenedHoldsArg | lib/src/command/mod.rs:36-46 | the flattened arguments hold each argument in place, after the ones before it and before the ones after it |
| LegacyCommandRequest.KeyLeadsFlattened | lib/src/command/mod.rs:40-50 | the key leads the flattened arguments |
| LegacyRequests.New | lib/src/command/request.rs:18-24 | `Request::new` keeps the command and the arguments and has no key type |
| LegacyRequests.NewWithType | lib/src/command/request.rs:26-32 | `Request::new_with_type` keeps the command, the arguments and the key type given |
| LegacyRequests.Arg | lib/src/command/request.rs:38-47 | `arg` with an index is Some exactly when there are arguments and more than the index, and then it is that argument |
| LegacyRequests.ArgRange | lib/src/command/request.rs:38-47 | `arg` with a range is Some exactly when there are arguments and the range lies within them, and then it holds, in order, the argument at each index of the range |
| LegacyRequests.FlattenArgs | lib/src/command/request.rs:49-63 | `flatten_args` is Some exactly when there are arguments and, for a keyed command, at least one |
| LegacyRequests.Key | lib/src/command/request.rs:65-73 | `key` is Some exactly when the command has a key and there is a first argument, and then it is that argument |
| LegacyRequests.KeyThenFlattened | lib/src/command/request.rs:49-73 | a keyed request's arguments, one after the other, are its key followed by what `flatten_args` gives; without a key, `flatten_args` is every argument |
| LegacyRequests.FlattenGrows | lib/src/command/request.rs:49-63 | more arguments after the key extend the flattened bytes by exactly their own bytes |
| LegacyRequests.NewContext | lib/src/command/request.rs:312-321 | a new context has an empty pool that makes empty buffers, an empty argument list, position 0 and the first stage |
| LegacyRequests.StageInit | lib/src/command/request.rs:183-220 | an empty buffer gives Incomplete with nothing changed; a first byte with its top bit set is refused as a key type, since half of it is never a key type code; a byte that is no command id is refused as one; `stats` finishes at once with no arguments and no key type |
| LegacyRequests.CommandByte | lib/src/command/request.rs:202-219 | an unknown id is refused; a simple command finishes with the stage back at Init; any other moves to the count stage one byte on, keeping the key type |
| LegacyRequests.StageKind | lib/src/command/request.rs:222-241 | with no byte at the position the context is kept and the result is Incomplete; otherwise that byte becomes the argument count and the position moves one on |
| LegacyRequests.PushArg | lib/src/command/request.rs:293-305 | the argument is appended to the list, or starts a new one when the list was handed out |
| LegacyRequests.StageArguments | lib/src/command/request.rs:243-279 | until the length prefix and the argument lie within the buffer nothing changes; then a buffer pulled from the pool, extended by the argument, is appended, the position moves past prefix and argument, and the request finishes, taking the arguments, exactly when as many were collected as the count says |
| LegacyRequests.Step | lib/src/command/request.rs:152-160 | each stage that moves on leaves less of the buffer to go through, and one that runs out keeps the context |
| LegacyRequests.Feed | lib/src/command/request.rs:143-168 | `feed` returns the first refusal with the context as it was, and otherwise steps until a request finishes or the buffer runs out |
| LegacyRequests.Reset | lib/src/command/request.rs:170-309 | `reset` goes back to the first stage at position 0 with an empty argument list, and returns each argument's buffer, emptied, to the pool after those it held |
| LegacyRequests.ClearedKept | lib/src/command/request.rs:170-321 | every buffer the pool hands out is empty: for a new context, after a pull, and after a reset |
| LegacyRequestParsing.FeedNext | lib/src/command/request.rs:162-166 | a stage that concludes Next leaves the outcome of `feed` to the stages after it |
| LegacyRequestParsing.FeedFinished | lib/src/command/request.rs:162-163 | a stage that finishes a request makes `feed` return it |
| LegacyRequestParsing.FeedRefusesTopBit | lib/src/command/request.rs:194-200 | a first byte with its top bit set makes `feed` return KeyTypeInvalid, whatever follows, with the context kept |
| LegacyRequestParsing.FeedRefusesUnknown | lib/src/command/request.rs:202 | any other first byte that is no command id makes `feed` return CommandIdInvalid with the context kept |
| LegacyRequestParsing.FeedSimple | lib/src/command/request.rs:206-214 | a buffer starting with `stats` gives the request of `stats` with no arguments and no key type |
| LegacyRequestParsing.FeedEmpty | lib/src/command/request.rs:148-187 | a new context fed an empty buffer gives nothing yet and stays as it was |
| LegacyRequestParsing.Encoded | lib/src/command/request.rs:332-341 | a request's bytes start with the command id and the argument count |
| LegacyRequestParsing.HeaderSteps | lib/src/command/request.rs:183-241 | from a ready context the two header bytes of a command that is not simple lead to the argument stage at position 2 with that count and no key type |
| LegacyRequestParsing.ShortHeaderWaits | lib/src/command/request.rs:228-253 | a command that is not simple whose buffer ends before its first length prefix is whole gives nothing yet |
| LegacyRequestParsing.AfterArgument | lib/src/command/request.rs:259-266 | after an argument the stage is kept and the argument is appended to those collected |
| LegacyRequestParsing.ArgumentRead | lib/src/command/request.rs:250-279 | one framed argument is read with the length its prefix gives: the bytes taken begin at the prefix or after it, as the slicing says, and the request finishes exactly when the count is reached |
| LegacyRequestParsing.TakenAfterPrefix | lib/src/command/request.rs:255-257 | sliced after its prefix, a framed argument is read back as itself |
| LegacyRequestParsing.LastArgumentFed | lib/src/command/request.rs:266-275 | the last argument finishes the request with every argument collected and the key type of the stage |
| LegacyRequestParsing.ArgumentNext | lib/src/command/request.rs:266-278 | an argument that is not the last, sliced after its prefix, moves the parser to the next with that argument collected |
| LegacyRequestParsing.ArgumentFed | lib/src/command/request.rs:143-278 | the outcome of `feed` is that of the context after the argument |
| LegacyRequestParsing.FeedStep | lib/src/command/request.rs:143-168 | while several framed arguments are still to come, the outcome of `feed` is that of the context after the first |
| LegacyRequestParsing.CollectingStep | lib/src/command/request.rs:250-278 | reading one of several framed arguments leaves a context collecting the others, with the same whole list |
| LegacyRequestParsing.OnlyArgumentRead | lib/src/command/request.rs:266-275 | the one framed argument still to come finishes the request with all of them |
| LegacyRequestParsing.ArgumentsRead | lib/src/command/request.rs:143-279 | any number of framed arguments still to come, sliced after their prefixes, are all read back and finish the request |
| LegacyRequestParsing.FeedEncoded | lib/src/command/request.rs:143-279 | a ready context reads a request's bytes back to that request, whatever follows them, when arguments are sliced after their prefixes |
| LegacyRequestParsing.ReadyAfterReset | lib/src/command/request.rs:170-321 | a new context is ready for a request, and so is any context after a reset |
| LegacyRequestParsing.OneArgumentAsWritten | lib/src/command/request.rs:257 | as the source slices it, a request's one argument is the bytes from its length prefix on, as many as the argument is long |
| LegacyRequestParsing.FooAsWrittenAndMeant | lib/src/command/request.rs:330-364 | the source's test request, `increment` with "foo", parses to the argument [0, 0, 0] as written and to "foo" as the framing means |
| LegacyProtocol.NewContext | lib/src/command/protocol.rs:44-51 | a new context has a pool holding one empty buffer, an empty argument list, position 0 and the first stage |
| LegacyProtocol.ResetLight | lib/src/command/protocol.rs:143-146 | `reset_light` puts the position back to 0 and the stage back to the start, keeping pool and arguments |
| LegacyProtocol.Reset | lib/src/command/protocol.rs:131-141 | `reset` goes back to the start with an empty argument list, and pushes each argument's buffer, emptied, onto the pool after those it held |
| LegacyProtocol.StageInit | lib/src/command/protocol.rs:63-80 | the first byte is refused, with the context kept, exactly when it is no command id |
| LegacyProtocol.StageKind | lib/src/command/protocol.rs:81-89 | reading the count panics exactly when the position is at or past the buffer's end |
| LegacyProtocol.StageArguments | lib/src/command/protocol.rs:90-109 | a length prefix past the buffer's end panics; a pass that goes on has read the prefix, had the length's worth of bytes from the prefix on, moved past prefix and argument and kept the stage |
| LegacyProtocol.Step | lib/src/command/protocol.rs:54-111 | a pass that goes round again leaves less to read and is no longer at the start; only the first pass refuses, keeping the context; a command without arguments is a simple one and one with arguments has at least one |
| LegacyProtocol.Run | lib/src/command/protocol.rs:54-128 | a refusal leaves the context as it was; a command handed out without arguments is simple, and one with arguments has at least one |
| LegacyProtocol.Feed | lib/src/command/protocol.rs:53-129 | an empty buffer waits with the context kept; a refusal keeps the context; a command handed out without arguments is simple, and one with arguments has at least one |
| LegacyProtocolParsing.RunContinue | lib/src/command/protocol.rs:54-111 | a pass that goes round again leaves the outcome to the passes after it |
| LegacyProtocolParsing.NewPoolPull | lib/src/command/protocol.rs:46-100 | a new context's pool hands out its one empty buffer and is left empty |
| LegacyProtocolParsing.RunStop | lib/src/command/protocol.rs:54-128 | a pass that returns ends the loop with what it returns |
| LegacyProtocolParsing.ArgumentContinues | lib/src/command/protocol.rs:90-109 | an argument pass that is not the last appends a pulled buffer holding the length's worth of bytes from the prefix on and moves past prefix and argument |
| LegacyProtocolParsing.ArgumentEnds | lib/src/command/protocol.rs:104-125 | the argument pass whose argument count, cast to `u8`, meets the count hands out the command with every argument, the stage back at the start and the position left where it is |
| LegacyProtocolParsing.FeedRefuses | lib/src/command/protocol.rs:63-65 | a first byte that is no command id is refused, whatever follows, with the context kept |
| LegacyProtocolParsing.FeedSimple | lib/src/command/protocol.rs:69-76 | `stats` is handed out on its one byte, without arguments, after `reset_light` |
| LegacyProtocolParsing.HeaderPasses | lib/src/command/protocol.rs:63-89 | from a new context the two header bytes of a command that is not simple lead to the argument stage at position 2 with that count |
| LegacyProtocolParsing.ShortHeaderPanics | lib/src/command/protocol.rs:82-92 | a command that is not simple whose buffer ends before its first length prefix is whole reads past the buffer's end |
| LegacyProtocolParsing.LastArgumentTaken | lib/src/command/protocol.rs:92-125 | the last argument, framed at the position, is taken as the length's worth of bytes starting at the prefix, and the command is handed out |
| LegacyProtocolParsing.OneArgumentRun | lib/src/command/protocol.rs:53-128 | a request of one framed argument is handed out with the length's worth of bytes from index 2, where the prefix is |
| LegacyProtocolParsing.OneArgumentAsWritten | lib/src/command/protocol.rs:99 | as the source slices it, a request's one argument is the bytes from its length prefix on, as many as the argument is long |
| LegacyProtocolParsing.FooExample | lib/src/command/protocol.rs:154-185 | the source's test request, `increment:int` with "foo", is handed out as `increment:int` with [0, 0, 0] as its argument and the position left at 9 |
| LegacyProtocolParsing.FooAgain | lib/src/command/protocol.rs:53-146 | fed the same bytes again without a reset the context reads past the buffer's end; a reset with the arguments handed back makes it new again |
| LegacyProtocolParsing.ResumedArgument | lib/src/command/protocol.rs:90-128 | the context waiting at an argument's prefix, given the whole request, hands it out with the argument taken from the prefix on |
| LegacyProtocolParsing.ResumeExample | lib/src/command/protocol.rs:53-178 | a request cut inside its argument waits with the context at the argument's prefix, and that context, fed the whole request, ends as a new one would |
| LegacyProtocolParsing.ZeroCountReadsOn | lib/src/command/protocol.rs:106-108 | a count of zero is not met after one argument, so the parser reads on, here past the buffer's end |

## Left out

- Socket, TCP and stdin loops, the async client backends and the future wrappers: they are I/O. The model starts from the bytes that arrive and ends at the bytes written back.
- The pubsub channel objects and the `KeyUpdate` messages: these are async channels. The registry keeps session ids and keys in their place.
- Concurrency and sharing (DashMap shards, `Arc` and `Weak`): maps and sets are plain Dafny values. A dropped `Metrics` instance is an `alive` flag on the handle.
- Floating point.
  - A float is kept as its 64-bit pattern.
  - Float equality in the earlier crate's `Object` is the `floatEq` parameter of `LegacyState.Equal`.
  - The float branch of increment and decrement is the `FloatArith` parameter of the handlers.
  - `write_float`, `stage_float`, `into_float` and the `f64` argument converter perform no arithmetic in the model, so only their framing is modelled.
- `monotonic_time`: a `clock_gettime` call into the C library. Every timer operation that reads the clock takes the time as a parameter. Successive readings are only required to be monotone.
- The legacy dispatch handlers (lib/src/command/impl) and the engine's `stats` placeholder: the first are near-copies of the engine handlers with signatures that do not fit the earlier crate's `Request`. The second always answers the string "Pong!" (`Handlers.Stats`).
- `Handlers.Get` and `Handlers.Type`: modelled, but no command id reaches them, because the engine's command table has no `get` or `type` entry. `Engine.Route` routes the fourteen ids that exist.
- `Engine.Route`: `Hop::dispatch` as written has no arm for `keys`, so it would not compile against the command table. The model routes `keys` to its handler.
- The request that `cli/lib/src/parse.rs` builds with `Request::new(cmd, args)`: that constructor is not part of this model, because the engine's `Request` has no such constructor. `Cli.Parse` returns the command and its arguments.
- `cli/src/input.rs` looks names up in the earlier crate's `CommandId`, the `:int` names (`LegacyCommandIds`), and builds that crate's request.
- The earlier crate's key type is not part of this model. The engine's `KeyType` table stands in for it.
- `Errors.Code`: the handlers use error variants that `error.rs` does not declare. The model numbers them from 5 upward, after the five declared codes, which keep 0 to 4.
- `LegacyState.Reserve`: how far the allocator grows a buffer is a parameter.
- `Handlers.ChangeInteger`: the unchecked `*int += amount` is modelled as the two's complement wrap-around of a release build (`Bytes.WrapI64`). A debug build panics on overflow instead, and that panic is not modelled.
- `Metrics.Bumped`: the counter's `+= 1` is modelled as the wrap-around at 2^64 of a release build. A debug build panics on overflow instead, and that panic is not modelled.
- `ResponseDecoder.StageBytes`: its `debug_assert_ne!(len, 0)` and `debug_assert_eq!(self.idx, 5)` are not checked, as in a release build. An empty bytes payload therefore decodes to empty bytes (`ResponseRoundTrip.BytesDecodes`). A debug build panics on it instead.
- What follows a panic that unwinds out of `Hop::dispatch`: the connection task that dies with it and the response that is never written are I/O. `Engine.Dispatch` ends in `Engine.Unwound`, with the keyspace as the handler left it and no counter bumped.
- `Handlers.Set`, `Handlers.Length`, `Handlers.Append`: these files come from different revisions of the engine.
  - `set` and `length` insert a default through `key_or_insert_with`.
  - `append` reads the stored kind.
  - Each is modelled as its own file calls the keyspace.
- `RequestBuilders`: `builder.rs` builds a request of argument list, key type and kind. `request/mod.rs` declares one of buffer, positions, key type and kind. The builder's `From<Request>` is modelled on the first.
- `LegacyResponses.FromInt`: the unit test at lib/src/command/mod.rs:114-121 expects the eight bytes without a newline. The constructor adds one, and the model follows the constructor (`LegacyResponses.FromIntExamples`).
- The `debug_assert` on an empty key in the engine's keyspace: release builds skip it, and the model does too.
- `Timer.ParseTimespec`: only the clamping arithmetic is modelled. The `timespec` comes in as two integers.
- The benchmarks and the commented-out lib/src/state/do.rs.

## Findings

| source | as written | input that shows it | evidently intended | confidence | as-written member | corrected member |
|---|---|---|---|---|---|---|
| engine/src/command/request/context.rs:176 | the argument is complete once `idx + len` bytes are there, which ignores its 4-byte length prefix | `[0, 1, 0, 0, 0, 3, 'f', 'o']`: `increment` with "fo" of a 3-byte argument is handed out as finished | wait until `idx + 4 + len` bytes are there | not executed | RequestFindings.TruncatedAcceptedAsWritten | RequestFindings.TruncatedWaits |
| engine/src/command/request/context.rs:177 | the position recorded is `idx + len`, three short of the argument's last byte, which `arg` expects | `[0, 1, 0, 0, 0, 3, 'f', 'o', 'o']` records 5, and `arg(0)` reads an empty argument | record `idx + 3 + len`, so `arg(0)` is "foo" | not executed | RequestFindings.PositionShortAsWritten | RequestFindings.PositionOfFoo |
| engine/src/command/request/context.rs:88-97 | `reset()` clears the positions before the returned `Request` borrows them | any finished request: its key is None and `args` is None | hand the positions to the request, then reset | not executed | RequestFindings.DoneWithoutPositionsAsWritten | RequestParsing.FeedEncodedArgs |
| engine/src/command/request/context.rs:116-122 | the key type is read as `byte >> 1` of the command byte, which is always at least 64, so every keyed request is refused | `[128, 3, 1, 0, 0, 0, 3, 'k', 'e', 'y']`: `increment` keyed Integer gives KeyTypeInvalid | take the command from the low seven bits and the key type from the next byte, as the request encoder writes it | not executed | RequestFindings.KeyedRefusedAsWritten | RequestFindings.KeyedAccepted |
| engine/src/command/request/context.rs:162-189 | argument parsing always reads an argument before comparing the count, so a count of zero is never reached; 257 empty arguments overflow the position array | `[0, 0]`, `increment` with a count of zero, is never finished, whatever follows; 1030 zero bytes panic the parser | a count of zero finishes the request on its count byte | not executed | RequestFindings.ZeroCountRequestAsWritten, RequestFindings.ZeroCountPanicsAsWritten | RequestFindings.ZeroCountRequest, RequestStreaming.NeverPanics |
| engine/src/command/request/builder.rs:156-169 | the overfill check counts `map.len()`, but each entry pushes two arguments | a builder holding 250 arguments given a 5-entry map: the check passes, 5 arguments are pushed and then TooManyArguments | check `2 * map.len()`, so the map is pushed whole or not at all | not executed | RequestBuilders.AddMapAsWritten, RequestBuilders.MapOverfillsAsWritten | RequestBuilders.AddMap, RequestBuilders.MapAllOrNothing |
| engine/src/state/value.rs:203-205 | `is_string` matches `Value::Boolean` | `Value::string()` answers false and `Value::boolean()` answers true | match `Value::String` | not executed | Values.IsStringAsWrittenMisreports | Values.IsString |
| engine/src/pubsub/manager.rs:43-44 | when the key's subscriber set already exists, the new session is not added to it and the result is None | session 1 then session 2 subscribe to the same key: the set holds only session 1 | add the session to the existing set and return its subscription | not executed | PubSub.SecondSubscriberUnrecordedAsWritten | PubSub.SecondSubscriberRecorded |
| lib/src/command/request.rs:257 | the argument is sliced from the start of its length prefix, not after it | `[0, 1, 0, 0, 0, 3, 'f', 'o', 'o']` gives the argument `[0, 0, 0]` | slice from `idx + 4` | not executed | LegacyRequestParsing.OneArgumentAsWritten, LegacyRequestParsing.FooAsWrittenAndMeant | LegacyRequestParsing.FeedEncoded |
| lib/src/command/protocol.rs:99 | the argument is sliced from the start of its length prefix, not after it | `[0, 1, 0, 0, 0, 3, 'f', 'o', 'o']` gives the argument `[0, 0, 0]` | slice from `idx + 4` | not executed | LegacyProtocolParsing.OneArgumentAsWritten, LegacyProtocolParsing.FooExample | LegacyRequestParsing.FeedEncoded |
| lib/src/command/protocol.rs:82-92 | the count byte and the length prefix are indexed without checking the buffer's length | `[0, 1, 0]`: `increment:int` cut inside its length prefix panics | return `Ok(None)` and wait for more bytes, as lib/src/command/request.rs does | not executed | LegacyProtocolParsing.ShortHeaderPanics | LegacyRequestParsing.ShortHeaderWaits |
