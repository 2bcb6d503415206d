# Verified model of the Harbor server core

A Dafny model of the core of Harbor, an HTTP server inside a DuckDB process, and proofs about it:

* the `/sql` JSON codec: the output-only writer with its single comma flag, the typed value
  encoder, the hand-written scanner, the request parser, the typed parameter decoder with its
  `{"type": ..., "value": ...}` wrapper, and the parser of type strings;
* the Quack PREPARE/FETCH stream: one server session, any number of client scan threads;
* query execution: the guard, the timeout sweeper and `InterruptSession` on shared atomics, the
  NDJSON content provider they drive, and the row caps;
* the server's life: drain before destroy, generations of start and stop, the dispatcher of
  server-sent events, and the signed cookie with its base64url segments.

`dafny verify dfyconfig.toml` checks the whole project.

## How it is built

Bytes are integers 0..255 and texts are sequences of them. Code that updates variables in a loop is
a method proved equal to a function of its inputs; an object whose methods update its fields is a
class whose methods state its whole new state. The promises are lemmas about those functions.

JSON texts are syntax trees (`JsonSyntax`) that keep the whitespace and the spelling of every
string, so one lemma about a tree speaks of every text that stands for it. The round trip goes
through them: the encoder writes the text of a tree (`ChunkEncoder`), the decoder computes the
meaning of a tree wherever its text stands (`JsonMeaning`), and the meaning of a value's tree is
that value (`ValueRoundTrip`). Type strings are treated the same way (`TypeRoundTrip`).

A round trip does not see a table that both directions share, so tables and constants are said once
more, by the characters themselves: `Characters` for the tests on bytes, `TypeNames` for the type
names, `WireFormat` for the text of every value and record, `ScalarParams` and `ParamRules` for what
a parameter is worth, and the RFC 4648 alphabet in `Base64Url`.

Protocols are machines over values: a state, the actions enabled in it, and what each does. A step
is what happens under one lock, or one access to an atomic. The proof-only parts of a state (owners
of batches, loads of a sweep, messages since a wait began) never influence a step.

What is not in the repository is a parameter: conversions and the assembly of nested values belong
to a `Database`, the MAC is a function, time, randomness and the network are arguments of a step.

| file | what it models |
|---|---|
| `Bytes`, `Utf8`, `JsonSyntax`, `Characters` | bytes, UTF-8, JSON texts as trees, and which characters each test accepts |
| `JsonWriting`, `ChunkEncoder`, `WireFormat` | the writer, the value encoder and the records, and their texts spelled out |
| `JsonScan`, `RequestBody` | the scanner and the request parser |
| `Types`, `TypeParser`, `TypeNames`, `TypeRoundTrip` | types, type strings, the table of names, spellings |
| `ParamDecoder`, `JsonMeaning`, `ValueRoundTrip` | the decoder, what it computes, the typed round trip |
| `ParamList`, `ParamRules`, `ScalarParams` | the params of a request as a whole, when arrays and objects are accepted, what scalars are worth |
| `QuackServer`, `QuackScan` | the session and the parallel scan |
| `QueryGuard`, `Streaming`, `RowCaps` | guard and sweeper, the provider, the caps |
| `Drain`, `ServerState`, `EventDispatcher` | teardown, generations, the dispatcher |
| `Base64Url`, `Cookie` | the codec and the cookie |

## Where a promise does not hold as stated

* Typed round trip. A STRUCT whose text contains both `"type"` and `"value"` is taken for a wrapper,
  a UNION is written as an object that no type but STRUCT accepts, and so is an INTERVAL.
  `ValueRoundTripsExactly` shows that the first two are exactly what breaks the round trip of a type
  without INTERVAL; `LookalikeIsUnwrapped`, `TaggedIsRefused` and `IntervalIsRefused` give the
  inputs. Two things are asked of the database: that it reads its own text forms (it does not for
  BLOB, whose text is base64), and, for the half that says "only then", that conversion makes no
  nested value out of another value. DuckDB does make one out of a string cast to LIST, STRUCT or
  MAP, so that half speaks of an idealized database.
* The header of the query guard says that a stale sweep can never hit the next query. The sweep loads
  the deadline before the generation and interrupts later still, so it can. `MisreportIff` and
  `UnexplainedIff` say in which sessions, in terms of the timeouts its queries were given: a query can
  be reported as TIMEOUT although its own deadline is ahead, or none, if and only if an earlier query
  of the session had a timeout; it can be interrupted while its guard knows no cause if and only if
  that is so or the session is cancelled at some time. `StaleSweepMarksNextQuery`,
  `StaleInterruptHitsNextQuery` and `TornCancelHitsQuery` are the runs, from any moment at which the
  session is free. `InterruptedStreamEndsIff` carries the second condition over to streams: then, and
  only then, an interrupted stream can end with an end record. `InterruptsAreClassified` says what
  holds when a sweep of a session and an InterruptSession are not torn apart.
* Exactly-once scan. Under a uuid that nobody else fetches and no later PREPARE draws, a scan that ends
  without an error has the whole result of a query that did not fail if and only if no refused PREPARE
  came while something of the result was left (`ScanIsExact`); with one batch size for PREPARE and
  every FETCH, that size must be positive as well, unless there was nothing to deliver
  (`ConstantBatchSize`). `BatchSizeZeroLosesRows` and `RefusedPrepareLosesRows` are inputs.
* The guard's destructor is documented to clear the deadline and the in-flight flag only while they
  belong to its own generation; the code clears them unconditionally, and the model does as the code.

## Model

| member | source | states |
|---|---|---|
| `Utf8.ValidateUtf8Exact` | src/sql_json_writer.cpp:19-82 | the validator answers n > 0 at a position exactly when the encoding of a Unicode scalar value, n bytes long, stands there (section 4 of RFC 3629) |
| `Utf8.WellFormedExact` | src/sql_json_writer.cpp:19-82 | a byte string is accepted from end to end exactly when it is a concatenation of encoded scalar values |
| `Utf8.SanitizedProperties` | src/sql_json_writer.cpp:281-350 | replacing each byte that starts no valid sequence by U+FFFD gives valid UTF-8, and leaves a text unchanged exactly when it was valid |
| `Characters.EncodingTable` | src/sql_param_decoder.cpp:48-66 | the UTF-8 encoder against the table of section 3 of RFC 3629: length, marker bits and payload of every scalar value |
| `Characters.InvalidByteIsReplaced` | src/sql_json_writer.cpp:281-350 | a byte that starts no valid sequence becomes the encoding of U+FFFD |
| `Characters.CaseFolds` | src/sql_param_decoder.cpp:893-900 | case folding maps each small letter to its capital and back and leaves every other byte alone |
| `Characters.LettersAndDigits` | src/sql_param_decoder.cpp:232-258 | what counts as a letter and as a digit, by the characters |
| `Characters.Blanks` | src/sql_param_decoder.cpp:507-516 | insignificant whitespace is space, tab, newline and return; a type string adds vertical tab and form feed |
| `Characters.BracketsAndCommas` | src/sql_param_decoder.cpp:324-326 | the special characters of a type string are < > ( ) and the comma |
| `Characters.NumberBytes` | src/sql_param_decoder.cpp:814-826 | a number token is made of digits and + - . e E |
| `Characters.ShortEscapes` | src/sql_param_decoder.cpp:550-574 | each short escape of section 7 of RFC 8259 and the byte it stands for; no other letter is one |
| `Characters.HexDigits` | src/sql_param_decoder.cpp:37-46 | the value of a hexadecimal digit in either case; no other byte is one |
| `Characters.HexCodeReads` | src/sql_param_decoder.cpp:575-593 | four hexadecimal digits are read with the most significant first |
| `JsonWriting.StringRoundTrip` | src/sql_json_writer.cpp:281-350 | what WriteEscapedString writes for any byte string, ParseString reads back as that string sanitized (itself exactly when valid), and stops at its closing quote |
| `JsonWriting.EscapedMeaning` | src/sql_json_writer.cpp:281-350 | the escape loop emits a well-formed literal (section 7 of RFC 8259) that stands for the sanitized string |
| `JsonWriting.EscapedClean` | src/sql_json_writer.cpp:281-350 | the text between the quotes is valid UTF-8 with no byte below 0x20 |
| `JsonWriting.JsonWriter.WriteEscapedString` | src/sql_json_writer.cpp:281-350 | the loop appends exactly the literal of the string and touches nothing but the buffer |
| `JsonWriting.EscapePiece` | src/sql_json_writer.cpp:284-348 | the body of the escape loop: what is appended for the bytes at a position, and how many bytes are consumed |
| `WireFormat.EscapeForms` | src/sql_json_writer.cpp:288-334 | which escape each ASCII byte gets: none, the short one, or backslash-u 00 and two lowercase digits |
| `JsonWriting.CompactIsOneLine` | src/sql_json_writer.cpp:281-350 | the text of any tree the writer can print is one line of valid UTF-8 |
| `JsonWriting.JsonWriter.EmitBeforeValue` | src/sql_json_writer.cpp:105-125 | BeforeValue: comma in an array unless first, OBJECT_VALUE back to OBJECT_KEY; the whole new state |
| `JsonWriting.JsonWriter.EmitBeforeKey` | src/sql_json_writer.cpp:127-135 | BeforeKey: comma unless first, nothing outside an object |
| `JsonWriting.JsonWriter.BeginObject` | src/sql_json_writer.cpp:137-142 | the new state is the old one with BeginObject applied |
| `JsonWriting.JsonWriter.EndObject` | src/sql_json_writer.cpp:144-153 | the new state is the old one with EndObject applied, nothing with no open container |
| `JsonWriting.JsonWriter.BeginArray` | src/sql_json_writer.cpp:155-160 | the new state is the old one with BeginArray applied |
| `JsonWriting.JsonWriter.EndArray` | src/sql_json_writer.cpp:162-169 | the new state is the old one with EndArray applied |
| `JsonWriting.JsonWriter.Key` | src/sql_json_writer.cpp:178-183 | comma, literal, colon, and the frame awaits a value |
| `JsonWriting.StepRefines` | src/sql_json_writer.cpp:105-183 | each call keeps the refinement: the one-flag buffer is the print of the open and finished trees, every frame matches its container, the flag is right about the innermost one |
| `JsonWriting.OneFlagIsEnough` | src/include/sql_json_writer.hpp:138-146 | after any protocol-respecting sequence of calls the buffer is the compact print of the trees the calls describe: one first_in_frame flag refines one flag per frame |
| `JsonWriting.FinishedText` | src/sql_json_writer.cpp:97-103 | calls that describe one finished value leave exactly its text |
| `JsonScan.SkipWhitespace` | src/sql_param_decoder.cpp:507-516 | stops at the first byte that is not space, tab, newline or return |
| `JsonScan.ParseString` | src/sql_param_decoder.cpp:528-604 | the loop computes the string function, escapes and error cases included, for every text |
| `JsonScan.StringAgrees` | src/sql_param_decoder.cpp:528-604 | any well-formed literal is read as the bytes it stands for, up to its closing quote; the raw scan ends at the same quote |
| `JsonScan.StringBodyOnlyLiterals` | src/sql_param_decoder.cpp:535-602 | the converse: whatever ParseString accepts is a well-formed literal standing at that place |
| `JsonScan.ParseRawValue` | src/sql_param_decoder.cpp:606-691 | the scan of a raw value: strings, brackets with strings skipped, bare tokens |
| `JsonScan.ParseRawContainer` | src/sql_param_decoder.cpp:635-672 | the loop with its string flag finds the bracket at which the count of one bracket kind returns to zero |
| `JsonScan.RawValueAgrees` | src/sql_param_decoder.cpp:606-691 | at any JSON value, whatever its whitespace, the raw scan returns exactly that value and its end although it counts one bracket kind; only bare tokens need a delimiter behind them |
| `TypeParser.NormalizeWhitespace` | src/sql_param_decoder.cpp:322-352 | the normalizing loop computes Normalize |
| `TypeParser.FindMatchingBracket` | src/sql_param_decoder.cpp:180-195 | the loop finds the bracket at which the joint depth returns to zero |
| `TypeParser.SplitTopLevelCommas` | src/sql_param_decoder.cpp:199-227 | the loop splits at the commas outside all brackets and trims the parts |
| `TypeParser.ParseLogicalType` | src/sql_param_decoder.cpp:305-501 | the recursive descent computes ParseType on every byte string, and terminates; `SpellingParses` and `BareWordExact` say what ParseType is |
| `TypeRoundTrip.SpellingParses` | src/sql_param_decoder.cpp:305-501 | every spelling, in any keyword case and with any leading zeros, its scalar names taken from a table of their own, is read as the type it denotes when it has at most 32 levels and 4096 bytes and no ARRAY of size 0, and refused otherwise |
| `TypeRoundTrip.BareWordExact` | src/sql_param_decoder.cpp:231-262 | a text without brackets and commas is read as a type exactly when, its blanks normalized and its letters capital, it stands in the table of names, and then as that type; so every other word is refused |
| `TypeRoundTrip.BadNameIsRefused` | src/sql_param_decoder.cpp:462-484 | a STRUCT field whose name is no identifier is refused, whatever type follows |
| `Characters.Identifiers` | src/sql_param_decoder.cpp:474-483 | an identifier is letters, digits and underscores with no digit in front, by the characters |
| `TypeNames.NamesExact` | src/sql_param_decoder.cpp:232-258 | the parser's chain of comparisons is the table of names: 26 canonical ones and INT, STRING, TIME WITH TIME ZONE and TIMESTAMP WITH TIME ZONE |
| `TypeRoundTrip.NegatedNumeral` | src/sql_param_decoder.cpp:418-424 | a size under a minus sign is negated modulo 2^64, as std::stoul does |
| `TypeRoundTrip.LargeNumeral` | src/sql_param_decoder.cpp:418-424 | a size that needs more than 64 bits is refused, whatever its sign |
| `TypeRoundTrip.TypeRoundTrips` | src/sql_param_decoder.cpp:305-501 | the canonical print of every LIST/ARRAY/MAP/STRUCT/DECIMAL/scalar type is read back as that type, exactly within the limits |
| `TypeRoundTrip.BlanksAreFree` | src/sql_param_decoder.cpp:310-352 | inserting whitespace next to a bracket, a parenthesis, a comma or an end of the string never changes the result |
| `TypeRoundTrip.ScalarNameRoundTrip` | src/sql_param_decoder.cpp:232-258 | the scalar names are pairwise different and each names its own type |
| `TypeRoundTrip.TextPasses` | src/sql_param_decoder.cpp:180-227 | the bracket count and the comma split both pass over a whole spelling, nested to any depth, without noticing it |
| `ParamDecoder.DecodeOneAt` | src/sql_param_decoder.cpp:765-1050 | total on every byte string; on success it has advanced and has not passed the end |
| `ParamDecoder.WrapperAt` | src/sql_param_decoder.cpp:1052-1129 | total although it recurses into an extracted text with a new type: that text is shorter than what was left |
| `ParamDecoder.WrapperMembersAt` | src/sql_param_decoder.cpp:1062-1110 | the value text it extracts is no longer than the text behind its start |
| `ParamDecoder.ParamsAt` | src/sql_param_decoder.cpp:1160-1195 | total; on success it has advanced and has not passed the end |
| `ParamDecoder.DecodeOne` | src/sql_param_decoder.cpp:765-1050 | the method computes DecodeOneAt, which `DecodeAgrees` gives on trees and the rows of `ScalarParams` on the characters of scalars |
| `ParamDecoder.DecodeObject` | src/sql_param_decoder.cpp:830-942 | wrapper detection by two substring searches, then STRUCT members by name |
| `ParamDecoder.DecodeStruct` | src/sql_param_decoder.cpp:868-929 | the member loop: unknown and repeated fields refused, the first field that matches but for case filled |
| `ParamDecoder.FieldIndex` | src/sql_param_decoder.cpp:893-900 | the first field whose name matches but for case, or none |
| `ParamDecoder.DecodeArray` | src/sql_param_decoder.cpp:943-1047 | LIST, ARRAY with its exact length, MAP as pairs; every other type refused |
| `ParamDecoder.DecodeElements` | src/sql_param_decoder.cpp:976-1017 | the element loop of LIST and ARRAY |
| `ParamDecoder.DecodePairs` | src/sql_param_decoder.cpp:976-1013 | the pair loop of MAP |
| `ParamDecoder.DecodeTypedWrapper` | src/sql_param_decoder.cpp:1052-1129 | the wrapper loop, last type and value win, then the value text decoded at the parsed type |
| `ParamDecoder.Decode` | src/sql_param_decoder.cpp:1131-1199 | trimming, loop and count check compute the function that `ParamList.ParamsDecode` characterizes |
| `ParamList.ParamsDecode` | src/sql_param_decoder.cpp:1131-1199 | for every JSON value behind any blanks, whatever follows it: the parameters are accepted exactly when it is an array with as many items as expected types (if any are expected) and each item means a value at its type, and are those values in order |
| `ParamList.RequestParams` | src/sql_param_decoder.cpp:695-761 | parser and decoder together: the verbatim text kept for the last params member decodes to what that member means |
| `ParamList.NoParams` | src/sql_param_decoder.cpp:1131-1157 | a request without params has no parameters, and is refused when some are expected |
| `ParamList.RowComesBack` | src/sql_chunk_encoder.cpp:598-613 | the array of values written for a row, sent as params with the types of its columns, is decoded as that row if and only if no cell can be mistaken |
| `Bytes.Find` | src/sql_param_decoder.cpp:838-839 | the search loop finds the needle exactly when it occurs |
| `JsonMeaning.DecodeAgrees` | src/sql_param_decoder.cpp:765-1050 | on every well-formed JSON text, whatever its whitespace, its escapes and what follows, DecodeOne computes a meaning said on trees, Mode B wrappers and refusals included; what scalars mean is said by `ScalarParams` |
| `JsonMeaning.WrapperAgrees` | src/sql_param_decoder.cpp:1052-1129 | a wrapper means the last value member read at the type the last type member spells; a type member that is no string refuses it |
| `JsonMeaning.MembersAgree` | src/sql_param_decoder.cpp:868-929 | the member loop of a STRUCT computes the fold over the members of the tree |
| `JsonMeaning.PairsAgree` | src/sql_param_decoder.cpp:976-1013 | the pair loop accepts arrays of exactly two values and nothing else |
| `ScalarParams.IntegerAtAny` | src/sql_param_decoder.cpp:108-128 | without an expected type an integer is worth its digits under its sign if that is a BIGINT, and is refused otherwise |
| `ScalarParams.NumeralAtAny` | src/sql_param_decoder.cpp:108-128 | the numeral of n is worth n exactly when n is a BIGINT |
| `ScalarParams.FractionAtAny` | src/sql_param_decoder.cpp:113-121 | a number with a point or an exponent is what std::stod makes of its text |
| `ScalarParams.NumberAtType` | src/sql_param_decoder.cpp:71-103 | with an expected type a number is converted at the integer types, FLOAT, DOUBLE and DECIMAL, and refused at every other |
| `ScalarParams.StringAtType` | src/sql_param_decoder.cpp:134-165 | a string is itself without an expected type and at VARCHAR, and is converted at every other |
| `ScalarParams.BoolAtType` | src/sql_param_decoder.cpp:784-805 | a truth value is itself without an expected type and at BOOLEAN, and is converted at every other |
| `ScalarParams.NullAtType` | src/sql_param_decoder.cpp:774-783 | null is NULL at every type |
| `ScalarParams.ArrayIsRefused` | src/sql_param_decoder.cpp:943-1047 | an array is refused at every type but LIST, ARRAY and MAP |
| `ScalarParams.WrapperText` | src/sql_param_decoder.cpp:1052-1129 | the text {"type": name, "value": j} is worth, whatever type is expected, what j means at the type the name spells |
| `ParamRules.ArrayRule` | src/sql_param_decoder.cpp:943-1047 | exactly when an array is accepted: at LIST, at ARRAY of its own length, or at MAP; each item has a meaning there; and the database makes a value of them |
| `ParamRules.EntryMeansIs` | src/sql_param_decoder.cpp:976-1013 | an entry of a MAP is an array of exactly a key and a value |
| `ParamRules.ObjectRule` | src/sql_param_decoder.cpp:830-942 | exactly when an object is accepted: with both "type" and "value" in quotes in its text it is a wrapper, the last of each counting and every type a string; otherwise a STRUCT whose members name different fields, the others NULL |
| `ChunkEncoder.EmitInteger` | src/sql_chunk_encoder.cpp:81-117 | adds the tree of an integer, which `WireFormat.IntegerForm` gives |
| `WireFormat.IntegerForm` | src/sql_chunk_encoder.cpp:70-117 | an integer is a number exactly from -9007199254740991 to 9007199254740991 and a string otherwise, and its numeral either way |
| `Types.IntegerRanges` | src/sql_chunk_encoder.cpp:418-457 | the ranges of the integer types, in decimal |
| `ChunkEncoder.EmitValue` | src/sql_chunk_encoder.cpp:414-594 | run on a writer that holds the print of any document, it leaves the print of that document with the tree of the value added, for a value of any type; the rows of `WireFormat` give the text of that tree |
| `ChunkEncoder.EmitElements` | src/sql_chunk_encoder.cpp:509-528 | the loop over LIST or ARRAY elements adds the array of their trees |
| `ChunkEncoder.EmitFields` | src/sql_chunk_encoder.cpp:529-541 | the loop over STRUCT fields, as far as there are both values and fields, adds the object of their trees |
| `ChunkEncoder.EmitEntries` | src/sql_chunk_encoder.cpp:542-558 | the loop over MAP entries adds an array of [key, value] pairs |
| `WireFormat.ScalarForms` | src/sql_chunk_encoder.cpp:414-508 | NULL, truth values, strings, and text forms, of which only a finite FLOAT or DOUBLE is a number |
| `WireFormat.ListForm` | src/sql_chunk_encoder.cpp:509-528 | the text of a LIST or ARRAY: its elements in brackets |
| `WireFormat.StructForm` | src/sql_chunk_encoder.cpp:529-541 | the text of a STRUCT: its fields in braces, in order |
| `WireFormat.MapForm` | src/sql_chunk_encoder.cpp:542-558 | the text of a MAP: an array of [key, value] pairs |
| `WireFormat.UnionForm` | src/sql_chunk_encoder.cpp:559-574 | the text of a UNION: {"tag": name, "value": value} |
| `WireFormat.IntervalForm` | src/sql_chunk_encoder.cpp:239-256 | the text of an INTERVAL: months and days as numbers, micros as a string |
| `ChunkEncoder.EmitValuesArray` | src/sql_chunk_encoder.cpp:598-605 | the loop over the columns adds the array of the cells, each at the type of its column |
| `ChunkEncoder.EmitRow` | src/sql_chunk_encoder.cpp:607-613 | the buffer is exactly the text of the row record |
| `ChunkEncoder.EmitChunk` | src/sql_chunk_encoder.cpp:615-625 | the buffer is exactly the text of the chunk record |
| `ChunkEncoder.EmitEnd` | src/sql_chunk_encoder.cpp:627-636 | the buffer is exactly the text of the end record, truncated only when asked |
| `ChunkEncoder.EmitError` | src/sql_chunk_encoder.cpp:638-645 | the buffer is exactly the text of the error record |
| `WireFormat.RowForm` | src/sql_chunk_encoder.cpp:607-613 | the text of a row record, member by member |
| `WireFormat.ChunkForm` | src/sql_chunk_encoder.cpp:615-625 | the text of a chunk record |
| `WireFormat.EndForm` | src/sql_chunk_encoder.cpp:627-636 | the text of an end record: type, rowCount, timeMs, and truncated only when true |
| `WireFormat.ErrorForm` | src/sql_chunk_encoder.cpp:638-645 | the text of an error record: type, code, message |
| `ChunkEncoder.ValueIsCompact` | src/sql_chunk_encoder.cpp:414-594 | the tree of a typed value has no insignificant whitespace and only clean strings |
| `ChunkEncoder.RecordIsOneLine` | src/sql_handlers.cpp:336-340 | a record of such members is one line of valid UTF-8 |
| `ChunkEncoder.BodySplitsIntoRecords` | src/sql_handlers.cpp:336-340 | splitting a body of row, chunk, end and error records, each with its newline, at the newlines gives back the texts of the records in order |
| `ValueRoundTrip.TreeRoundTrip` | src/sql_chunk_encoder.cpp:414-594 | decoding the tree of a value at its type gives the value if no STRUCT in it looks like a wrapper and it holds no UNION, and, when conversion builds no nested values of its own, only if |
| `ValueRoundTrip.ValueRoundTrips` | src/sql_param_decoder.cpp:765-1050 | typed round trip on texts: wherever the text written for v stands, DecodeOne at its type gives v back and stops exactly at its end |
| `ValueRoundTrip.ValueRoundTripsExactly` | src/sql_param_decoder.cpp:830-842 | the exact condition: the round trip holds if and only if no emitted STRUCT text contains both "type" and "value" in quotes and no UNION is emitted |
| `ValueRoundTrip.PlainRoundTrip` | src/sql_param_decoder.cpp:70-105 | for the database that converts by identity, by decimal parsing with a range check and by reading its own text forms nothing is assumed: every typed value comes back if and only if it is unmistakable |
| `ValueRoundTrip.TypeAndValueFieldsAreMistaken` | src/sql_param_decoder.cpp:836-841 | every STRUCT with a field called type and one called value is taken for a wrapper, whatever it holds |
| `ValueRoundTrip.LookalikeIsUnwrapped` | src/sql_param_decoder.cpp:836-841 | a concrete family that does not come back: the row (INTEGER, 7) with columns type and value is decoded as 7 |
| `ValueRoundTrip.TaggedIsRefused` | src/sql_param_decoder.cpp:845-850 | the object written for a UNION is refused at every type but STRUCT |
| `ValueRoundTrip.IntervalIsRefused` | src/sql_param_decoder.cpp:845-850 | the object written for an INTERVAL is refused at its own type |
| `ValueRoundTrip.MeaningWithin` | src/sql_param_decoder.cpp:765-1050 | no text is decoded into a value nested deeper than the text |
| `ValueRoundTrip.EncodeThenDecode` | src/sql_param_decoder.cpp:765-1050 | the encoder and the decoder, back to back, return the value and the length of the text |
| `RequestBody.ParseRequest` | src/sql_param_decoder.cpp:695-761 | the loop computes the request function on every byte string |
| `RequestBody.RequestKeys` | src/sql_param_decoder.cpp:735-754 | the members that matter are called sql, sessionId and params |
| `RequestBody.RequestRoundTrip` | src/sql_param_decoder.cpp:695-761 | for an object with members in any order, any unknown keys, any whitespace and anything behind it: accepted exactly when the sql and sessionId members are strings and the last sql is nonempty, with the last sql, the last sessionId and the verbatim params text |
| `QuackServer.CreateBatch` | src/quack/quack_server.cpp:97-114 | the loop computes the batch: nonempty chunks until full, end or error |
| `QuackServer.BatchTakesPrefix` | src/quack/quack_server.cpp:97-114 | a batch without error and the rest make up what there was, in order; it is full unless the end was reached; an error empties it |
| `QuackServer.MoreMeansOpen` | src/quack/quack_server.cpp:225-242 | PREPARE says there is more exactly when the result is still open; when it says there is not, the whole of a query that did not fail has been handed out |
| `QuackServer.HarborSession.HandlePrepare` | src/quack/quack_server.cpp:194-242 | PREPARE, once the session has been looked up, changes it as its function says: a refused query drops the result and keeps the uuid |
| `QuackServer.HarborSession.HandleFetch` | src/quack/quack_server.cpp:244-280 | FETCH, once the session has been looked up, changes it as its function says: only an answered batch consumes an index |
| `QuackServer.ResultIsolation` | src/quack/quack_server.cpp:202-279 | over any interleaving with fresh uuids, what is delivered under a uuid is a prefix of the one query whose PREPARE drew it, and its batch indices are 1, 2, 3, ... without gap or repeat |
| `QuackScan.GlobalState.TryGetResults` | src/quack/quack_scan.cpp:161-164 | the PREPARE chunks go to the first thread that asks, once |
| `QuackScan.LocalState.NextChunk` | src/quack/quack_scan.cpp:298-321 | pops the next chunk that has rows and drops only chunks without rows; with rows in front it is the machine's step Emit |
| `QuackScan.LocalState.Refill` | src/quack/quack_scan.cpp:331-341 | an answer without chunks ends the scan for all, one with chunks becomes the queue under its index: the machine's step Receive |
| `QuackScan.StepKeeps` | src/quack/quack_scan.cpp:277-346 | every step of every thread and of the server keeps: each batch is owned by one thread, and what that thread emitted and still holds under its index is that batch |
| `QuackScan.StepConserves` | src/quack/quack_scan.cpp:277-346 | until a request fails or a refused PREPARE drops the rest, the batches handed out and the server's rest are the query's chunks, and nobody is told the end before the rest is empty and the query is known not to fail |
| `QuackScan.ScanIsExact` | src/quack/quack_scan.cpp:277-355 | in every interleaving of any number of threads, under a uuid nobody else uses and with positive batch sizes, once all have ended without error: the PREPARE chunks at index 0 and the batches in index order are exactly the chunks of a query that did not fail, if and only if no refused PREPARE came while something of the result was left |
| `QuackScan.ConstantBatchSize` | src/quack/quack_server.cpp:225-280 | with one batch size for PREPARE and every FETCH: a clean end has the whole result if and only if the size is positive and nothing was dropped, or there was nothing to deliver |
| `QuackScan.BatchIndexNeverDecreases` | src/quack/quack_scan.cpp:340-355 | each thread reports its chunks under indices that never decrease, whatever fails or is dropped |
| `QuackScan.BatchSizeZeroLosesRows` | src/quack/quack_server.cpp:233-241 | with a batch size of 0 PREPARE says there is more and the first FETCH looks like the end: the rows are lost |
| `QuackScan.RefusedPrepareLosesRows` | src/quack/quack_server.cpp:203-220 | a refused PREPARE drops an open result and keeps its uuid: the next FETCH looks like the end and the rows are lost |
| `QueryGuard.QueryExecutionGuard.constructor` | src/harbor_query_timeout.cpp:70-98 | a new generation, the cause cleared, deadline armed and in-flight set: the machine's four construction steps in order |
| `QueryGuard.QueryExecutionGuard.Destroy` | src/harbor_query_timeout.cpp:100-114 | clears deadline and in-flight only, nothing when moved from: the machine's two release steps |
| `QueryGuard.QueryExecutionGuard.MoveFrom` | src/harbor_query_timeout.cpp:116-119 | the new guard has the query, the old one nothing |
| `QueryGuard.QueryExecutionGuard.Assign` | src/harbor_query_timeout.cpp:121-132 | releases what it held, clearing deadline and in-flight only, then takes over; a self-assignment changes nothing |
| `QueryGuard.QueryExecutionGuard.Cause` | src/harbor_query_timeout.cpp:134-150 | NONE when moved from, TIMEOUT before any other cause |
| `QueryGuard.CauseIsVerdict` | src/harbor_query_timeout.cpp:134-150 | the guard object answers the machine's verdict |
| `QueryGuard.CancelIsReported` | src/harbor_session.cpp:276-287 | a cancellation that arrives behind the constructor is reported with its own cause, whatever follows, or as TIMEOUT if a sweep has marked the generation |
| `QueryGuard.UserCancelIsReported` | src/harbor_query_timeout.cpp:141-150 | so the guard object of a session cancelled by a user, and not timed out, answers USER_CANCEL |
| `QueryGuard.OneGuardReleases` | src/harbor_query_timeout.cpp:100-132 | over any sequence of constructions, moves, move assignments and destructions a query is released at most once, not while a guard holds it, and exactly once when none does |
| `QueryGuard.StepKeeps` | src/harbor_query_timeout.cpp:70-114 | every single atomic access of guards, sweeps and cancellations keeps the fine-grained invariant |
| `QueryGuard.GuardInvariants` | src/harbor_session.cpp:355-387 | at single-atomic granularity, in every reachable state: timed_out_generation <= query_generation, generations are never reused, and while the lock is free nothing is in flight and no deadline armed |
| `QueryGuard.TimeoutHasCause` | src/harbor_session.cpp:357-378 | a guard reports TIMEOUT only if a sweep loaded its generation after finding an expired nonzero deadline that this guard or an earlier one had armed; so if no earlier guard armed one, its own has passed |
| `QueryGuard.StaleSweepMarksNextQuery` | src/harbor_session.cpp:361-378 | from any state with the session free, for any timeout, any queries between and any next query: a run of single steps in which that query is interrupted and reported as TIMEOUT although its own deadline has not passed |
| `QueryGuard.StaleInterruptHitsNextQuery` | src/harbor_session.cpp:378-385 | likewise, a run in which a later query is interrupted and its guard knows no cause |
| `QueryGuard.TornCancelHitsQuery` | src/harbor_session.cpp:285-286 | likewise, with the cause of an InterruptSession stored before the constructor resets it and its interrupt after the query executes |
| `QueryGuard.MisreportIff` | src/harbor_session.cpp:355-387 | exactly which sessions allow a wrong TIMEOUT: those in which an earlier query was given a timeout |
| `QueryGuard.UnexplainedIff` | src/harbor_session.cpp:261-289 | exactly which sessions allow an interrupted query whose guard knows no cause: those that are cancelled at some time, or in which an earlier query was given a timeout |
| `QueryGuard.CoarseIsFine` | src/harbor_session.cpp:355-387 | a sweep of the session, or an InterruptSession, as one step is a run of the single-step machine |
| `QueryGuard.InterruptsAreClassified` | src/harbor_session.cpp:261-289 | with each of them one step: only a query past its own nonzero deadline is TIMEOUT, and a query interrupted while executing has a cause |
| `Streaming.StreamingCtx.Provide` | src/sql_handlers.cpp:759-913 | one provider call updates the context and writes as its function says, whose last record `LastRecord` gives; the end record behind the cap is a write of its own, whose failure is ignored |
| `Streaming.StreamShape` | src/sql_handlers.cpp:759-913 | schema, then row or chunk records, then at most one terminal with nothing behind it, and no data without the schema; exactly one in a complete run without write failures and disconnects, whatever the encoder does; rowCount is the number of rows before it |
| `Streaming.LastRecord` | src/sql_handlers.cpp:772-842 | TIMEOUT is sent as QUERY_TIMEOUT and USER_CANCEL as QUERY_CANCELLED, on a Fetch that throws, a chunk that cannot be encoded and an empty Fetch; otherwise the first two are SQL errors and an empty Fetch is the end record, or nothing after a disconnect |
| `Streaming.SilentBehindTerminal` | src/sql_handlers.cpp:771-889 | behind a terminal record nothing is written, however often the provider is called |
| `Streaming.InterruptedStreamHasNoEnd` | src/sql_handlers.cpp:800-842 | a query interrupted while it executes never ends with an end record: its empty Fetch yields QUERY_TIMEOUT or QUERY_CANCELLED by its cause, or nothing after a disconnect |
| `Streaming.InterruptedStreamEndsIff` | src/sql_handlers.cpp:800-842 | at single-atomic granularity an interrupted stream can end with an end record if and only if the session is cancelled at some time or an earlier query of it was given a timeout |
| `RowCaps.OneShot` | src/sql_handlers.cpp:680-713 | the one-shot fetch loop computes its function |
| `RowCaps.RowCapsAgree` | src/sql_handlers.cpp:843-884 | for every split into nonempty chunks and every cap, stream and one-shot body hold exactly the first min(cap, n) rows and report that number; truncated exactly when 0 < cap < n |
| `RowCaps.RunLoop` | src/ui/ui_handlers.cpp:890-928 | the two-limit loop computes its function |
| `RowCaps.TwoLimitsAreExact` | src/ui/ui_handlers.cpp:890-928 | the UI returns and appends the exact prefixes for its two limits, whatever the chunks |
| `Drain.StepKeeps` | src/harbor_http_server.cpp:62-74 | every access to the counter and the drain mutex keeps the teardown invariant |
| `Drain.SafeTeardown` | src/harbor_http_server.cpp:313-357 | in every interleaving: the counter is the number of live guards, a sleeping drain with count zero has its wake-up on the way, and after the join no guard lives and no guard destructor runs |
| `Drain.DrainedMeansEmpty` | src/harbor_http_server.cpp:320-345 | the closing thread takes the server for drained exactly when it looks at the counter and no guard lives |
| `Drain.HandOverKeepsCount` | src/sql_handlers.cpp:737-738 | dropping the first guard of a streaming request never takes the request out of the count |
| `Drain.WakeUpArrives` | src/harbor_http_server.cpp:66-74 | from every state with a sleeping drain and count zero, whoever holds the mutex, at most three steps of guard destructors wake it |
| `ServerState.HarborServerState.Start` | src/harbor_http_server.cpp:377-397 | refuses while a server runs, otherwise stores it and counts a generation |
| `ServerState.HarborServerState.Stop` | src/harbor_http_server.cpp:399-428 | stops only the server at that address and records its generation |
| `ServerState.RunningIsUnstopped` | src/harbor_http_server.cpp:377-428 | a server runs exactly when stopped_generation < generation, after any sequence of calls |
| `ServerState.RunningIsStarted` | src/harbor_http_server.cpp:377-428 | a server runs at an address exactly when a start there succeeded and no Stop of that address has come since |
| `ServerState.GenerationCounts` | src/harbor_http_server.cpp:377-397 | the generation is the number of successful starts |
| `ServerState.WaitEndsWithItsServer` | src/harbor_http_server.cpp:430-440 | the wait condition holds exactly once a Stop since has succeeded, and stays true through later restarts |
| `ServerState.FirstStopIsOfItsServer` | src/harbor_http_server.cpp:430-440 | that first Stop stopped the very server the waiter began with |
| `EventDispatcher.EventDispatcher.BeginWaitEvent` | src/ui/event_dispatcher.cpp:22-31 | refuses when closed or at three waiters, otherwise counts one and remembers the next id |
| `EventDispatcher.EventDispatcher.EndWaitEvent` | src/ui/event_dispatcher.cpp:32-45 | nothing when closed, the message when its id is the awaited one, the no-op otherwise |
| `EventDispatcher.EventDispatcher.SendEvent` | src/ui/event_dispatcher.cpp:47-56 | the event takes the next id; nothing once closed |
| `EventDispatcher.AdmittedIff` | src/ui/event_dispatcher.cpp:22-31 | a wait is admitted exactly while the dispatcher is open and fewer than three wait, and waits for the next event |
| `EventDispatcher.OneEventPerWait` | src/ui/event_dispatcher.cpp:22-75 | over any run: at most three waiters, current_id is next_id - 1, and a waiter writes a message exactly when one event was sent since it began, then that event, and nothing once the dispatcher is closed |
| `Base64Url.Base64UrlEncode` | src/harbor_crypto.cpp:110-139 | the loop and its two tails compute the encoding, which `EncodeIsBits` gives symbol by symbol |
| `Base64Url.Base64UrlDecode` | src/harbor_crypto.cpp:146-177 | the loop with its 32-bit buffer computes the decoding, which `DecodeIsBits` gives bit by bit, refusals included |
| `Base64Url.EncodeIsBits` | src/harbor_crypto.cpp:20-139 | the k-th symbol is the entry of the RFC 4648 alphabet at the k-th six bits of the text, zero bits behind its end; as many symbols as are needed |
| `Base64Url.DecodeIsBits` | src/harbor_crypto.cpp:25-177 | a text is accepted exactly when, padding aside, each of its bytes is in that alphabet, and then the result is the whole bytes of the bits its symbols stand for |
| `Base64Url.StripPadIs` | src/harbor_crypto.cpp:147-150 | the padding is the = signs at the end, all of them |
| `Base64Url.WrapIsHarmless` | src/harbor_crypto.cpp:156-170 | the buffer that wraps at 2^32 gives what a decoder that keeps only the pending bits gives |
| `Base64Url.Base64UrlRoundTrip` | src/harbor_crypto.cpp:110-177 | decoding undoes encoding on every byte sequence (section 5 of RFC 4648) |
| `Base64Url.DecodeRefusesOnly` | src/harbor_crypto.cpp:158-163 | a text is refused exactly when a byte is outside the alphabet |
| `Base64Url.EncodeHasNoDot` | src/harbor_crypto.cpp:110-139 | an encoding contains neither a dot nor padding |
| `Cookie.SplitSegments` | src/harbor_auth.cpp:386-396 | the loop computes the pieces between the dots |
| `Cookie.CheckPrincipalHex` | src/harbor_auth.cpp:223-235 | 64 lowercase hexadecimal digits |
| `Cookie.Verify` | src/harbor_auth.cpp:380-457 | the method computes the verdict, each error code in its order |
| `Cookie.VerdictIs` | src/harbor_auth.cpp:380-457 | which error code each refusal gets, as conditions on the five segments, and exactly when a cookie is accepted |
| `Cookie.IssuedText` | src/harbor_auth.cpp:360-377 | the text of an issued cookie: v1, principal, expiry, nonce and MAC between dots |
| `Cookie.PrincipalIsHex` | src/harbor_auth.cpp:223-235 | a principal is 64 of the characters 0-9 and a-f |
| `Cookie.CookieRoundTrip` | src/harbor_auth.cpp:360-457 | for any MAC function and nonce, an issued cookie verifies to its principal exactly while the time is before its expiry, which is issue time plus ttl when that does not overflow |
| `Cookie.AcceptedIsSigned` | src/harbor_auth.cpp:402-457 | whatever is accepted carries the MAC of all that precedes its last dot, and the principal its own second segment encodes |

## Left out

- ValueRoundTrip.ValueRoundTrips: a type with INTERVAL in it is excluded, and a value with UNION in it does not come back; both are refused, see `IntervalIsRefused` and `TaggedIsRefused`. That a FLOAT, DOUBLE, DECIMAL, temporal, UUID, BIT, BLOB, ENUM or extension value is read back from its text form is asked of the database, which for BLOB DuckDB does not meet.
- ParamDecoder.DecodeOneAt: error texts are not modelled; a refusal is a refusal. An expected type the statement does not know (INVALID) is the model's Any; SQLNULL, at which the source still casts strings and truth values, is not modelled.
- ParamDecoder.CoerceNumber: casts, `std::stod` and the assembly of STRUCT, LIST, ARRAY and MAP values are the `Database` parameter; the round trip of a value assumes of it only that it can build that value: reads its integers from their numerals and its text forms from themselves, and assembles its nested values as they are.
- JsonWriting.JsonWriter.Key: requires an open container, because the source reads the back of an empty string otherwise, which is undefined.
- JsonWriting.OneFlagIsEnough: Double and Raw tokens are not modelled.
- ChunkEncoder.EmitValue: requires a value of the type. The text forms of FLOAT, DOUBLE, DECIMAL, temporal, UUID, BIT, BLOB and other types are given, whether the source or the database makes them; the schema record and the one-shot envelope are not modelled as texts.
- RequestBody.RequestRoundTrip: about bodies that are JSON objects; on other texts the parser is modelled but no more is claimed than that it is total.
- QueryGuard.QueryExecutionGuard.constructor: does its stores at once; their interleaving is the machine in the same module, which leaves out `last_query`.
- Streaming.StreamShape: that the end record behind the row cap cannot be encoded is not modelled; the text of the records is that of `ChunkEncoder`.
- RowCaps.RowCapsAgree: for uninterrupted runs and counts that do not wrap; the one-shot path does not consult the interrupt cause on an empty chunk.
- RowCaps.TwoLimitsAreExact: counts are unbounded where the source uses int.
- Drain.SafeTeardown: modelled on values, one atomic access a step, not as a class; it assumes that joining the listener waits for its workers. That the drain ends is not claimed: a request may run for ever.
- EventDispatcher.OneEventPerWait: ids are unbounded where the source uses int; what wakes a waiter, a notification or the timer, is not distinguished.
- QuackScan.ScanIsExact: of runs in which nobody else fetches the scan's uuid and no later PREPARE draws it; uuids are random in the source. The column projection of a chunk and the branch for virtual columns are not modelled; a thread that is never started does not end.
- The timer thread that watches ephemeral connections (`QueryTimeoutWatchdog`): an easy member beside the sweeper.
- DuckDB itself, HTTP plumbing, settings, logging, authorization callbacks, the login page and the UI proxy.
- The Quack client's catalog, insert and transaction wrappers, and APPEND on the server.
- Creation, lookup and destruction of sessions as properties of their own.
