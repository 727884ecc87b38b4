# Server-Sent Events: the wire format and the client parser of smartwalle/sse

This project models, in Dafny, the text logic of the Go package `sse`
(github.com/smartwalle/sse):

- **The event serialiser of event.go.** `Encode` writes an `Event{ID, Event, Retry, Data}` into a `bytes.Buffer`. It writes `id: `, `event: `, `retry: ` and `data: ` lines, in that order, each only when its field is set (retry: when positive). The event ends with a blank line. The package-level `replacer` rewrites line feed, carriage return, tab and backslash in the values as `\n`, `\r`, `\t` and `\\`.
- **The older serialiser of server.go.** `Server.encode` prints the same lines to an `io.Writer` with one `fmt.Fprintf` per field; the data line and the blank line after it are printed by the same call. Its replacer, built in `New`, rewrites only line feed and carriage return. It prints the blank line that ends an event only together with the data line. This file belongs to an older revision of the package, so it has its own module (`Server`) with its own event record.
- **The client-side parser of client.go.** `handleResponse` reads the body line by line. It strips trailing CR and LF characters. A blank line dispatches the pending event and clears it. A line that starts with `:` is skipped. Any other line is cut at its first colon into a field and a value, and applied to the pending event, which `handleResponse` creates first when there is none. `parseEvent` trims the field name, drops one leading space from the value and updates the pending event. `dispatchEvent` hands an event to the handler only when it has data, an event name or an id.

Layout:

- **Module layout.** `Strs`, `Strconv` and `Lines` model the pieces of Go's `strings`, `strconv` and `bufio` that the package uses. `Wire` describes the field lines both encoders write. `Events`, `Server` and `Client` model the three source files. `RoundTrip` proves what the client parses out of what the encoders write.
- **Imperative code.** `Encode`, `Server.encode`, `parseEvent`, `dispatchEvent` and `handleResponse` are methods that change state step by step, as in the source. The buffer or writer is a string the method extends. The pending `*Event` is a class updated in place. The reader and the handler are classes.
- **Specification functions.** Each method is proved against a pure function: `Encoded`, `Server.Encoded`, `ApplyField`, `Feed` and `Dispatches`. The properties are lemmas about those functions.

## Model

| member | source | states |
|---|---|---|
| Events.Escape | event.go:10-15 | escaped text holds no raw line feed, carriage return or tab, is never shorter, and is empty only for empty input |
| Events.EscapeLength | event.go:10-15 | the escaped length is the original length plus one per line feed, carriage return, tab or backslash |
| Events.EscapePlain | event.go:10-15 | a value without any of the four special characters is written unchanged |
| Events.EscapeRoundTrip | event.go:10-15 | unescaping the escaped text gives back the original, so escaping loses nothing |
| Events.EscapeInjective | event.go:10-15 | since the backslash is escaped too, distinct values escape to distinct text |
| Events.Encode | event.go:28-56 | the buffer holds exactly the field lines of the set fields and then the blank line |
| Events.FieldsInOrder | event.go:31-53 | the written fields follow the order id, event, retry, data; each is present iff ID, Event or Data is non-empty, or Retry is positive |
| Events.FieldsCarryValues | event.go:31-53 | each written line is `<name>: ` followed by the escaped value (retry: its decimal text), on a single line |
| Events.EncodeLines | event.go:28-56 | the output reads back as exactly the field lines and the blank line; it holds one line feed more than it has fields, so no value can inject a line |
| Events.EncodeTerminator | event.go:28-56 | the output always ends in a line feed; it is exactly `"\n"` iff no field is set, and otherwise ends in `"\n\n"` |
| Strconv.Itoa | event.go:44-46 | the decimal text of a number is a non-empty run of digits with no leading zero |
| Strconv.Atoi | client.go:194 | a value comes back only for non-empty text |
| Strconv.AtoiSign | client.go:194 | a negative value comes back only for text that starts with `-` |
| Strconv.AtoiAccepts | client.go:193-196 | `strconv.Atoi` accepts exactly an optional `+` or `-` followed by one or more decimal digits, and nothing else |
| Strconv.AtoiItoa | client.go:193-196 | parsing the decimal text of a number gives the number back |
| Strconv.AtoiSigned | client.go:193-196 | a leading `-` negates the number; a leading `+` changes nothing |
| Strconv.AtoiRejects | client.go:193-196 | empty text, a lone sign, a first character that is neither a sign nor a digit (a leading space, say), or any non-digit after it is a syntax error |
| Server.Escape | server.go:29 | escaped text holds no raw line feed or carriage return, is never shorter, and is empty only for empty input |
| Server.EscapeLength | server.go:29 | the escaped length is the original length plus one per line feed or carriage return |
| Server.EscapeKeepsOthers | server.go:29 | every value without line breaks, tabs and backslashes included, passes through unchanged |
| Server.EscapeCollision | server.go:29 | a line feed and the two characters backslash and `n` escape to the same text |
| Server.Writer.Write | server.go:86 | one `Fprintf` call appends its text to what was written so far |
| Server.Encode | server.go:84-97 | the writer is extended by exactly the printed lines of the set fields |
| Server.EncodedLayout | server.go:84-97 | the printed text is the field lines, followed by a blank line only when Data is non-empty |
| Server.FieldsInOrder | server.go:85-96 | the printed fields follow the order id, event, retry, data; each is present iff its field is set (retry: positive), with its escaped value or decimal text |
| Server.EncodeWritesNothing | server.go:84-97 | an event with every field empty or zero prints nothing, and any other event prints something |
| Server.EncodeLines | server.go:84-97 | the printed text reads back as the field lines, followed by the blank line only with data |
| Server.TerminatorOnlyWithData | server.go:94-96 | the printed text ends in a blank line iff Data is non-empty |
| Wire.BlankEnd | server.go:94-96 | well-formed field lines end in a blank line iff a terminating line feed follows them |
| Wire.LayoutInOrder | event.go:31-53 | the laid-out fields are in the order id, event, retry, data, with no name repeated |
| Wire.LayoutPresent | event.go:31-53 | a field is laid out iff its slot is filled, and then with the slot's value |
| Wire.FieldLineIsLine | event.go:32-34 | the line of a field with a known name and a single-line value is one complete line |
| Wire.FieldTextNoBlankEnd | server.go:84-97 | text made of well-formed field lines never ends in a blank line |
| Strs.IndexFinds | client.go:158 | `strings.Index` returns the first position of the character, or -1 iff there is none |
| Strs.TrimRightCuts | client.go:143 | `strings.TrimRight` keeps a prefix that does not end in the cut set, and removes only cut-set characters |
| Strs.TrimPrefix | client.go:176 | the prefix is removed when the text starts with it; otherwise the text is unchanged |
| Strs.TrimSpaceIdempotent | client.go:175 | trimming white space twice is trimming it once |
| Lines.ReadLinesCuts | client.go:132-141 | the lines read are complete lines that form the front of the body, with no line feed left after them |
| Lines.ReadAfterLines | client.go:132-141 | the lines of complete lines followed by more text are those lines, then the lines of the rest |
| Lines.FragmentNotRead | client.go:132-141 | text after the last line feed adds no line |
| Client.ToDispatch | client.go:108-113 | the pending event is handed on, alone, iff it exists and has data, an event name or an id |
| Client.SplitAtFirstColon | client.go:157-164 | the field is the text before the first colon and the value all text after it; a line without a colon is all field with an empty value |
| Client.PendingEvent.constructor | client.go:166-168 | a new pending event has every field empty or zero |
| Client.ParseEvent | client.go:174-198 | the event is updated in place exactly as `ApplyField` says |
| Client.Handler.Handle | client.go:110 | the handler records the event, and the call with the injected index returns the injected error |
| Client.DispatchEvent | client.go:108-113 | the handler is called once iff the pending event is dispatchable, and its error is returned |
| Client.Reader.ReadString | client.go:132 | a read returns the next complete line, or, when no line feed is left, the rest of the body with the error that ends it |
| Client.HandleLine | client.go:143-170 | one line updates the pending event and the handled events exactly as `Feed` says, and reports the handler's error if a dispatch fails |
| Client.EndOfBody | client.go:133-141 | at the end of the body the pending event is dispatched only on `io.EOF`; the handler's error replaces the read error |
| Client.HandleResponse | client.go:115-172 | the handler receives the events of `Dispatches` in order; the first failing call stops the parse and its error is returned as is; otherwise the error ending the body is returned |
| Client.FeedDispatches | client.go:145-151 | a line hands on the pending event iff it is blank, and hands on nothing otherwise |
| Client.RunExtends | client.go:123-171 | events once handed on stay handed on |
| Client.RunShift | client.go:123-171 | events handed on earlier do not change what the rest of the body hands on |
| Client.FeedAllAppend | client.go:123-171 | reading two runs of lines one after the other is reading their concatenation |
| Client.DataJoin | client.go:188-192 | successive `data` values are joined with line feeds, except that empty values before the first non-empty one leave no separator |
| Client.LastValueWins | client.go:184-187 | of several `id` (or `event`) fields the last one wins |
| Client.FieldNameTrimmed | client.go:175 | white space around the field name does not matter |
| Client.UnknownFieldIgnored | client.go:178-197 | a field whose trimmed name is empty or unknown changes nothing |
| Client.RetryField | client.go:193-196 | `retry` sets Retry iff the value parses as an integer, and otherwise leaves the event unchanged |
| Client.RetryParsed | client.go:193-196 | the decimal text of a number after one space sets Retry to that number |
| Client.ConsecutiveBlankLines | client.go:143-151 | a blank line hands on and clears the pending event; a second blank line hands on nothing more |
| Client.CommentIgnored | client.go:153-155 | a line that starts with a colon changes nothing |
| Client.FeedAllDispatchable | client.go:108-113 | reading lines never hands on an event without data, name or id |
| Client.OnlyDispatchableDispatched | client.go:108-113 | only events with data, a name or an id reach the handler; a retry-only event is dropped |
| Client.FinalFragmentIgnored | client.go:132-141 | text after the last line feed is never parsed |
| Client.EndOfStream | client.go:133-141 | ending with `io.EOF` hands on the pending event as a final blank line would; ending with any other error hands on only the events closed by blank lines, dropping the pending one |
| Client.BlankLineCloses | client.go:133-151 | a final blank line closes the pending event as `io.EOF` does |
| RoundTrip.ReceivedUnescapes | event.go:10-15 | unescaping the values that arrive gives back the values sent |
| RoundTrip.ApplyNamed | client.go:174-198 | a field with one of the four names and a value after one space sets that field |
| RoundTrip.FieldLineRead | client.go:143-170 | a written field line is read back as that field applied to the pending event |
| RoundTrip.RunEncoded | client.go:143-151 | the lines of one encoded event hand on the received event iff it is dispatchable, and leave nothing pending |
| RoundTrip.EncodeThenParse | client.go:115-172 | parsing `Encode(e)` hands on exactly one event, with escaped values and the retry if positive, iff e has data, a name or an id, whatever error ends the body |
| RoundTrip.PlainEventArrives | event.go:28-56 | an event without special characters, with a non-negative retry and a set id, name or data, arrives exactly as sent |
| RoundTrip.EncodedStream | client.go:115-172 | events encoded back to back arrive separately and in order, each dispatchable one once |
| RoundTrip.LegacyLines | server.go:84-97 | an id-only event followed by a data-only event print two field lines and a single blank line |
| RoundTrip.LegacyEventsMerge | server.go:94-96 | an id-only event followed by a data-only event, printed by `Server.encode`, reach the client as one merged event |

## Left out

- Connecting and the client's lifecycle: `Connect`, `NewClient`, `WithClient`, `Close`, `Closed`, the header check and the `ctx.Done()` / `c.closed` select at the head of the loop (client.go:38-106, 124-130). They are HTTP calls, cancellation and channel signalling, not text logic.
- I/O: the response body is a string and the error that ends it (`io.EOF` or another error). `bufio.Reader.ReadString` is modelled by the text not yet read. Buffering and errors in the middle of a line are not modelled.
- The event handler is modelled as the list of events it has been handed, plus at most one call, chosen in advance, that returns an error. What a real handler does with the `*Event` (keeping it, changing it) is not modelled. A nil handler, which the model cannot express, is left out.
- Strconv.Atoi: its own contract states only that the text is non-empty; what it accepts is stated by `AtoiAccepts` and `AtoiRejects`, and what it returns by `AtoiItoa`, `AtoiSigned` and `AtoiSign`. It works on unbounded integers; the range error Go's `strconv.Atoi` reports for values that do not fit in an `int` is not modelled.
- Events.Event: `Retry` is an unbounded integer, not Go's 64-bit `int`.
- Strings are sequences of Unicode code points, so invalid UTF-8 is not modelled. The replacers and the line and colon handling rewrite or look for ASCII characters only, so working byte by byte, as Go does, and working character by character agree on valid text. `strings.TrimSpace` also strips non-ASCII white space (U+0085, U+00A0, U+2000 to U+200A and others), but Go decodes it rune by rune there as well, so the character-wise model matches it on valid UTF-8.
- `Event.String` (event.go:24-26) is debug formatting.
- server.go outside `encode` and the replacer: `ServeHTTP`, the stream handlers and the panicking default handler in `New`. They are HTTP plumbing, a goroutine and a select loop.
- stream.go, upgrade.go and subscriber.go are not part of this model. They hold response plumbing, header negotiation and a concurrent close signal.

## Findings

| source | as written | input that shows it | evidently intended | confidence | as-written member | corrected member |
|---|---|---|---|---|---|---|
| server.go:29 | the replacer built in `New` does not escape the backslash | the values `"\n"` (a line feed) and `"\\n"` (a backslash and `n`) are both written as `\n` | escape the backslash too, as event.go:10-15 does, so that escaping can be undone | medium, not executed | Server.EscapeCollision | Events.EscapeInjective |
| server.go:94-96 | the blank line that ends an event is printed only with the data line | `Event{Id: "1"}` followed by `Event{Data: "x"}` reaches the client as one event with id `1` and data `x` | end every event that prints a line with a blank line, as event.go:54 does | medium, not executed | RoundTrip.LegacyEventsMerge | RoundTrip.EncodedStream |
