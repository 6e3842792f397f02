# libpslog, modelled and proved in Dafny

libpslog is a structured logger for C. A call formats one line, as a JSON object
or as console text, through a small fixed-size buffer, and streams it to a sink
that many threads share. Around the simple renderers it keeps fast paths
(trusted strings, digit pairs, precomputed field prefixes) and caches (compiled
formats, console prefixes, timestamps, doubles). This project models that code
and proves that none of it can be seen from outside, except where said below.

`dafny verify dfyconfig.toml` checks the whole project. Automatic induction is
switched off wherever it would apply, so every proof is the one that is written.

## What is modelled

| files | part of the library |
|---|---|
| `Bytes`, `Utf8`, `JsonText`, `Ansi` | bytes and C strings; UTF-8 (section 4 of RFC 3629); an independent reader of JSON (RFC 8259) that knows nothing of the emitter; erasure of ANSI colours |
| `JsonString`, `ConsoleString`, `Trust`, `Integers` | the string encoders, the scans that classify text, integer printing and the Lua binding's parser |
| `Outputs`, `LineBuffers`, `Render`, `Emission`, `EmitJson`, `EmitConsole` | the imperative path: tee and observed outputs, the retry loop, the line buffer over an array, the cursor loops, the emitters |
| `Events`, `JsonLine`, `ConsoleLine` | levels, fields, palettes and loggers, and the text of a line as a function of them |
| `Wording` | level names and labels written out as literal text, for the laws to be stated with |
| `JsonReads`, `ConsoleReads`, `JsonColour`, `ConsoleColour`, `LineColours` | what a reader makes of a line, what erasing its colours leaves, and which colours those are |
| `Kvfmt`, `KvfmtCaches`, `KvfmtFields` | the `key=%verb` language, its parser, its two caches, and logging by format |
| `PrefixCaches`, `ValueCaches`, `Hashing` | the other caches |
| `LineProtocol`, `LineGuarantees`, `LineProgress`, `LineDocuments` | any number of threads on the output mutex and the state mutex, step by step, and what a reader of the shared stream gets |
| `Lifecycle` | ownership of outputs, the environment overlay, the shared reference count |

The imperative parts of the library are classes, arrays and loops here, each
proved against a function; the laws are then proved about the functions. A line
emitted by `EmitJson.Emit` is `JsonLine.Line`, and what is proved of
`JsonLine.Line` holds of what the sinks receive. `LineDocuments.StreamReads`
joins the two halves: jobs of the line protocol that emit `JsonLine.Line` leave a
stream that reads, line by line, as the events.

Texts that the C library makes (`%.17g`, `%p`, `strerror_r`, `strftime`,
durations) are function values in a record `Platform`. `Sound` and `Words` say
what is asked of them: finite doubles print as JSON numbers, addresses and times
hold nothing that needs an escape. The clock, the scheduler and the sink's
answers are parameters and are arbitrary.

## Where a promise does not hold

* Colour erasure fails for one field. With colours, the level field of a
  disabled threshold comes from the prepared text of `info`
  (src/pslog_emit_json.c:89-90, 647-653); without colours it says `disabled`.
  `JsonColour.ColourErasure` holds if and only if that field is not shown from
  its prepared text, and `JsonColour.LapseHappens` is an instance.
* A kvfmt key may hold any byte from 0x80 on and is quoted as it stands. The line
  is JSON if and only if the keys are well-formed UTF-8 (`JsonReads.KvLineReads`).
  The format of the bytes 0x80, `=%b` parses (`KvfmtFields.StrayFormat`), and what
  is logged by it is a line, but not JSON (`KvfmtFields.StrayLine`).
* The escaping JSON path also escapes `[` (src/pslog.c:2028) and the trusted path
  does not, so the two agree byte for byte exactly on trusted text without `[`
  (`JsonString.PathsAgree`), and always after decoding
  (`JsonString.MaybeTrustedReads`).
* Bytes outside well-formed UTF-8 come out as `\u00XX`, so decoding gives the
  input back exactly when it is well-formed; otherwise each such byte stands for
  its own number (`JsonString.EncodeReads`).
* A console message is not quoted. It reads back if and only if it has neither a
  backslash nor an equals sign (`ConsoleReads.LineReads`); `ConsoleReads.MessageRunsOn`
  gives, for every message, another one that looks the same with a field after it.
* A prepared console prefix for `%m` carries no value colour, and one made on the
  spot carries it twice; only the colours differ (`ConsoleColour.KvLineIsLine`,
  `LineColours.ConsoleKvLineWears`).
* A destroyed line buffer is left with a capacity equal to its whole array
  (src/pslog.c:1953), so it is not a valid buffer any more
  (`LineBuffers.LineBuffer.Destroy`).

## Model

| member | source | states |
|---|---|---|
| LineGuarantees.WholeLines | src/pslog.c:2672-2779 | over a sink that never errs and never takes nothing, in every interleaving of any number of emitters and closers, the stream is whole contiguous lines in finishing order and then a front part of the mutex owner's line; each thread's jobs finish in program order; a line is absent only if the output is closed, and then it is absent whole |
| LineGuarantees.LinesNeverMix | src/pslog.c:2672-2763 | over any sink at all, failing or not, in every interleaving, the stream is what the sink took of each finished line, one after the other, then of the mutex owner's; of a finished line that is a front part of each of its canonical blocks, in order, and of the owner's a front part of each block that left its buffer and of the one in it |
| LineGuarantees.NothingAfterClose | src/pslog.c:3473-3494 | from a closed state on, every run leaves the stream as it is, and the output is closed exactly once |
| LineGuarantees.ClosedIffCloseRan | src/pslog.c:3473-3494 | in every reachable state the output is closed if and only if a close that is allowed to close has finished, or has closed and is about to release the mutex |
| LineGuarantees.OpenStaysOpen | src/pslog.c:3473-3494 | where no program holds an allowed close, the output stays open in every run and no line is ever dropped |
| LineGuarantees.NothingAfterCloseRan | src/pslog.c:3473-3494 | once an allowed close has finished, the stream does not grow in any continuation |
| LineGuarantees.ConsoleHoldsMutex | src/pslog_emit_console.c:241-260 | in every reachable state a thread with a byte of a console line in its buffer or at the sink owns the output mutex, unless the line was dropped |
| LineGuarantees.ResolvedUnderMutex | src/pslog.c:3382-3401 | a format is resolved with the state mutex in hand before anything of its line is made |
| LineGuarantees.OnlyShortWritesGoOn | src/pslog.c:2685-2703 | a block is offered again exactly after a short write without an error, and loses bytes exactly at an error or an empty answer before its end |
| LineGuarantees.MutexDiscipline | src/pslog.c:2705-2860 | between jobs a thread holds neither mutex; no thread asks for the output mutex with the state mutex in hand |
| LineGuarantees.CanStep | src/pslog.c:2727-2779 | a thread that is not done can go on if and only if the mutex it wants is free |
| LineGuarantees.NoDeadlock | src/pslog.c:2637-2779 | in every reachable state, whatever the sink answers, some unfinished thread can go on |
| LineProgress.RunIsBounded | src/pslog.c:2672-2703 | every schedule is finite, bounded by a rank of the state it starts from, even over a sink that takes nothing |
| LineProgress.StuckIsFinished | src/pslog.c:2672-2779 | a run that cannot be extended has finished every job in program order, freed both mutexes, and left exactly the finished lines in the stream |
| LineDocuments.StreamReads | src/pslog_emit_json.c:429-505 | over a kind sink, in every interleaving, the stream cut at its newlines is one JSON object for each finished event that was not dropped, in finishing order, with exactly the pairs of its event, and then a part of the owner's line without a newline, or that whole line; a format with an ill-formed key spoils its own line only |
| LineDocuments.FinishedStreamReads | src/pslog.c:2672-2779 | when no thread can go on there is nothing else in the stream, and unless the output was closed there is an object for every event of every thread, each thread's in program order |
| LineDocuments.EveryEventReads | src/pslog.c:2672-2779 | where no program may close the output, a finished run leaves the object of every event of every thread, each thread's in program order |
| LineProtocol.StepKeeps | src/pslog.c:2637-2860 | every step of every thread keeps the invariant that ties stream, finished jobs, the blocks that left each buffer, what the sink took of each, and mutex owners together |
| LineProtocol.RunKeeps | src/pslog.c:2637-2860 | so does every run |
| LineBuffers.LineBuffer.constructor | src/pslog.c:1861-1892 | a fresh buffer of any wanted capacity has 1 <= capacity < allocated size, with the fallbacks for refused capacities and a failed allocation |
| LineBuffers.LineBuffer.Reserve | src/pslog.c:1894-1942 | growing keeps the text and reaches the wanted capacity; a refused allocation is reported and changes nothing |
| LineBuffers.LineBuffer.Destroy | src/pslog.c:1944-1959 | the buffer is empty and is not a valid buffer any more |
| LineBuffers.LineBuffer.AppendByte | src/pslog.c:1961-1975 | one more byte of the line, across a flush if need be |
| LineBuffers.LineBuffer.Append | src/pslog.c:1977-2007 | the line grows by exactly the text, whatever the free room |
| LineBuffers.LineBuffer.AppendFast | src/pslog_internal.h:49-67 | the macro does what the loop does |
| LineBuffers.LineBuffer.Flush | src/pslog.c:2727-2763 | a full buffer is emptied into one block, dropped if the output is closed, or grown, and the line it stands for does not change |
| LineBuffers.LineBuffer.LockOutput | src/pslog.c:2765-2771 | the output mutex is held and nothing else changes |
| LineBuffers.LineBuffer.WriteBuffer | src/pslog.c:2705-2725 | all-accepting sinks have seen exactly the consecutive blocks of the line, the last of 1 to capacity bytes; sinks with short writes have the whole line; any other sink has a front part of each of those blocks, in order; a closed output saw nothing; the mutex is free |
| Outputs.BlocksUnique | src/pslog.c:1977-2007 | full blocks and a last one of 1 to c bytes can only be the canonical blocks of their text |
| Outputs.Blocks | src/pslog.c:2672-2703 | canonical blocks concatenate to the text, all full but the last, none empty |
| Outputs.Channel.Write | src/pslog.c:4438-4475 | an output tree passes on a front part of the data to each sink, at least as long as reported, and exactly so without an error; an error status is that of the last callback asked, or EIO if that one took nothing |
| Outputs.Channel.WriteTee | src/pslog.c:4311-4394 | each leg gets a front part; the count is the least that any sink got; status zero iff both got everything; the loop terminates; legs with short writes end with everything; it gives up only on a callback that fails or takes nothing, and reports that one's status |
| Outputs.Channel.WriteLocked | src/pslog.c:2672-2703 | the retry loop offers no sink a byte it already took, completes over short writes, gives up only on an error or an empty answer, and does nothing to a closed output |
| Render.AppendJsonString | src/pslog.c:2021-2105 | the cursor and chunk loop stays in bounds, terminates, and appends the encoding of every byte string |
| Render.AppendMaybeTrusted | src/pslog.c:2107-2118 | the trust check chooses between quoting and escaping as specified |
| Render.AppendConsoleString | src/pslog.c:2135-2197 | the two loops append the console value of every C string |
| Render.AppendConsoleMessage | src/pslog.c:4872-4942 | the loop appends the message form of every C string |
| Render.AppendHex | src/pslog.c:2204-2213 | two lower-case hexadecimal digits a byte |
| Render.AppendSigned | src/pslog.c:2215-2264 | the decimal text of every 64-bit signed value |
| Render.AppendUnsigned | src/pslog.c:2266-2303 | the decimal text of every 64-bit unsigned value |
| EmitJson.AppendDatum | src/pslog_emit_json.c:94-307 | every kind of value appends its specified text |
| EmitJson.AppendField | src/pslog_emit_json.c:354-397 | comma unless first, key, colon, value; nothing without a key |
| EmitJson.AppendFieldSet | src/pslog_emit_json.c:399-427 | the comma discipline over a whole set, and when the first-field flag survives |
| EmitJson.AppendPrefix | src/pslog_emit_json.c:865-883 | the precomputed text of a field list |
| EmitJson.Derive | src/pslog.c:3189-3299 | deriving builds the prefix in a growing buffer and gives the specified child |
| Emission.AppendStamp | src/pslog.c:2809-2819 | the direct copy and the append add the same text |
| EmitJson.Emit | src/pslog_emit_json.c:429-505 | for every buffer capacity each sink receives the line, in its canonical blocks, or a front part of each if it fails, or nothing if closed; the mutex is free afterwards |
| EmitJson.EmitKv | src/pslog_emit_json.c:745-863 | the same for the kvfmt line |
| EmitConsole.AppendField | src/pslog_emit_console.c:622-638 | through the cache or the fallback, the specified field text |
| EmitConsole.AppendPrefix | src/pslog_emit_console.c:345-364 | a field list through the cache appends the specified text, whatever the cache held |
| EmitConsole.Derive | src/pslog.c:3189-3299 | deriving in console mode gives the specified child though its prefix comes through the cache |
| EmitConsole.Emit | src/pslog_emit_console.c:241-289 | the console line reaches each sink whole, the mutex being taken before the first byte and free afterwards |
| EmitConsole.EmitKv | src/pslog_emit_console.c:291-343 | the same for the kvfmt line |
| JsonReads.LineReads | src/pslog_emit_json.c:354-505 | every plain line is one JSON object whose ordered pairs are exactly `ts`?, `lvl`, `msg`?, static fields, call fields, `loglevel`? (`time`, `level`, `message` when verbose), keys and level names given as literal text, fields without a key dropped; its only control byte is the final newline |
| JsonReads.FixedKeysDiffer | src/pslog_emit_json.c:429-505 | the fixed keys of a line are pairwise different |
| JsonReads.KvLineReads | src/pslog_emit_json.c:745-976 | the only control byte of a kvfmt line is the newline at its end, whatever the keys; the line is a JSON object if and only if its keys are well-formed UTF-8, and then the same object as the line of the constructed fields, its fixed keys and level names as literal text |
| JsonLine.WithIsTransparent | src/pslog.c:3028-3299 | logging C on with(with(L, A), B) gives the bytes of logging A ++ B ++ C on L, with and without colours |
| ConsoleLine.WithIsTransparent | src/pslog_emit_console.c:261-270 | the same for console lines |
| JsonColour.ColourErasure | src/pslog_emit_json.c:592-731 | erasing the colours of a line gives the plain line if and only if the level field is not the prepared one of a disabled threshold |
| JsonColour.KvColourErasure | src/pslog_emit_json.c:745-1127 | the same for kvfmt lines |
| JsonColour.LapseMeans | src/pslog.c:3706-3793 | in numbers, when that field is taken from its prepared text |
| JsonColour.LapseHappens | src/pslog_emit_json.c:632-655 | a concrete logger and event where erasure fails |
| ConsoleColour.ColourErasure | src/pslog_emit_console.c:241-289 | erasing the colours of any console line gives the plain line, for keys and timestamps without an escape byte |
| ConsoleColour.KvColourErasure | src/pslog_emit_console.c:291-493 | the same for kvfmt lines |
| ConsoleColour.KvLineIsLine | src/pslog_emit_console.c:366-430 | without colours a kvfmt line is byte for byte the line of the constructed fields; with colours they agree once erased |
| ConsoleLine.PrefixesAgree | src/pslog_emit_console.c:178-195 | cached and fallback prefixes are the same bytes without colours |
| ConsoleLine.PrefixErases | src/pslog_emit_console.c:178-195 | and the same once erased with colours |
| LineColours.JsonWears | src/pslog_emit_json.c:592-731 | the colours erased from a JSON line, by fields or by format, are exactly the palette's entries in order: keys, values by what they read as (times and error texts apart), levels by name, resets |
| LineColours.ConsoleWears | src/pslog_emit_console.c:241-289 | the same for console lines, where addresses and doubles are always numbers and a label is coloured if its prepared text has room |
| LineColours.ConsoleKvLineWears | src/pslog_emit_console.c:291-493 | the same by format, with the colour of `%m` once, or twice where its prefix is too long to prepare |
| ConsoleReads.LineReads | src/pslog_emit_console.c:241-289 | a reader of a whole plain line gets the timestamp, the level by its literal label, the message, the static and call fields and `loglevel` last, if and only if the message has neither a backslash nor an equals sign |
| ConsoleReads.KvLineReads | src/pslog_emit_console.c:291-343 | the same for kvfmt lines |
| ConsoleReads.LineIsSpelt | src/pslog_emit_console.c:241-289 | any plain line is timestamp, label, message, fields and newline with single spaces between, a printable message standing as it is |
| ConsoleReads.LevelsShow | src/pslog.c:2947-2999 | events at different levels give different lines |
| ConsoleReads.MessagesShow | src/pslog_emit_console.c:257-260 | different messages give different lines, if both are printable or neither has a backslash |
| ConsoleReads.MessageRunsOn | src/pslog_emit_console.c:257-270 | a message that ends in `key=word` and the shorter message with that field give the same line |
| Wording.NameIsSpelt | src/pslog.c:359-385 | the nine level names, letter by letter |
| Wording.LabelIsSpelt | src/pslog.c:2947-2968 | the console labels, letter by letter |
| ConsoleReads.FieldsRead | src/pslog_emit_console.c:345-364 | a reader recovers every key and every value of the fields of a line, in order, strings exactly |
| JsonString.EncodeReads | src/pslog.c:2021-2105 | every byte string encodes to one JSON string literal (section 7 of RFC 8259) that decodes to its code points, stray bytes as U+00XX |
| JsonString.EscapesAre | src/pslog.c:2021-2105 | the escape of every ASCII byte, letter by letter |
| JsonString.PlainByteStands | src/pslog.c:593-761 | the bytes the scans let through are exactly those a JSON string may hold raw, DEL aside |
| JsonString.AsciiTrustedIff | src/pslog.c:593-761 | the ASCII scan accepts exactly the ASCII part of what the UTF-8 scan accepts |
| JsonString.EncodeIsUtf8 | src/pslog.c:2021-2105 | the literal is well-formed UTF-8 whatever the input |
| JsonString.EscapeHasNoControls | src/pslog.c:2021-2105 | no raw control byte leaves the encoder |
| JsonString.RawReads | src/pslog.c:2126-2133 | raw text without specials reads back as its code points if it is well-formed UTF-8 and not at all otherwise |
| JsonString.MaybeTrustedReads | src/pslog.c:2107-2118 | the fast path and the escaping path decode to the same string |
| JsonString.PathsAgree | src/pslog.c:2021-2133 | on trusted text the two paths give the same bytes if and only if there is no `[` |
| Utf8.RecogniserSound | src/pslog.c:442-505 | an accepted front is the encoding of one scalar value |
| Utf8.RecogniserComplete | src/pslog.c:442-505 | the encoding of every scalar value is accepted, with its length |
| Utf8.ValidIffEncoded | src/pslog.c:438-505 | text the recogniser accepts throughout is exactly the encodings of sequences of scalar values |
| Utf8.ValidRoundTrips | src/pslog.c:442-505 | decoding and encoding well-formed text gives it back |
| Trust.TerminatedLength | src/pslog.c:640-756 | the recogniser that stops at the terminator agrees with the counted one and never reads past it |
| Trust.IsTrusted | src/pslog.c:624-761 | true iff well-formed UTF-8 without control bytes, DEL, quotation mark and backslash; the full length either way |
| Trust.IsAsciiTrusted | src/pslog.c:593-622 | true iff ASCII without those; the full length either way |
| Trust.IsConsoleSimple | src/pslog.c:564-591 | true iff non-empty without a byte that forces quotation marks |
| Events.MakeField | src/pslog.c:1143-1384 | constructed fields carry their key and value, and a key flag that is set exactly for plain ASCII |
| Events.StrField | src/pslog.c:1162-1186 | the same for strings, text flag included |
| Events.TrustedStrField | src/pslog.c:1207-1226 | the trusted constructor sets its flags exactly for what the UTF-8 scan accepts |
| Events.HexRoundTrip | src/pslog.c:2204-2213 | bytes can be had back from their hexadecimal text |
| ConsoleString.ValueReads | src/pslog.c:2135-2197 | every string reads back from its console text, a space or `=` inside never ending it |
| ConsoleString.BareExactly | src/pslog.c:2135-2197 | a value goes without quotation marks exactly when it has no space, `=`, quotation mark, backslash or control byte |
| ConsoleString.MessageReads | src/pslog.c:4872-4942 | a message reads back from its text if and only if it has no backslash |
| ConsoleString.MessageVerbatim | src/pslog.c:4872-4942 | a message stands as it is if and only if it is printable |
| ConsoleString.SeparatorsAreQuoted | src/pslog.c:2135-2197 | a space or `=` in a console value stands inside quotation marks |
| ConsoleString.SimpleIsValue | src/pslog_emit_console.c:17-25 | the simple fast path gives the same bytes |
| ConsoleString.OutputPrintable | src/pslog.c:4872-4942 | no raw control byte or DEL in values and messages |
| Integers.FormatUnsigned | src/pslog.c:2266-2303 | digit-pair printing in the 32-byte scratch gives the canonical text |
| Integers.FormatSigned | src/pslog.c:2215-2264 | the same with a sign, the least value included |
| Integers.DecimalDenotes | src/pslog.c:2215-2303 | the text is canonical and denotes the number |
| Integers.SignedDenotes | src/pslog.c:2215-2264 | the text of every integer denotes it, sign included |
| Integers.SignedIsNumber | src/pslog.c:2215-2264 | it is a JSON number |
| Integers.ParseU64 | lua/src/pslog_lua.c:360-385 | accepts exactly the non-empty digit strings up to 2^64 - 1, with their value, and tells the two kinds of refusal apart |
| Integers.PrintThenParse | lua/src/pslog_lua.c:360-385 | inverts the unsigned printer on every 64-bit value |
| Ansi.StripAnsi | fuzz/pslog_fuzz.c:41-61 | the loop computes the erasure, cut to the destination |
| Ansi.StripConcat | fuzz/pslog_fuzz.c:41-61 | erasure works piece by piece where no sequence is left open |
| Kvfmt.ParserAcceptsGrammar | src/pslog.c:840-948 | the parser accepts exactly the formats of the grammar with at most 32 fields, as what they mean |
| Kvfmt.ParseComplete | src/pslog.c:867-947 | every such format parses to its keys and types, extra spaces ignored |
| Kvfmt.ParseRefuses | src/pslog.c:876-879 | one field too many is refused |
| Kvfmt.ParseSound | src/pslog.c:840-948 | what is accepted is a format of the grammar with that meaning |
| Kvfmt.AcceptedKeys | src/pslog.c:880-898 | accepted keys are non-empty and can be quoted raw |
| Kvfmt.VerbsMean | src/pslog.c:899-933 | each verb as it is written, with its length prefix, and the argument it takes |
| Kvfmt.OnlyVerbs | src/pslog.c:899-938 | there is no other verb, and `%lm` is none |
| Kvfmt.KeyBytesAre | src/pslog.c:880-898 | the bytes that no key may hold |
| Kvfmt.ParseLayout | src/pslog.c:840-948 | the loops over the C string compute the parse, in bounds |
| Kvfmt.EntryToKvfmt | gobencher/benchmark/dataset.go:66-96 | prints the format, or fails at a kind without a verb |
| Kvfmt.VerbsPrinted | gobencher/benchmark/dataset.go:66-96 | the verb printed for each kind |
| Kvfmt.PrintThenParse | gobencher/benchmark/dataset.go:66-96 | parsing the printed format recovers the keys and types if and only if there are at most 32 fields with good keys |
| KvfmtCaches.Cache.Resolve | src/pslog.c:950-1050 | the result is that of a fresh parse; slots in use never change; each text is in one slot at most; remembered addresses only lead to slots in use; a format that parses gets a slot unless its whole window is in use for others |
| KvfmtCaches.Cache.Probe | src/pslog.c:994-1011 | finds the text, or shows that its window does not hold it, and the first free slot, or that there is none |
| KvfmtCaches.Published | src/pslog.c:1012-1018 | filling a free slot of the window keeps every slot and every promise about them |
| KvfmtCaches.ResolveAll | src/pslog.c:950-1050 | after any history every call got a fresh parse, and every slot handed out still holds that layout |
| KvfmtFields.Materialize | src/pslog.c:1052-1141 | the loop pairs specifications and arguments, `%m` taking none |
| KvfmtFields.AcceptedAreMade | src/pslog.c:1052-1141 | fields of an accepted format meet what the emitters ask |
| KvfmtFields.FieldsTell | src/pslog.c:1052-1141 | the fields of a format tell each argument under the key of its verb, in order, to a reader of JSON and to one of console lines: `%b` a boolean, `%s` its text (a null pointer the empty one), integers their number, `%m` the error text |
| KvfmtFields.LogfIsLogInJson | src/pslog.c:3364-3413 | logging by format gives a line exactly when logging the constructed fields does, with one newline, at its end; the latter is the object with each argument under its key after the static fields, and the former the same object exactly when the keys are well-formed, no JSON otherwise |
| KvfmtFields.RefusedIsReported | src/pslog.c:3387-3398 | a format that does not parse is logged as `invalid kvfmt`, as an error unless the event was fatal or a panic, if the threshold lets both through |
| KvfmtFields.ThresholdAdmits | src/pslog.c:2647-2670 | which level passes which threshold, on the scale from trace to no level |
| KvfmtFields.StrayFormat | src/pslog.c:880-898 | a format whose key is one stray byte is accepted |
| KvfmtFields.StrayLine | src/pslog_emit_json.c:885-909 | logged by that format on a plain JSON logger, a line leaves that is not JSON |
| KvfmtFields.LogfIsLogOnConsole | src/pslog.c:3364-3413 | and the same bytes on the console |
| KvfmtFields.LogfReadsOnConsole | src/pslog_emit_console.c:291-343 | a console line by format reads back as timestamp, label, message, static fields, each argument under its key, and `loglevel`, exactly for messages with neither a backslash nor an equals sign |
| KvfmtFields.StaticFieldsOfFormat | src/pslog.c:3966-4010 | static fields made from a format meet what the JSON laws ask of fields exactly when its keys are well-formed UTF-8 |
| PrefixCaches.Cache.Resolve | src/pslog_emit_console.c:509-608 | always a fresh rendering of key, type and palette; a refusal changes no entry; one entry at most changes; the next call for the same key at the same address finds it |
| PrefixCaches.HasRoom | src/pslog_emit_console.c:3-9 | the guarded sum refuses exactly the prefixes over 127 bytes |
| PrefixCaches.ResolveAll | src/pslog_emit_console.c:509-608 | after any history, with keys rewritten in place, every call gets a fresh rendering |
| PrefixCaches.CachedField | src/pslog_emit_console.c:622-638 | a field through the cache is the field as specified |
| ValueCaches.CachesAreTransparent | src/pslog.c:2781-2860 | in every interleaving of critical sections and for any clock, each call appends what it would have without a cache, and what is stored fits its slot |
| ValueCaches.FromTheStart | src/pslog.c:2341-2406 | so from the empty caches on, for timestamps and doubles, and every thread's calls are served in order, none skipped and none twice |
| ValueCaches.ServedIsFound | src/pslog.c:2800-2852 | in every state a run can reach, a request served with a text that fits is found by the next call |
| ValueCaches.StoredIsFound | src/pslog.c:2827-2837 | what was stored is found by the next call |
| Lifecycle.CloseReachesOwned | src/pslog.c:4396-4420 | closing a tree of tees and observers closes each owned sink once, from left to right, and no other, and reports the first error |
| Lifecycle.OwnedSinksOnce | src/pslog.c:4477-4486 | no owned sink appears twice in a tree without sharing |
| Lifecycle.OverlayConserves | src/pslog.c:1624-1641 | owned sinks of the base and of the opened file are in the new tree or closed, none lost and none twice; the base is kept inside or closed |
| Lifecycle.OverlayLeads | src/pslog.c:4783-4870 | exactly which sinks each form of the variable leads to, in order and with which of them owned, and exactly when it fails |
| Lifecycle.OverlayStaysDistinct | src/pslog.c:4762-4870 | the tees that the overlay makes, the only ones there are, never lead to one sink by two branches |
| Lifecycle.InitRelates | src/pslog.c:4762-4870 | what each form of the variable makes of the base output |
| Lifecycle.Tree.CloseShared | src/pslog.c:3473-3494 | closes an owned open output once if allowed, and returns the first status ever after |
| Lifecycle.Tree.With | src/pslog.c:3268-3299 | one more handle, which may never close |
| Lifecycle.Tree.Close | src/pslog.c:346-357 | a child's close does nothing; a repeated close returns the first status |
| Lifecycle.Tree.Destroy | src/pslog.c:2606-2635 | the reference count is the number of live handles; the last one closes what is owned and still open |
| Lifecycle.Play | src/pslog.c:2598-2645 | over any run the tree does exactly what a family of handles should: which are alive, whether the output is closed, what each close returns; so no sink is closed twice, none that is not owned, and all owned ones once every handle is gone |

## Left out

- Files, descriptors, terminals and flushing (src/pslog.c:4167-4309): a sink is an arbitrary answer to each call.
- Text of times and durations, `%.17g`, `%p` and `strerror_r`: values of the `Platform` record.
- Failed allocations other than those of a buffer's start, of a reservation and of a tee.
- Allocation sizes that wrap around: growing a buffer is modelled on unbounded integers.
- The console prefix cache used from `with()` without the output mutex (src/pslog.c:3211): the cache is proved for one call after another.
- Sinks whose close callback is missing: an owned sink is one that can be closed.
- Ownership of the output when creating a logger fails.
- Counters and failure callbacks of observed outputs: they do not change what is written.
- Sink callbacks that log, and handles destroyed while in use: the documentation excludes them.
- Names of levels, modes, palettes and file modes, and parsing of the environment other than what it does to outputs: finite lookups.
- Invertibility of console messages: backslashes are not escaped there.
- LineBuffers.LineBuffer.Flush: does not model a growing buffer whose memory is refused, where the text built in it is cut.
- Emission.AppendStamp: does not model the lookup of the timestamp, because `ValueCaches` proves that for every interleaving and any clock.
- Trees in which one sink hangs on two branches (`Outputs.Distinct`): only `pslog_output_init_tee` makes tees, it is static, and its one caller gives it a file opened anew (`Lifecycle.OverlayStaysDistinct`).
- Torn reads: the read of the closed flag before a line, which no mutex guards, is one step of the protocol.
