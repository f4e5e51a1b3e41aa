# AT-command engine of gogsmmodem, modelled in Dafny

The Go package `gogsmmodem` drives a GSM modem over a serial line with
Hayes AT commands. Its engine has five parts, and this project models each
one with the Go code's own branches, constants and error cases.

- **Line framer** (`framer.dfy`): the byte stream is cut into lines at
  every line feed, or as soon as the bytes gathered are exactly the body
  prompt `"> "`. Each line loses its trailing `\r`/`\n` and empty lines
  are dropped.
- **Response parser** (`parser.dfy`): `parsePacket` takes a header line,
  the body lines gathered after it, and the status line that closed them.
  It dispatches on the tag before the first `:` and yields a typed packet
  (`packets.dfy`), nil, or a panic when an argument is missing or of the
  wrong kind.
- **Listener** (`engine.dfy`): a class with the four variables of the
  `listen` loop (`echo`, `last`, `header`, `body`). Every incoming line is
  dropped as an echo, starts or closes a reply, extends a reply body, is
  the body prompt, or becomes an unsolicited (out-of-band) packet. Every
  outgoing command sets the echo to drop and the command family (`+CMGL`,
  `+CPMS`, ...) whose reply lines to gather.
- **Command formatting** (`commands.dfy`): `formatCommand`, and the
  `AT(\+[A-Z]+)` match that extracts a command's family.
- **Facade and initializer** (`facade.dfy`): `GetMessage`, `ListMessages`,
  `SupportedStorageAreas`, `DeleteMessage`, `SendMessage`, `sendBody`,
  `send`, and `init`'s reset loop and configuration. They run on a `Modem`
  class whose replies come from a script. Each `send` consumes one script
  entry: a delivered packet, nil, or a silence in which the read timeout
  expires.

The Go `strings` functions the engine relies on (`SplitN`, `TrimSpace`,
`TrimRight`, `TrimPrefix`, `TrimSuffix`, `HasPrefix`, `Index`) are defined
in `gostrings.dfy` with their documented behaviour on byte strings.

Each loop of the Go code is a Dafny method proved against a specification
function: `Frame` against `Lines`, `Listen` against `Run`, `CollectInts`
against `Ints`, `ListMessages` against `ListSpec`, `Reset` against
`ResetSpec`, and `Init` against `InitSpec`. Lemmas then state what those
specification functions promise.

The helpers that `gsm.go` calls but that live in other files of the
package are fields of a `Codec` value and stay uninterpreted. They are
`unquotes`, `quotes`, `stringsUnquotes`, `parseTime`, `gsmEncode` and
`startsWith`. Every property holds for every choice of them.

Two places where the code does something other than one might expect; the
model follows the code:

- A `+CPMS` set reply whose integer count is not six does not yield nil.
  The `break` leaves the `switch` and the function returns an unknown
  `+CPMS` packet with all the arguments (`DispatchCpmsOtherCount`).
- The reset loop sends `ATZ` up to five times, not four: the give-up test
  is `i > 3` after the attempt. An escape follows each of the first four
  failures (`ResetOutcome`, `ResetGivesUp`).

## Model

| member | source | states |
|---|---|---|
| GoStrings.TrimLineEnd | vendor/github.com/barnybug/gogsmmodem/gsm.go:166 | the result is a prefix of the line that does not end in `\r` or `\n`, and every byte cut off is `\r` or `\n` |
| GoStrings.HasPrefix | vendor/github.com/barnybug/gogsmmodem/gsm.go:223 | true exactly when the string is at least as long as the prefix and begins with it |
| GoStrings.TrimSpace | vendor/github.com/barnybug/gogsmmodem/gsm.go:191 | neither end of the result is white space, it is no longer than the input, and an already trimmed string comes back unchanged |
| GoStrings.TrimPrefix | vendor/github.com/barnybug/gogsmmodem/gsm.go:226 | with the prefix present, prefix + result is the input; otherwise the input is returned unchanged |
| GoStrings.TrimSuffix | vendor/github.com/barnybug/gogsmmodem/gsm.go:227 | with the suffix present, result + suffix is the input; otherwise the input is returned unchanged |
| GoStrings.Index | vendor/github.com/barnybug/gogsmmodem/gsm.go:187 | -1 exactly when the separator does not occur; otherwise an occurrence with none before it |
| GoStrings.SplitN | vendor/github.com/barnybug/gogsmmodem/gsm.go:187 | SplitN(s, sep, n) yields between one and n pieces |
| GoStrings.SplitNJoin | vendor/github.com/barnybug/gogsmmodem/gsm.go:187 | the pieces SplitN cuts join back, with the separator, to the original string |
| GoStrings.SplitFirst | vendor/github.com/barnybug/gogsmmodem/gsm.go:187 | splitting in two cuts at the first separator: head + sep + rest splits to [head, rest] when head (plus a partial separator) holds no separator |
| GoStrings.SplitAbsent | vendor/github.com/barnybug/gogsmmodem/gsm.go:187-188 | a string without the one-byte separator is not split |
| Commands.FormatCommand | vendor/github.com/barnybug/gogsmmodem/gsm.go:315-322 | every command line starts with "AT", ends in "\r\n" and is at least four bytes longer than the command; FormatCommandShape and FormatCommandPrefix characterize it further |
| Commands.FormatCommandShape | vendor/github.com/barnybug/gogsmmodem/gsm.go:315-322 | a command line starts with "AT" and the command and ends in "\r\n"; it is exactly "AT"+cmd+"\r\n" iff there are no arguments, and otherwise '=' follows the command |
| Commands.FirstMatch | vendor/github.com/barnybug/gogsmmodem/gsm.go:176 | the result is the leftmost position where `AT+` and an upper-case letter occur, or -1 when there is none |
| Commands.Capture | vendor/github.com/barnybug/gogsmmodem/gsm.go:176 | the submatch is '+' and the greedy run of upper-case letters, taken from the line itself |
| Commands.QuestionPrefix | vendor/github.com/barnybug/gogsmmodem/gsm.go:176 | no family exactly when `AT(\+[A-Z]+)` matches nowhere; otherwise the family (taken as `m[1]` at gsm.go:300-302) is the submatch ('+' and the greedy upper-case run) of the leftmost match |
| Commands.CaptureAtStart | vendor/github.com/barnybug/gogsmmodem/gsm.go:176 | a line starting with "AT" and a family prefix not followed by another upper-case letter matches at byte 0 and captures exactly that prefix |
| Commands.FormatCommandPrefix | vendor/github.com/barnybug/gogsmmodem/gsm.go:300-303 | a formatted command whose name starts with a family prefix (followed by a non-letter) makes exactly that prefix the expected family, whatever its arguments |
| Commands.EchoOfCommand | vendor/github.com/barnybug/gogsmmodem/gsm.go:304 | the echo expected for a command without arguments is the command line without its "\r\n" |
| Framer.CutFrom | vendor/github.com/barnybug/gogsmmodem/gsm.go:150-164 | the length of the first complete line, if any, lies within the stream; CutFromShortest and CutFromFirst characterize it |
| Framer.CutFromShortest | vendor/github.com/barnybug/gogsmmodem/gsm.go:150-164 | a line is cut at the shortest prefix that ends in a line feed or is exactly the prompt; no shorter prefix qualifies |
| Framer.CutFromFirst | vendor/github.com/barnybug/gogsmmodem/gsm.go:150-164 | conversely, the first qualifying prefix is where the line is cut |
| Framer.FirstLineWellFormed | vendor/github.com/barnybug/gogsmmodem/gsm.go:161-169 | the first line cut and trimmed is empty or well formed: no line feed inside, no `\r`/`\n` at the end |
| Framer.Lines | vendor/github.com/barnybug/gogsmmodem/gsm.go:145-171 | every emitted line is non-empty, holds no line feed and does not end in `\r` or `\n`; FrameTerminated, PromptLine, TerminatedLine and BlankLine characterize which lines come out |
| Framer.LinesStep | vendor/github.com/barnybug/gogsmmodem/gsm.go:166-170 | one round of the framing loop keeps the lines emitted so far followed by the lines still to come equal to all lines of the stream |
| Framer.ReadChunk | vendor/github.com/barnybug/gogsmmodem/gsm.go:148-164 | the inner loop gathers exactly the bytes up to the first complete line, or reports that the stream ended before one |
| Framer.Frame | vendor/github.com/barnybug/gogsmmodem/gsm.go:145-171 | the framing loop emits exactly Lines(stream), the lines whose properties the lemmas around it state |
| Framer.PromptLine | vendor/github.com/barnybug/gogsmmodem/gsm.go:161 | the prompt "> " is emitted as a line of its own without any terminator |
| Framer.TerminatedLine | vendor/github.com/barnybug/gogsmmodem/gsm.go:159-170 | a well-formed line (not starting with the prompt) sent with "\r\n" is emitted as itself |
| Framer.BlankLine | vendor/github.com/barnybug/gogsmmodem/gsm.go:166-169 | a bare "\r\n" is dropped |
| Framer.FrameTerminated | vendor/github.com/barnybug/gogsmmodem/gsm.go:150-170 | framing inverts terminating: well-formed lines, each sent with "\r\n", come back one for one |
| Parser.StrArg | vendor/github.com/barnybug/gogsmmodem/gsm.go:198 | the string assertion succeeds exactly when the argument exists and is a string, and yields it |
| Parser.IntArg | vendor/github.com/barnybug/gogsmmodem/gsm.go:202 | the integer assertion succeeds exactly when the argument exists and is an integer, and yields it |
| Parser.Ints | vendor/github.com/barnybug/gogsmmodem/gsm.go:238-243 | the integers kept are at most the arguments and each is one of them; with IntsAppend and IntsOne it is exactly the integer arguments in order |
| Parser.IntsAppend | vendor/github.com/barnybug/gogsmmodem/gsm.go:238-243 | the integers of a + b are those of a followed by those of b |
| Parser.IntsOne | vendor/github.com/barnybug/gogsmmodem/gsm.go:238-243 | a single argument is kept exactly when it is an integer |
| Parser.IntsAllInts | vendor/github.com/barnybug/gogsmmodem/gsm.go:238-243 | when every argument is an integer, all are kept, in order |
| Parser.CollectInts | vendor/github.com/barnybug/gogsmmodem/gsm.go:238-243 | the loop keeps exactly the integer arguments in order (Ints) |
| Parser.Cpms | vendor/github.com/barnybug/gogsmmodem/gsm.go:221-251 | the +CPMS case never yields nil, panics only on a reply starting with "(", and otherwise gives storage areas (only for a "(" reply), storage capacity, or the unknown +CPMS packet with all arguments |
| Parser.Dispatch | vendor/github.com/barnybug/gogsmmodem/gsm.go:193-259 | the switch yields nil exactly for +ZUSIMR, panics only for the tags that assert argument kinds, never the body prompt, and a message only for +CMGR/+CMGL, with the gathered body and marked last exactly for +CMGL with a non-empty status |
| Parser.ParsePacket | vendor/github.com/barnybug/gogsmmodem/gsm.go:178-260 | parsePacket never yields the body prompt, yields nil only for a "+ZUSIMR:" header, and any message carries the gathered body unchanged |
| Parser.ParseStatusOnly | vendor/github.com/barnybug/gogsmmodem/gsm.go:179-185 | an empty header closed by OK or ERROR is that status packet |
| Parser.ParseNoColon | vendor/github.com/barnybug/gogsmmodem/gsm.go:187-190 | a header without ':' (and not the status-only case) is an unknown packet named by the whole header, with no arguments |
| Parser.ParseTagged | vendor/github.com/barnybug/gogsmmodem/gsm.go:187-193 | a header "tag:rest" is dispatched on the tag before the first ':' with the rest trimmed |
| Parser.ParseZusimr | vendor/github.com/barnybug/gogsmmodem/gsm.go:194-196 | a +ZUSIMR header yields nil whatever follows it |
| Parser.DispatchNil | vendor/github.com/barnybug/gogsmmodem/gsm.go:193-259 | the switch yields nil exactly for the +ZUSIMR tag |
| Parser.ParseNilOnlyZusimr | vendor/github.com/barnybug/gogsmmodem/gsm.go:178-260 | parsePacket yields nil exactly when the header starts with "+ZUSIMR:" |
| Parser.DispatchNeverPrompt | vendor/github.com/barnybug/gogsmmodem/gsm.go:193-259 | the switch never yields the body prompt |
| Parser.ParseNeverPrompt | vendor/github.com/barnybug/gogsmmodem/gsm.go:178-260 | parsePacket never yields the body prompt |
| Parser.ParseServiceStatus | vendor/github.com/barnybug/gogsmmodem/gsm.go:197-198 | +ZPASR is the service status named by a string first argument, and a panic otherwise |
| Parser.ParseNetworkStatus | vendor/github.com/barnybug/gogsmmodem/gsm.go:199-200 | +ZDONR is the network status named by a string first argument, and a panic otherwise |
| Parser.DispatchCmgl | vendor/github.com/barnybug/gogsmmodem/gsm.go:212-220 | the +CMGL case is a message exactly when the arguments have the asserted kinds, and a panic otherwise |
| Parser.ParseCmgl | vendor/github.com/barnybug/gogsmmodem/gsm.go:212-220 | a +CMGL header is a message whose index is the first argument and whose body is the gathered body unchanged; it is marked last exactly when the status is non-empty, and it is a panic on wrong argument kinds |
| Parser.DispatchCmgr | vendor/github.com/barnybug/gogsmmodem/gsm.go:205-211 | the +CMGR case is a message exactly when the arguments have the asserted kinds, and a panic otherwise |
| Parser.ParseCmgr | vendor/github.com/barnybug/gogsmmodem/gsm.go:205-211 | a +CMGR header is a message with status, telephone, parsed timestamp and the gathered body, index 0 and not last; a panic on wrong argument kinds |
| Parser.DispatchCmti | vendor/github.com/barnybug/gogsmmodem/gsm.go:201-202 | the +CMTI case is a notification exactly for a string then an integer argument |
| Parser.ParseCmti | vendor/github.com/barnybug/gogsmmodem/gsm.go:201-202 | a +CMTI header is a notification naming storage and index, and a panic otherwise |
| Parser.DispatchCsca | vendor/github.com/barnybug/gogsmmodem/gsm.go:203-204 | the +CSCA case keeps all arguments |
| Parser.ParseCsca | vendor/github.com/barnybug/gogsmmodem/gsm.go:203-204 | a +CSCA header is an address packet carrying every argument as tokenized |
| Parser.DispatchCpms | vendor/github.com/barnybug/gogsmmodem/gsm.go:221 | the +CPMS tag goes to the +CPMS case with the tokenized arguments |
| Parser.Unparenthesize | vendor/github.com/barnybug/gogsmmodem/gsm.go:226-227 | trimming "(" then ")" from "(s)" gives back s |
| Parser.GroupsSplit | vendor/github.com/barnybug/gogsmmodem/gsm.go:228 | "a),(b),(d" splits into exactly a, b and d when a and b hold no ')' |
| Parser.SplitThree | vendor/github.com/barnybug/gogsmmodem/gsm.go:228 | a three-way split is the first cut followed by the two-way split of the rest |
| Parser.CpmsGroups | vendor/github.com/barnybug/gogsmmodem/gsm.go:222-228 | the query reply "(a),(b),(d)" yields the three groups a, b and d |
| Parser.DispatchCpmsQuery | vendor/github.com/barnybug/gogsmmodem/gsm.go:222-233 | a +CPMS reply starting with "(" lists the three storage groups, in order |
| Parser.DispatchCpmsQueryPanics | vendor/github.com/barnybug/gogsmmodem/gsm.go:222-233 | a +CPMS reply starting with "(" panics exactly when it has fewer than three groups, and otherwise lists storage areas |
| Parser.DispatchCpmsOneGroup | vendor/github.com/barnybug/gogsmmodem/gsm.go:222-232 | a query reply "(a)" with a single group panics on the missing groups |
| Parser.DispatchCpmsSet | vendor/github.com/barnybug/gogsmmodem/gsm.go:234-250 | a +CPMS set reply whose integer arguments (string arguments skipped) are six is the storage capacity in the order of those integers |
| Parser.DispatchCpmsSixInts | vendor/github.com/barnybug/gogsmmodem/gsm.go:234-250 | in particular, a set reply of exactly six integers is the capacity in argument order |
| Parser.DispatchCpmsOtherCount | vendor/github.com/barnybug/gogsmmodem/gsm.go:244-259 | a +CPMS set reply with any other number of integers is an unknown +CPMS packet carrying all the arguments |
| Parser.DispatchUnknown | vendor/github.com/barnybug/gogsmmodem/gsm.go:259 | a non-empty tag the switch does not know is an unknown packet with its arguments |
| Parser.ParseUnknownTag | vendor/github.com/barnybug/gogsmmodem/gsm.go:187-259 | a header with an unknown tag is an unknown packet with that tag and its arguments |
| Engine.Reply | vendor/github.com/barnybug/gogsmmodem/gsm.go:273-280 | a parse result is handed over as the packet, as nil, or ends the listener when it is a panic |
| Engine.Step | vendor/github.com/barnybug/gogsmmodem/gsm.go:267-295 | an incoming line never changes the echo or the family, emits nothing, a reply, an out-of-band packet or a crash, and leaves the state as it was on a crash; the Step lemmas characterize each branch |
| Engine.Transmit | vendor/github.com/barnybug/gogsmmodem/gsm.go:300-304 | an outgoing command leaves header and body alone, sets the family to a '+' family or keeps it, and keeps the state valid; TransmitFamily and TransmitPlain characterize it |
| Engine.Run | vendor/github.com/barnybug/gogsmmodem/gsm.go:262-313 | the loop emits at most one event per input and keeps the state valid (the family empty or a '+' family); RunFirst characterizes it: one step, then the rest of the run unless that step crashed |
| Engine.Listener.constructor | vendor/github.com/barnybug/gogsmmodem/gsm.go:264 | the four variables start empty |
| Engine.Listener.OnLine | vendor/github.com/barnybug/gogsmmodem/gsm.go:267-295 | one incoming line updates the variables and emits the event as Step says |
| Engine.Listener.StartRecord | vendor/github.com/barnybug/gogsmmodem/gsm.go:270-277 | a line of the family hands over the record held, if any, and starts a new record (Flush) |
| Engine.Listener.CloseReply | vendor/github.com/barnybug/gogsmmodem/gsm.go:278-282 | OK or ERROR hands over the reply and clears header and body (Close) |
| Engine.Listener.OnUnsolicited | vendor/github.com/barnybug/gogsmmodem/gsm.go:289-294 | a line outside a reply is sent out of band unless it parses to nil (Unsolicited) |
| Engine.Listener.OnTx | vendor/github.com/barnybug/gogsmmodem/gsm.go:296-305 | an outgoing command sets the family (when it names one) and the echo, and is written |
| Engine.Listener.Handle | vendor/github.com/barnybug/gogsmmodem/gsm.go:266-306 | one turn of the loop does what Do says for whichever channel delivered |
| Engine.Listener.Listen | vendor/github.com/barnybug/gogsmmodem/gsm.go:262-313 | the loop over a run of inputs ends in the state and with the events Run gives, stopping at a crash |
| Engine.StepEcho | vendor/github.com/barnybug/gogsmmodem/gsm.go:268-269 | a line equal to the echo changes nothing and emits nothing |
| Engine.StepStatus | vendor/github.com/barnybug/gogsmmodem/gsm.go:278-282 | OK or ERROR emits exactly one reply, parsed with that status from the header and body, and leaves header and body empty |
| Engine.StepFlush | vendor/github.com/barnybug/gogsmmodem/gsm.go:270-277 | a family line with a header held first emits parsePacket("", header, body), then holds the line as header with an empty body |
| Engine.StepBody | vendor/github.com/barnybug/gogsmmodem/gsm.go:283-285 | any other line while a header is held is appended to the body with no separator |
| Engine.StepOob | vendor/github.com/barnybug/gogsmmodem/gsm.go:289-294 | a line is sent out of band exactly when no other branch applies and it parses to a packet, and it is that packet |
| Engine.StepZusimrDropped | vendor/github.com/barnybug/gogsmmodem/gsm.go:291-294 | nil never reaches the out-of-band channel: a +ZUSIMR line outside a reply is dropped |
| Engine.StepPrompt | vendor/github.com/barnybug/gogsmmodem/gsm.go:286-288 | the requester gets the body prompt exactly for the prompt line outside a reply |
| Engine.StepUnsolicited | vendor/github.com/barnybug/gogsmmodem/gsm.go:289-294 | a line in the last branch leaves the state unchanged and is an out-of-band packet, nothing, or a crash |
| Engine.TransmitFamily | vendor/github.com/barnybug/gogsmmodem/gsm.go:300-304 | a command of a family makes it the expected family and the line without terminator the echo, keeping the state valid |
| Engine.TransmitPlain | vendor/github.com/barnybug/gogsmmodem/gsm.go:300-304 | a command without '+' or arguments (ATZ, ATE0) keeps the expected family and sets the echo to the bare command |
| Engine.RecordStep | vendor/github.com/barnybug/gogsmmodem/gsm.go:270-285 | a record's header hands over the record held and its body line becomes the new body |
| Engine.ListingFrom | vendor/github.com/barnybug/gogsmmodem/gsm.go:270-282 | with a record held, records and the closing OK hand over one reply per record, in order, the last parsed with OK, and leave no reply gathered |
| Engine.ListingFromIdle | vendor/github.com/barnybug/gogsmmodem/gsm.go:270-282 | from no reply held, a listing hands over one reply per record and nothing for the first header |
| Engine.ListedReply | vendor/github.com/barnybug/gogsmmodem/gsm.go:212-220 | a well-formed +CMGL record parses to a message with its body, marked last exactly for a non-empty status |
| Engine.ListingAt | vendor/github.com/barnybug/gogsmmodem/gsm.go:273-279 | reply i of a listing is record i parsed with an empty status, or with OK for the last |
| Engine.ListingMessages | vendor/github.com/barnybug/gogsmmodem/gsm.go:212-220 | the replies of a +CMGL listing are messages carrying the records' bodies, and only the one closed by OK is marked last |
| Engine.ListingReplies | vendor/github.com/barnybug/gogsmmodem/gsm.go:270-282 | n well-formed +CMGL records and OK arriving outside a reply hand the requester exactly n messages in order, with the records' bodies, only the last marked last |
| Facade.Answer | vendor/github.com/barnybug/gogsmmodem/gsm.go:341-349 | send fails exactly on a timeout or an ERROR reply; otherwise it returns the delivered reply, nil included |
| Facade.GetMessageOf | vendor/github.com/barnybug/gogsmmodem/gsm.go:82-92 | a success carries index n and comes from a delivered message; a failure is "Message not found" or send's own error; GetMessageOutcome characterizes it |
| Facade.GetMessageOutcome | vendor/github.com/barnybug/gogsmmodem/gsm.go:82-92 | GetMessage succeeds exactly on a delivered message, returned with its index overwritten by n; any other packet is "Message not found"; timeout and ERROR pass through |
| Facade.StorageAreasOf | vendor/github.com/barnybug/gogsmmodem/gsm.go:121-130 | a success is exactly the areas of a delivered storage-areas packet; a failure is an unexpected response type or send's own error |
| Facade.StorageAreasOutcome | vendor/github.com/barnybug/gogsmmodem/gsm.go:121-130 | the query succeeds exactly on a delivered storage-areas packet and returns its areas; any other delivered reply is an unexpected response type; a timeout or ERROR passes send's error through |
| Facade.NextDelivery | vendor/github.com/barnybug/gogsmmodem/gsm.go:116 | a raw channel read returns the next delivered reply, skipping silences, or finds none before the script ends |
| Facade.Collect | vendor/github.com/barnybug/gogsmmodem/gsm.go:106-118 | the loop never moves back in the script, fails only with an unexpected reply or a blocked read, and a success adds at least one message; CollectSuccess and CollectFailure characterize it |
| Facade.CollectedStep | vendor/github.com/barnybug/gogsmmodem/gsm.go:106-116 | a message not marked last followed by a collection from the next delivery is a collection from that message |
| Facade.CollectSuccess | vendor/github.com/barnybug/gogsmmodem/gsm.go:106-118 | a successful listing holds exactly the replies received, in arrival order, all messages, ending at the first one marked last (Collected) |
| Facade.CollectFailure | vendor/github.com/barnybug/gogsmmodem/gsm.go:106-118 | a listing fails only on a non-message reply after unfinished messages, or when the script ends while waiting |
| Facade.ListSpec | vendor/github.com/barnybug/gogsmmodem/gsm.go:95-119 | ListMessages writes one command, consumes at least one answer, and a non-empty list ends with a message marked last |
| Facade.ListBareOK | vendor/github.com/barnybug/gogsmmodem/gsm.go:100-104 | a bare OK reply is the empty list without error |
| Facade.ResetRetry | vendor/github.com/barnybug/gogsmmodem/gsm.go:368-374 | an unanswered ATZ before the fifth is followed by ESC and the next attempt |
| Facade.ResetStop | vendor/github.com/barnybug/gogsmmodem/gsm.go:364-370 | an answered ATZ, or the fifth, ends the loop with that answer |
| Facade.ResetSpec | vendor/github.com/barnybug/gogsmmodem/gsm.go:363-374 | the loop writes one line per answer taken, at most 2(5 - i) - 1 of them; success means the last ATZ was answered, and failure means all attempts were made |
| Facade.Attempts | vendor/github.com/barnybug/gogsmmodem/gsm.go:363-374 | the loop sends from one to five ATZ |
| Facade.ResetShape | vendor/github.com/barnybug/gogsmmodem/gsm.go:363-374 | the loop writes ATZ and ESC alternately, ATZ first and last, one ESC after each failed attempt but the last |
| Facade.ResetOutcome | vendor/github.com/barnybug/gogsmmodem/gsm.go:363-374 | every ATZ but the last went unanswered; the reset succeeds exactly when the last was answered, and gives up only after five |
| Facade.ResetGivesUp | vendor/github.com/barnybug/gogsmmodem/gsm.go:363-370 | init gives up on the reset exactly when all five ATZ went unanswered |
| Facade.ConfigureSpec | vendor/github.com/barnybug/gogsmmodem/gsm.go:376-409 | configuration writes one to five lines, one per answer taken, all five when it succeeds, and never reports a reset failure |
| Facade.ConfigureEchoesSmsc | vendor/github.com/barnybug/gogsmmodem/gsm.go:398-408 | after a successful configuration, the last two lines written are the +CSCA? query and the +CSCA set built from exactly the arguments it returned |
| Facade.ConfigureSucceeds | vendor/github.com/barnybug/gogsmmodem/gsm.go:376-408 | configuration succeeds exactly when echo-off, storage (with a storage report), the address query (with an address) and the set command are answered; text mode's answer does not matter |
| Facade.InitSpec | vendor/github.com/barnybug/gogsmmodem/gsm.go:352-410 | init takes one answer per line written, and reports a reset failure exactly when the reset loop failed |
| Facade.InitEchoesSmsc | vendor/github.com/barnybug/gogsmmodem/gsm.go:362-408 | a successful init ends by setting the service centre to exactly the address the modem reported |
| Facade.SendBodySpec | vendor/github.com/barnybug/gogsmmodem/gsm.go:324-336 | sendBody writes one or two lines, one per answer taken, and succeeds only after writing both; SendBodyAfterPrompt characterizes it |
| Facade.SendBodyAfterPrompt | vendor/github.com/barnybug/gogsmmodem/gsm.go:324-336 | the body, terminated by Ctrl-Z, is written exactly when the command's answer is the body prompt, and the result is then the body's answer; any other non-error answer is "expected body prompt" |
| Facade.Modem.constructor | vendor/github.com/barnybug/gogsmmodem/gsm.go:43-68 | a modem starts at the beginning of its script with nothing written |
| Facade.Modem.Send | vendor/github.com/barnybug/gogsmmodem/gsm.go:338-350 | send writes the command and takes one answer (Answer) |
| Facade.Modem.Receive | vendor/github.com/barnybug/gogsmmodem/gsm.go:116 | the raw read loop returns what NextDelivery gives and writes nothing |
| Facade.Modem.GetMessage | vendor/github.com/barnybug/gogsmmodem/gsm.go:82-92 | one +CMGR command, with the outcome GetMessageOutcome characterizes |
| Facade.Modem.ListMessages | vendor/github.com/barnybug/gogsmmodem/gsm.go:95-119 | one +CMGL command, then the collection loop, with the outcome ListSpec gives (see CollectSuccess, CollectFailure, ListBareOK) |
| Facade.Modem.SupportedStorageAreas | vendor/github.com/barnybug/gogsmmodem/gsm.go:121-130 | one +CPMS query, with the outcome StorageAreasOutcome characterizes |
| Facade.Modem.DeleteMessage | vendor/github.com/barnybug/gogsmmodem/gsm.go:132-135 | one +CMGD command; its only result is send's error |
| Facade.Modem.SendBody | vendor/github.com/barnybug/gogsmmodem/gsm.go:324-336 | the command and then the body as SendBodySpec gives (see SendBodyAfterPrompt) |
| Facade.Modem.SendMessage | vendor/github.com/barnybug/gogsmmodem/gsm.go:137-141 | sendBody of +CMGS with the encoded body and the telephone number; only the error is returned |
| Facade.Modem.ResetAttempt | vendor/github.com/barnybug/gogsmmodem/gsm.go:364-373 | one ATZ, answered exactly when send succeeds, followed by ESC when it failed and is not the fifth |
| Facade.Modem.Reset | vendor/github.com/barnybug/gogsmmodem/gsm.go:363-374 | the reset loop ends with the result, position and lines ResetSpec gives (see ResetShape, ResetOutcome) |
| Facade.Modem.Configure | vendor/github.com/barnybug/gogsmmodem/gsm.go:376-409 | the steps after the reset, as ConfigureSpec gives (see ConfigureSucceeds, ConfigureEchoesSmsc) |
| Facade.Modem.Init | vendor/github.com/barnybug/gogsmmodem/gsm.go:362-409 | reset and configuration, as InitSpec gives (see InitEchoesSmsc) |

## Left out

- Goroutines, channels, `select`, timers, and the startup `ready` wait
  (gsm.go:43-69, 307-311, 353-360). `send`'s timeout is a `Silence`
  entry in the script.
- `Close` (gsm.go:71-77). A closed transmit channel ending the listener
  (gsm.go:297-299) is the end of the input run.
- The interleaving of the listener and the facade. The two are modelled
  separately: the facade sees the listener's replies as a script.
- Logging and the `LogReadWriteCloser` debug wrapper.
- Read errors other than end of stream, which make the framer panic
  (gsm.go:155-157). The stream is a finite string.
- `unquotes`, `quotes`, `stringsUnquotes`, `parseTime`, `gsmEncode` and
  `startsWith` are uninterpreted `Codec` fields. Their definitions, the
  GSM 7-bit alphabet and timestamp formats are not part of this model.
- The regular expression engine. `AT(\+[A-Z]+)` is written out as a
  leftmost search with a greedy run of upper-case letters, which is what
  that pattern matches.
- Go panics: a failed type assertion or a missing argument is the `Panic`
  parse result, the listener's `Crash` event, and `init`'s `Panic` error.
  The goroutine dying is not modelled beyond that.
- A raw `<-self.rx` read in `ListMessages` has no timeout; when the script
  ends first, the model reports `Blocked` instead of waiting forever.
- Go's `TrimSpace` also trims Unicode white space. The model trims the
  six ASCII white-space bytes, since the engine works on single bytes.
- GoStrings.TrimSpace: states the ends of the result and the unchanged
  case, but not that the result is the middle of the input.
- GoStrings.SplitN: its own contract bounds only the number of pieces. The
  pieces are characterized by SplitNJoin, SplitFirst and SplitThree.
- Parser.GroupsSplit: covers query replies whose first two groups hold no
  ')', which is the form the modem sends.
- Parser.CpmsGroups: the same restriction as GroupsSplit.
- Parser.DispatchCpmsQuery: the same restriction as GroupsSplit. The panic
  for fewer than three groups is stated by DispatchCpmsQueryPanics.
- Framer.PromptLine: covers the prompt at the start of the remaining
  stream, which is where the framer meets it after any complete line.
