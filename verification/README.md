# logserv — a Dafny model of the log relay

logserv is a small real-time log relay built on socket.io. Producers connect
as a `LogClient`, log lines at five severities, and the `LogServer` fans every
entry out to the subscribers of the producer's channel and to the wildcard
subscribers of `*`. It also appends each entry to a log file. This project
models the relay's logic as pure functions over immutable data and proves
properties of them:

- `types.dfy` (module `Types`): the `LogSeverity` enum, the JavaScript values
  carried as payloads (`JsValue`, numbers as integers), and the four wire
  events. Their declared shapes (`ServerEvents`, `ClientEvents`) are given as
  datatypes with an encoding to positional wire messages.
- `util.dfy` (module `Util`): `getTimestamp` over a `Date`'s local-time
  fields, the `SeverityTags` and `SeverityColors` tables with their fallbacks,
  and `getLogPrefix`. The prefix records which colour is chosen rather than
  the terminal escape around the text. `DEFAULT_LOGSERVER_PORT` is
  `Util.DefaultLogServerPort` (7031).
- `text.dfy` (module `Text`): decimal rendering of integers and
  `padStart(2, '0')`. It also holds a split and join on a separator. The
  parsers in it are not part of the program; they are the inverses against
  which the renderings are proved to lose nothing.
- `rooms.dfy` (module `Rooms`): socket.io rooms as a map from room name to a
  set of socket ids, with `join`, `leave` and the library's own cleanup on
  disconnect.
- `admission.dfy` (module `Admission`): the handshake middleware's decision,
  taken from the channel claim and from what `isAuthorized` did.
- `relay.dfy` (module `Relay`): the server as a state machine. Its state is
  the rooms, each connected socket's handshake channel, the "already warned"
  flag and the number of file appends in flight. `Step` maps
  each input (handshake, received message, disconnect, settled file append) to
  the next state and its effects. The effects are a multiset of pushes, file
  appends started, warnings printed, and the refusal sent to a handshaking
  client. `Run` folds `Step` over a sequence of inputs.
- `client.dfy` (module `Client`): the client as an outbox of emitted messages
  plus the console lines it prints.

Things the model makes explicit:

- The client emits `log(channel, severity, timestamp, ...messages)`
  (src/client.ts:19). The declared protocol (src/types.ts:16) and the server's
  handler (src/server.ts:51) take `log(severity, timestamp, ...messages)`. Both
  sides are modelled as written. `Client.ServerMisreadsClientLog` spells out
  the consequence: the server reads the client's channel name as the severity,
  the severity number as the date, and the ISO date as the first message.
- The server publishes a `log` event under the sender's handshake channel,
  not under anything in the event: the handler uses the `channel` read from
  the handshake (src/server.ts:45, 52), so the event's arguments never choose
  the channel.
- Removing a disconnected socket from its rooms is done by socket.io, not by
  this code (src/server.ts:48-50 only logs). `Rooms.LeaveAll` models it as an
  assumption about the library.

## Model

| member | source | states |
|---|---|---|
| Types.FromOrdinal | src/types.ts:1-7 | a number names an enum member exactly when it is 0..4 |
| Types.SeverityTotalOrder | src/types.ts:1-7 | the declaration order Trace < Debug < Info < Warn < Error is a strict total order |
| Types.OrdinalRoundTrip | src/types.ts:1-7 | every severity's number maps back to that severity |
| Types.ServerEventRoundTrip | src/types.ts:10-12 | a declared `push` (channel, severity, timestamp, messages) survives encoding to positional arguments and decoding |
| Types.ServerWireRoundTrip | src/types.ts:10-12 | any wire message that decodes as a `push` is the encoding of what it decodes to |
| Types.ClientEventRoundTrip | src/types.ts:15-19 | declared `log`, `sub` and `unsub` events survive encoding and decoding |
| Types.ClientWireRoundTrip | src/types.ts:15-19 | any wire message that decodes as a client event is the encoding of it |
| Types.DeclaredArities | src/types.ts:11-18 | `push` has three arguments before the messages, `log` two with the severity first and no channel, `sub`/`unsub` exactly one |
| Types.Truthy | src/server.ts:25 | the falsy values are exactly `undefined`, `null`, `false`, `0` and `""`; everything else passes `!x` as true |
| Types.JsToString | src/util.ts:30-31 | a template literal prints only `""` as the empty string; a number prints as decimal text that reads back as that number; a string prints as itself |
| Types.TruthyPrintsNonEmpty | src/util.ts:30-32 | a truthy value never prints as the empty string, so testing `extra` and printing it agree |
| Text.NatToString | src/util.ts:7 | the decimal rendering of a month or day is non-empty, all digits, one character exactly below 10, and has no leading zero |
| Text.IntToStringRoundTrip | src/util.ts:7 | the decimal rendering of an integer reads back as that integer |
| Text.PadStart | src/util.ts:8 | padStart keeps the string as its suffix, fills only in front and never truncates |
| Text.Pad2RoundTrip | src/util.ts:8 | every clock field padded with '0' to two characters reads back as the field |
| Util.YearMod100 | src/util.ts:7 | the year modulo 100 keeps the year's sign, as JavaScript's truncating `%` does |
| Util.TimePartWidth | src/util.ts:8 | hours, minutes and seconds below 100 give an eight-character `hh:mm:ss` |
| Util.Timestamp | src/util.ts:6-10 | the only space in the timestamp separates the `yy/m/d` date from the `hh:mm:ss` time |
| Util.TimestampFields | src/util.ts:6-10 | the six fields a reader finds between the separators are, in order, year mod 100, month0+1, day, and the three padded clock fields |
| Util.TimestampShape | src/util.ts:7-8 | the three date fields carry no leading zero (the month and day are not padded) and the three clock fields are at least two digits wide |
| Util.TimestampRoundTrip | src/util.ts:6-10 | parsing the timestamp recovers year mod 100, month0+1, day, hours, minutes and seconds, so the text loses none of them |
| Util.NumericKey | src/util.ts:29 | indexing the tables with a number finds an entry exactly for the enum values 0..4 |
| Util.SeverityTagTable | src/util.ts:20-34 | severities 0..4 show TRACE, DEBUG, INFO, WARN, ERROR; any other number shows INFO and gets colour #FFFFFF |
| Util.TagsDistinctColorsShared | src/util.ts:12-26 | tags tell severities apart; Trace and Debug share #6A04E8 and Info's colour equals the fallback |
| Util.Tag | src/util.ts:29 | a number 0..4 shows the tag of the enum member it names, any other number INFO, and the tag is always one of the five |
| Util.Color | src/util.ts:34 | a number 0..4 gets the colour of the enum member it names, any other number #FFFFFF, and the colour is always one of the four in the table |
| Util.LogPrefix | src/util.ts:28-38 | a colour is chosen exactly when colorize is set; for an enum value it is that member's table colour, and a severity with no table entry gets #FFFFFF |
| Util.PrefixShowsTag | src/util.ts:28-32 | the printed prefix ends with the severity's tag (INFO for an unknown one), which a reader can pick out whether or not `extra` is shown |
| Util.PrefixTextLayout | src/util.ts:30-32 | the text is `[ts extra/TAG]` for a non-empty extra and `[ts TAG]` for an empty one |
| Util.PlainPrefixIsText | src/util.ts:33-38 | with colorize false the result is exactly the plain text with no colour |
| Rooms.Join | src/server.ts:56 | joining adds exactly this socket to exactly this room |
| Rooms.Leave | src/server.ts:60 | leaving removes exactly this socket from exactly this room |
| Rooms.LeaveAll | src/server.ts:48-50 | the library's disconnect cleanup takes the socket out of every room and moves nobody else |
| Rooms.JoinIdempotent | src/server.ts:56 | joining a room the socket is already in changes nothing, so a repeated `sub` is harmless |
| Rooms.LeaveUndoesJoin | src/server.ts:54-61 | unsub after sub of a socket that was not subscribed restores every room |
| Rooms.JoinThenLeaveAll | src/server.ts:48-56 | after a join and the disconnect cleanup the socket is in no room |
| Admission.Admit | src/server.ts:23-33 | nothing is refused exactly when the claim is truthy and the predicate returned a truthy value; InternalServerError exactly when the claim is truthy and the predicate threw; a falsy claim gives Unauthorized |
| Admission.MissingClaimIgnoresPredicate | src/server.ts:25-27 | without a truthy claim the predicate's outcome cannot change the verdict, which is Unauthorized |
| Admission.DefaultPredicateRefusesNothing | src/server.ts:40-42 | with the default predicate a truthy claim is refused nothing |
| Admission.ReasonsDistinguishable | src/server.ts:27-31 | the two refusal messages differ |
| Admission.NextCallsAsWritten | src/server.ts:23-33 | as written, `next` is called once on a refusal and never when the socket passes |
| Admission.AsWrittenAdmittedClientHangs | src/server.ts:25-28 | a client with a claim and the default predicate gets no `next()` call at all |
| Admission.NextCalls | src/server.ts:23-33 | the corrected middleware calls `next` exactly once: `next()` when nothing is refused, `next(err)` with the refusal otherwise |
| Admission.CorrectionKeepsRefusals | src/server.ts:23-33 | the correction only adds the missing `next()`; all refusals stay as written |
| Relay.SocketLabel | src/server.ts:110-115 | the label ends with the socket id, begins with `channel/` when the channel is truthy, and is the bare id otherwise |
| Relay.SocketLabelInjective | src/server.ts:110-115 | under one channel, different sockets get different labels |
| Relay.ToEach | src/server.ts:66 | an emit to a room delivers the message once to every member and to nobody else |
| Relay.Fanout | src/server.ts:64-67 | a publication delivers one copy per room, of the channel's room and `logs/*`, that the socket is in, and nothing to anyone else |
| Relay.FanoutCopies | src/server.ts:66-67 | a socket in both rooms gets two pushes, in neither none; on channel `*` every wildcard subscriber gets two; no socket gets any other message |
| Relay.Publish | src/server.ts:64-74 | every push carries the channel, severity, ISO date and messages unchanged and in order; one file append is started; an invalid date throws before anything is pushed or written |
| Relay.PushIsDeclared | src/server.ts:66-67 | with a string channel and an enum severity the relay's push is exactly the declared `push` event |
| Relay.Handshake | src/server.ts:23-46 | an admitted socket is connected under its claim; a refused one is not connected and gets the verdict's reason; the rooms do not change |
| Relay.ReadLog | src/server.ts:51 | the handler binds its arguments positionally: with at least two, they are severity, timestamp and then the messages in order |
| Relay.OnLog | src/server.ts:51-53 | every push of a `log` event carries the sender's handshake channel with the event's severity and messages |
| Relay.OnSub | src/server.ts:54-57 | `sub` adds exactly the sender to `logs/<channel>`; no other room, socket or state changes and nothing is sent |
| Relay.OnUnsub | src/server.ts:58-61 | `unsub` removes exactly the sender from `logs/<channel>`; nothing else changes |
| Relay.OnDisconnect | src/server.ts:48-50 | after a disconnect the socket is neither connected nor in any room, and every other membership is unchanged |
| Relay.OnWriteFailure | src/server.ts:75-79 | a failed append sets the flag and warns exactly when the flag was clear |
| Relay.OnWriteSettled | src/server.ts:71-79 | a settling file append never touches rooms or connections and sends nothing |
| Relay.Step | src/server.ts:44-61 | only a connected socket's `log`, `sub` and `unsub` have handlers, and any other event changes nothing; only a handshake adds a connection; only a `log`, a handshake or a disconnect pushes; only a settled file append can warn |
| Relay.StepPreservesValid | src/server.ts:44-61 | every step keeps rooms non-empty, holding only connected sockets, and connected sockets with truthy claims |
| Relay.StepPushesOnlyToConnected | src/server.ts:64-67 | a push only goes to a socket connected both before and after the step |
| Relay.StepWarning | src/server.ts:75-79 | a step warns at most once, only while the flag is clear, sets the flag when it warns, and never clears it |
| Relay.FirstFailureWarns | src/server.ts:75-79 | the first failed append prints the warning and leaves distribution state untouched |
| Relay.WarnsAtMostOnce | src/server.ts:71-108 | over any sequence of inputs at most one warning is printed, none once the flag is set, and the flag stays set |
| Relay.RunPreservesValid | src/server.ts:44-61 | the state invariant holds after any sequence of inputs |
| Relay.UnadmittedReceivesNothing | src/server.ts:23-33 | a socket never admitted by a handshake receives no push over any sequence of inputs |
| Relay.LogPublishedUnderHandshakeChannel | src/server.ts:45-53 | a `log` event fans out under the sender's handshake channel whatever its arguments, with severity, date and messages in order, and starts one file append |
| Relay.BuildScenario | src/server.ts:51-69 | with X on "build", Y on "*" and Z on "deploy", a "build" entry reaches X and Y once each and Z not at all |
| Relay.DefaultPredicateConnects | src/server.ts:23-46 | with the default predicate a truthy claim connects the socket under that claim |
| Relay.RefusedHandshake | src/server.ts:23-33 | a refused socket stays unconnected: a falsy claim or false predicate gives Unauthorized, a throwing predicate InternalServerError |
| Relay.SubscribeUnsubscribe | src/server.ts:54-61 | `sub(ch)` joins the sender to `logs/` + ch and `unsub(ch)` removes it; no other room or connection changes |
| Relay.SubscribeThenDisconnect | src/server.ts:48-56 | a socket that subscribed and then disconnected is in no room |
| Client.Log | src/client.ts:17-20 | one `log` message is appended: the client's channel, the severity number, the date, the messages in order; one console line with the severity and no channel |
| Client.LevelMethodsSendTheirOrdinal | src/client.ts:22-26 | trace, debug, info, warn and error each append exactly one `log` message with their severity |
| Client.LogMessageLayout | src/client.ts:19 | the message carries channel, severity 0..4, date and messages in that order |
| Client.MirrorLineShowsSeverity | src/client.ts:18 | the mirror line's prefix is `[ts TAG]` with the call's tag and colour and no channel |
| Client.Listen | src/client.ts:28-30 | exactly one `sub` message is appended, for the given channel or `*` when omitted; nothing is printed |
| Client.ExtraOf | src/client.ts:13 | the pushed channel is shown in the prefix exactly when it is truthy, and what is shown is its template-literal text |
| Client.OnPush | src/client.ts:12-14 | a push prints one line with the push's messages and the severity's colour and sends nothing |
| Client.PushLineShowsPush | src/client.ts:12-14 | a declared push prints `[ts channel/TAG]` with the push's severity tag, followed by its messages unchanged |
| Client.LogMessageVersusDeclared | src/client.ts:19 | the client's `log` message is the declared one with the channel put in front, so it is not a well-formed declared `log` |
| Client.ServerMisreadsClientLog | src/client.ts:19 | the server's handler binds the channel as severity, the severity number as date and the date as first message; the pushed tag is INFO unless the channel is "0".."4" |

## Left out

- `LogServer.fromEnv` (environment variables, TLS files, HTTP listen) and `LogClient.connect` (socket creation, `connect_error` logging): I/O.
- The socket transport, reconnection, and the asynchronous scheduling of middleware and handlers. Inputs are applied one at a time in `Relay.Step`.
- socket.io's own per-socket room, named after the socket id. Only the `logs/` rooms are modelled.
- Console text other than the client's lines: the server's `console.log`, `console.info` and `console.warn` output is not modelled. The warning is counted in `Effects.warnings`.
- The log file's contents, its path, YAML and `marshal`. Each file append is counted as started, and its success or failure arrives later as a `WriteSettled` input.
- chalk's escape codes. Only the colour string that is chosen is kept.
- `Date`: the server's `new Date(x).toISOString()` and `new Date()` come in as ISO strings. An invalid date is `None`, on which `toISOString` throws. The client's local-time getters come in as `DateFields`. Time zones and parsing are not modelled. The two clock readings in `#log` are separate parameters.
- Relay.Publish: when `toISOString` throws, the model stops the publication (no push, no file append). What the uncaught error then does to the process is not modelled.
- JavaScript numbers are integers here: NaN, infinities, fractions, -0 and exponent notation are not modelled.
- Util.SeverityKey: property lookup on the tag and colour tables sees only the five own keys "0".."4". Inherited keys such as "toString" are not modelled.
- Types.JsToString: objects print as "[object Object]"; arrays and errors print differently in JavaScript.
- Relay.Step: a handshake under an already connected socket id is ignored. The library never reuses ids.
- Relay.OnWriteSettled: the "already warned" flag is a module-level variable (src/server.ts:108) shared by every `LogServer` in the process; the model follows one server per process, so one server's failure silencing another's warning is not modelled.

## Findings

| source | as written | input that shows it | evidently intended | confidence | as-written member | corrected member |
|---|---|---|---|---|---|---|
| src/server.ts:25-28 | the middleware calls `next` only on refusal; a socket that passes returns without `next()`, and socket.io then never completes its handshake | claim `"app"` with the default `isAuthorized` | `next()` is called once without an error, so the socket connects and `#onConnect` runs | not executed; rests on socket.io's documented rule that a middleware must call `next` | Admission.AsWrittenAdmittedClientHangs | Admission.NextCalls |

`Admission.NextCallsAsWritten` models the written middleware. `Relay.Handshake` uses the corrected behaviour: a socket connects exactly when `Admission.Proceeds` holds.
