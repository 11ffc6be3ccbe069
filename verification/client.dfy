/** The log client: every public call becomes exactly one message in the
    socket's outbox, and log calls and incoming pushes each print one console
    line. The socket's connection handling is not modelled; messages are
    appended to the outbox in call order. */
module Client {
  import opened Wrappers
  import Types
  import opened Util
  import Relay

  /** `console.log(prefix, ...messages)`. */
  datatype ConsoleLine = ConsoleLine(prefix: Prefix, messages: seq<Types.JsValue>)

  datatype Client = Client(channel: string, outbox: seq<Types.WireMessage>, console: seq<ConsoleLine>)

  /** `new LogClient(channel, socket)` on a socket that has sent nothing. */
  function New(channel: string): Client {
    Client(channel, [], [])
  }

  /** The message `#log` emits: the client's channel first, then the severity,
      the date and the messages. */
  function LogMessage(channel: string, severity: Types.Severity, iso: string, messages: seq<Types.JsValue>): Types.WireMessage {
    Types.WireMessage(Types.LogEvent, [Types.Str(channel), Types.Num(Types.Ordinal(severity)), Types.Str(iso)] + messages)
  }

  /** `#log(severity, ...messages)`. The clock is read twice: `local` are the
      local-time fields of the first reading (for the console line), `iso` is
      the ISO form of the second (for the wire). */
  function Log(c: Client, severity: Types.Severity, messages: seq<Types.JsValue>, local: DateFields, iso: string): (c': Client)
    ensures c'.channel == c.channel
    ensures |c'.outbox| == |c.outbox| + 1 && c'.outbox[..|c.outbox|] == c.outbox
    ensures |c'.console| == |c.console| + 1 && c'.console[..|c.console|] == c.console
    ensures var m := c'.outbox[|c.outbox|];
      && m.event == Types.LogEvent
      && |m.args| == 3 + |messages|
      && m.args[0] == Types.Str(c.channel)
      && m.args[1] == Types.Num(Types.Ordinal(severity))
      && m.args[2] == Types.Str(iso)
      && m.args[3..] == messages
    ensures var line := c'.console[|c.console|];
      && line.prefix == LogPrefix(Types.Num(Types.Ordinal(severity)), "", local, true)
      && line.messages == messages
  {
    var m := LogMessage(c.channel, severity, iso, messages);
    assert m.args[3..] == messages;
    c.(outbox := c.outbox + [m],
       console := c.console + [ConsoleLine(LogPrefix(Types.Num(Types.Ordinal(severity)), "", local, true), messages)])
  }

  function Trace(c: Client, messages: seq<Types.JsValue>, local: DateFields, iso: string): Client {
    Log(c, Types.Trace, messages, local, iso)
  }

  function Debug(c: Client, messages: seq<Types.JsValue>, local: DateFields, iso: string): Client {
    Log(c, Types.Debug, messages, local, iso)
  }

  function Info(c: Client, messages: seq<Types.JsValue>, local: DateFields, iso: string): Client {
    Log(c, Types.Info, messages, local, iso)
  }

  function Warn(c: Client, messages: seq<Types.JsValue>, local: DateFields, iso: string): Client {
    Log(c, Types.Warn, messages, local, iso)
  }

  function Error(c: Client, messages: seq<Types.JsValue>, local: DateFields, iso: string): Client {
    Log(c, Types.Error, messages, local, iso)
  }

  /** The five level methods send severities 0 to 4, one message each. */
  lemma LevelMethodsSendTheirOrdinal(c: Client, messages: seq<Types.JsValue>, local: DateFields, iso: string)
    ensures Trace(c, messages, local, iso).outbox == c.outbox + [LogMessage(c.channel, Types.Trace, iso, messages)]
    ensures Debug(c, messages, local, iso).outbox == c.outbox + [LogMessage(c.channel, Types.Debug, iso, messages)]
    ensures Info(c, messages, local, iso).outbox == c.outbox + [LogMessage(c.channel, Types.Info, iso, messages)]
    ensures Warn(c, messages, local, iso).outbox == c.outbox + [LogMessage(c.channel, Types.Warn, iso, messages)]
    ensures Error(c, messages, local, iso).outbox == c.outbox + [LogMessage(c.channel, Types.Error, iso, messages)]
  {
  }

  /** The `log` message carries the client's channel, the severity's number
      (0 for Trace up to 4 for Error), the date and the messages, in that order. */
  lemma LogMessageLayout(channel: string, severity: Types.Severity, iso: string, messages: seq<Types.JsValue>)
    ensures var m := LogMessage(channel, severity, iso, messages);
      && m.args[0] == Types.Str(channel)
      && m.args[1] == Types.Num(Types.Ordinal(severity))
      && m.args[2] == Types.Str(iso)
      && m.args[3..] == messages
    ensures Types.Ordinal(severity) == match severity
      case Trace => 0 case Debug => 1 case Info => 2 case Warn => 3 case Error => 4
  {
    var m := LogMessage(channel, severity, iso, messages);
    assert m.args[3..] == messages;
  }

  /** The mirror line of a log call shows the call's severity tag and no
      channel: its text is `[timestamp TAG]`. */
  lemma MirrorLineShowsSeverity(c: Client, severity: Types.Severity, messages: seq<Types.JsValue>, local: DateFields, iso: string)
    ensures var line := Log(c, severity, messages, local, iso).console[|c.console|];
      && ShownTag(line.prefix.text) == TagOf(severity)
      && line.prefix.text == PrefixText(Timestamp(local), "", TagOf(severity))
      && line.prefix.color == Some(ColorOf(severity))
  {
    var s := Types.Num(Types.Ordinal(severity));
    PrefixShowsTag(s, "", local, true);
    NumericKey(Types.Ordinal(severity));
  }

  /** `listen(channel = '*')`: one `sub` message; None stands for an omitted
      (undefined) argument. Nothing is printed. */
  function Listen(c: Client, channel: Option<string>): (c': Client)
    ensures c'.channel == c.channel && c'.console == c.console
    ensures |c'.outbox| == |c.outbox| + 1 && c'.outbox[..|c.outbox|] == c.outbox
    ensures Types.DecodeClient(c'.outbox[|c.outbox|]) == Some(Types.Sub(if channel.None? then "*" else channel.value))
  {
    var topic := if channel.None? then "*" else channel.value;
    c.(outbox := c.outbox + [Types.EncodeClient(Types.Sub(topic))])
  }

  /** A template-literal `extra`: shown when truthy, left out otherwise. */
  function ExtraOf(v: Types.JsValue): (extra: string)
    ensures extra != "" <==> Types.Truthy(v)
    ensures Types.Truthy(v) ==> extra == Types.JsToString(v)
  {
    Types.TruthyPrintsNonEmpty(v);
    if Types.Truthy(v) then Types.JsToString(v) else ""
  }

  /** The `push` handler, bound positionally as `(channel, severity, timestamp,
      ...messages)`; `local` are the local-time fields of `new Date(timestamp)`.
      One console line; nothing is sent. */
  function OnPush(c: Client, args: seq<Types.JsValue>, local: DateFields): (c': Client)
    ensures c'.channel == c.channel && c'.outbox == c.outbox
    ensures |c'.console| == |c.console| + 1 && c'.console[..|c.console|] == c.console
    ensures c'.console[|c.console|].messages == Types.Rest(args, 3)
    ensures c'.console[|c.console|].prefix.color == Some(Color(Types.Arg(args, 1)))
  {
    var line := ConsoleLine(LogPrefix(Types.Arg(args, 1), ExtraOf(Types.Arg(args, 0)), local, true), Types.Rest(args, 3));
    c.(console := c.console + [line])
  }

  /** A declared push prints `[timestamp channel/TAG]` (or `[timestamp TAG]`
      for an empty channel) followed by its messages unchanged. */
  lemma PushLineShowsPush(c: Client, p: Types.ServerEvent, local: DateFields)
    ensures var line := OnPush(c, Types.EncodeServer(p).args, local).console[|c.console|];
      && line.prefix.text == PrefixText(Timestamp(local), p.channel, TagOf(p.severity))
      && ShownTag(line.prefix.text) == TagOf(p.severity)
      && line.messages == p.messages
  {
    var args := Types.EncodeServer(p).args;
    var sev := Types.Num(Types.Ordinal(p.severity));
    assert Types.Arg(args, 0) == Types.Str(p.channel);
    assert Types.Arg(args, 1) == sev;
    assert Types.Rest(args, 3) == p.messages;
    assert ExtraOf(Types.Str(p.channel)) == p.channel;
    NumericKey(Types.Ordinal(p.severity));
    Types.OrdinalRoundTrip(p.severity);
    assert Tag(sev) == TagOf(p.severity);
    var prefix := LogPrefix(sev, p.channel, local, true);
    assert prefix.text == PrefixText(Timestamp(local), p.channel, TagOf(p.severity));
    PrefixShowsTag(sev, p.channel, local, true);
    assert OnPush(c, args, local).console[|c.console|].prefix == prefix;
  }

  /** The client's `log` message is the declared one with the client's channel
      put in front, so it is not a well-formed declared `log` event. */
  lemma LogMessageVersusDeclared(channel: string, severity: Types.Severity, iso: string, messages: seq<Types.JsValue>)
    ensures LogMessage(channel, severity, iso, messages).args
         == [Types.Str(channel)] + Types.EncodeClient(Types.Log(severity, iso, messages)).args
    ensures Types.DecodeClient(LogMessage(channel, severity, iso, messages)) == None
  {
  }

  /** What the server's `log` handler makes of the client's message: the
      channel name is read as the severity, the severity number as the date,
      and the ISO date becomes the first message. */
  lemma ServerMisreadsClientLog(channel: string, severity: Types.Severity, iso: string, messages: seq<Types.JsValue>)
    ensures Relay.ReadLog(LogMessage(channel, severity, iso, messages).args)
         == Relay.LogArgs(Types.Str(channel), Types.Num(Types.Ordinal(severity)), [Types.Str(iso)] + messages)
    ensures channel !in ["0", "1", "2", "3", "4"] ==> Tag(Types.Str(channel)) == "INFO"
  {
    var args := LogMessage(channel, severity, iso, messages).args;
    assert Types.Rest(args, 2) == [Types.Str(iso)] + messages;
  }
}
