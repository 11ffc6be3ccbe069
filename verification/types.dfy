/** The shared vocabulary of client and server: the `LogSeverity` enum, the
    JavaScript values that travel as log payloads, and the four wire events
    (`log`, `sub`, `unsub` from client to server, `push` from server to
    client). */
module Types {
  import opened Wrappers
  import Text

  /** `LogSeverity`: a numeric enum, declared in urgency order. */
  datatype Severity = Trace | Debug | Info | Warn | Error

  /** The enum's numeric value (TypeScript numbers enum members from 0). */
  function Ordinal(s: Severity): (n: nat)
    ensures n <= 4
  {
    match s
    case Trace => 0
    case Debug => 1
    case Info => 2
    case Warn => 3
    case Error => 4
  }

  /** The enum member with a given number, if any. */
  function FromOrdinal(n: int): (r: Option<Severity>)
    ensures r.Some? <==> 0 <= n <= 4
  {
    if n == 0 then Some(Trace)
    else if n == 1 then Some(Debug)
    else if n == 2 then Some(Info)
    else if n == 3 then Some(Warn)
    else if n == 4 then Some(Error)
    else None
  }

  lemma OrdinalRoundTrip(s: Severity)
    ensures FromOrdinal(Ordinal(s)) == Some(s)
  {
  }

  lemma FromOrdinalRoundTrip(n: int)
    requires FromOrdinal(n).Some?
    ensures Ordinal(FromOrdinal(n).value) == n
  {
  }

  /** Strictly less urgent. */
  predicate Below(a: Severity, b: Severity) {
    Ordinal(a) < Ordinal(b)
  }

  /** The declaration order is a strict total order on severities. */
  lemma SeverityTotalOrder(a: Severity, b: Severity, c: Severity)
    ensures !Below(a, a)
    ensures a != b ==> Below(a, b) || Below(b, a)
    ensures Below(a, b) && Below(b, c) ==> Below(a, c)
    ensures Below(Trace, Debug) && Below(Debug, Info) && Below(Info, Warn) && Below(Warn, Error)
  {
  }

  /** The payload values a caller may hand to a log call (`...messages: any[]`).
      Numbers are modelled as integers; `Obj` stands for any object, array or
      error, identified by reference. */
  datatype JsValue =
    | Undefined
    | Null
    | Bool(b: bool)
    | Num(n: int)
    | Str(s: string)
    | Obj(ref: nat)

  /** JavaScript truthiness, as tested by `!x`, `x ? … : …` and `x || …`:
      the falsy values are exactly `undefined`, `null`, `false`, `0` and `""`. */
  predicate Truthy(v: JsValue)
    ensures !Truthy(v) <==> v in {Undefined, Null, Bool(false), Num(0), Str("")}
  {
    match v
    case Undefined => false
    case Null => false
    case Bool(b) => b
    case Num(n) => n != 0
    case Str(s) => s != ""
    case Obj(_) => true
  }

  /** String conversion inside a template literal (`${v}`), also used for
      property keys. */
  function JsToString(v: JsValue): (s: string)
    ensures s == "" <==> v == Str("")
    ensures v.Num? ==> Text.ParseInt(s) == Some(v.n)
    ensures v.Str? ==> s == v.s
  {
    Text.IntToStringRoundTrip(if v.Num? then v.n else 0);
    match v
    case Undefined => "undefined"
    case Null => "null"
    case Bool(b) => if b then "true" else "false"
    case Num(n) => Text.IntToString(n)
    case Str(s) => s
    case Obj(_) => "[object Object]"
  }

  /** A truthy value never prints as the empty string, so `x ? `${x}…` : …`
      and a test on the printed text agree. */
  lemma TruthyPrintsNonEmpty(v: JsValue)
    ensures Truthy(v) ==> JsToString(v) != ""
    ensures v.Str? ==> (Truthy(v) <==> JsToString(v) != "")
  {
  }

  /** The `index`-th positional argument of a handler; a missing one is `undefined`. */
  function Arg(args: seq<JsValue>, index: nat): (v: JsValue)
    ensures index < |args| ==> v == args[index]
    ensures index >= |args| ==> v == Undefined
  {
    if index < |args| then args[index] else Undefined
  }

  /** The rest parameter `...messages` bound after `count` named parameters. */
  function Rest(args: seq<JsValue>, count: nat): (r: seq<JsValue>)
    ensures count <= |args| ==> args == args[..count] + r
    ensures count >= |args| ==> r == []
  {
    if count <= |args| then args[count..] else []
  }

  /** A message on the socket: an event name with its positional arguments. */
  datatype WireMessage = WireMessage(event: string, args: seq<JsValue>)

  const LogEvent := "log"
  const SubEvent := "sub"
  const UnsubEvent := "unsub"
  const PushEvent := "push"

  /** `ServerEvents`: what the server emits. */
  datatype ServerEvent = Push(channel: string, severity: Severity, timestamp: string, messages: seq<JsValue>)

  /** `ClientEvents`: what the server listens to, as declared. */
  datatype ClientEvent =
    | Log(severity: Severity, timestamp: string, messages: seq<JsValue>)
    | Sub(channel: string)
    | Unsub(channel: string)

  function EncodeServer(e: ServerEvent): WireMessage {
    WireMessage(PushEvent, [Str(e.channel), Num(Ordinal(e.severity)), Str(e.timestamp)] + e.messages)
  }

  /** Reads a wire message as a declared `push`; anything else is None. */
  function DecodeServer(m: WireMessage): Option<ServerEvent> {
    if m.event == PushEvent && |m.args| >= 3 && m.args[0].Str? && m.args[1].Num? && m.args[2].Str? then
      var sev :- FromOrdinal(m.args[1].n);
      Some(Push(m.args[0].s, sev, m.args[2].s, m.args[3..]))
    else
      None
  }

  function EncodeClient(e: ClientEvent): WireMessage {
    match e
    case Log(sev, ts, msgs) => WireMessage(LogEvent, [Num(Ordinal(sev)), Str(ts)] + msgs)
    case Sub(ch) => WireMessage(SubEvent, [Str(ch)])
    case Unsub(ch) => WireMessage(UnsubEvent, [Str(ch)])
  }

  /** Reads a wire message as a declared client event; anything else is None. */
  function DecodeClient(m: WireMessage): Option<ClientEvent> {
    if m.event == LogEvent && |m.args| >= 2 && m.args[0].Num? && m.args[1].Str? then
      var sev :- FromOrdinal(m.args[0].n);
      Some(Log(sev, m.args[1].s, m.args[2..]))
    else if m.event == SubEvent && |m.args| == 1 && m.args[0].Str? then
      Some(Sub(m.args[0].s))
    else if m.event == UnsubEvent && |m.args| == 1 && m.args[0].Str? then
      Some(Unsub(m.args[0].s))
    else
      None
  }

  lemma ServerEventRoundTrip(e: ServerEvent)
    ensures DecodeServer(EncodeServer(e)) == Some(e)
  {
    var m := EncodeServer(e);
    assert m.args[3..] == e.messages;
  }

  lemma ServerWireRoundTrip(m: WireMessage)
    requires DecodeServer(m).Some?
    ensures EncodeServer(DecodeServer(m).value) == m
  {
    var e := DecodeServer(m).value;
    assert m.args == m.args[..3] + m.args[3..];
  }

  lemma ClientEventRoundTrip(e: ClientEvent)
    ensures DecodeClient(EncodeClient(e)) == Some(e)
  {
    var m := EncodeClient(e);
    if e.Log? {
      assert m.args[2..] == e.messages;
    }
  }

  lemma ClientWireRoundTrip(m: WireMessage)
    requires DecodeClient(m).Some?
    ensures EncodeClient(DecodeClient(m).value) == m
  {
    if m.event == LogEvent {
      assert m.args == m.args[..2] + m.args[2..];
    } else {
      assert m.args == [m.args[0]];
    }
  }

  /** The declared shapes: `push` carries a channel, a severity, a timestamp and
      the messages; `log` the same without a channel; `sub`/`unsub` one channel. */
  lemma DeclaredArities(e: ClientEvent, p: ServerEvent)
    ensures |EncodeServer(p).args| == 3 + |p.messages|
    ensures e.Log? ==> |EncodeClient(e).args| == 2 + |e.messages|
    ensures e.Log? ==> EncodeClient(e).args[0] == Num(Ordinal(e.severity))
    ensures !e.Log? ==> |EncodeClient(e).args| == 1
  {
  }
}
