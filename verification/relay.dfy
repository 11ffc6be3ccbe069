/** The log server as a state machine. Its state is the room map, the
    handshake `channel` of every connected socket, the flag that records
    whether a log-file failure was already reported (a module-level variable
    in the program, held here with the one server the model follows), and
    the number of file appends still in flight. Every input yields the next state and
    the observable effects: the pushes sent to sockets, the file appends
    started, the warnings printed and the refusal sent to a handshaking
    client. */
module Relay {
  import opened Wrappers
  import opened Types
  import opened Rooms
  import opened Admission

  /** The channel the server's own notices are published on. */
  const ServerChannel: JsValue := Str("logserv")

  /** The room of the subscribers to every channel. */
  const WildcardRoom: string := "logs/*"

  /** `logs/${channel}`. */
  function RoomOf(channel: JsValue): string {
    "logs/" + JsToString(channel)
  }

  /** `getSocketId`: `channel/id` when the socket has a truthy channel, else the id. */
  function SocketLabel(channel: JsValue, id: SocketId): (name: string)
    ensures |name| >= |id| && name[|name| - |id|..] == id
    ensures Truthy(channel) ==> name[..|name| - |id|] == JsToString(channel) + "/"
    ensures !Truthy(channel) ==> name == id
  {
    if Truthy(channel) then JsToString(channel) + "/" + id else id
  }

  /** For one channel, labels of different sockets differ. */
  lemma SocketLabelInjective(channel: JsValue, a: SocketId, b: SocketId)
    requires SocketLabel(channel, a) == SocketLabel(channel, b)
    ensures a == b
  {
    var la, lb := SocketLabel(channel, a), SocketLabel(channel, b);
    if Truthy(channel) {
      assert |la| == |JsToString(channel)| + 1 + |a|;
      assert |lb| == |JsToString(channel)| + 1 + |b|;
    }
  }

  datatype Relay = Relay(
    rooms: RoomMap,
    channels: map<SocketId, JsValue>,
    warned: bool,
    pendingWrites: nat)

  /** A fresh process: no sockets, no rooms, nothing reported yet. */
  function Initial(): Relay {
    Relay(map[], map[], false, 0)
  }

  /** Only connected sockets are in rooms, no room is empty, and every
      connected socket was admitted with a truthy claim. */
  predicate Valid(r: Relay) {
    && NoEmptyRoom(r.rooms)
    && (forall name :: name in r.rooms ==> r.rooms[name] <= r.channels.Keys)
    && (forall id :: id in r.channels ==> Truthy(r.channels[id]))
  }

  lemma InitialValid()
    ensures Valid(Initial())
  {
  }

  /** One `push` sent to one socket. */
  datatype Delivery = Delivery(to: SocketId, msg: WireMessage)

  datatype Effects = Effects(
    pushes: multiset<Delivery>,
    fileWrites: nat,
    warnings: nat,
    refusal: Option<RejectReason>)

  const NoEffects: Effects := Effects(multiset{}, 0, 0, None)

  datatype Transition = Transition(next: Relay, effects: Effects)

  /** The `push` message for one published entry. */
  function PushOf(channel: JsValue, severity: JsValue, iso: string, messages: seq<JsValue>): WireMessage {
    WireMessage(PushEvent, [channel, severity, Str(iso)] + messages)
  }

  /** When the channel is a string and the severity an enum value, the relay's
      push is exactly the declared `push` event. */
  lemma PushIsDeclared(channel: string, severity: Severity, iso: string, messages: seq<JsValue>)
    ensures DecodeServer(PushOf(Str(channel), Num(Ordinal(severity)), iso, messages))
         == Some(Push(channel, severity, iso, messages))
  {
    Types.ServerEventRoundTrip(Push(channel, severity, iso, messages));
    assert PushOf(Str(channel), Num(Ordinal(severity)), iso, messages) == EncodeServer(Push(channel, severity, iso, messages));
  }

  /** One delivery of `msg` to every socket of `ids`. */
  function ToEach(ids: set<SocketId>, msg: WireMessage): (d: multiset<Delivery>)
    ensures forall id :: d[Delivery(id, msg)] == if id in ids then 1 else 0
    ensures forall x :: x in d ==> x.msg == msg && x.to in ids
  {
    var s := set id | id in ids :: Delivery(id, msg);
    assert forall id :: Delivery(id, msg) in s <==> id in ids;
    multiset(s)
  }

  /** How many rooms of the two a publication on `channel` goes to hold `id`. */
  function Copies(rooms: RoomMap, channel: JsValue, id: SocketId): nat {
    (if id in Members(rooms, RoomOf(channel)) then 1 else 0) + (if id in Members(rooms, WildcardRoom) then 1 else 0)
  }

  /** `to(logs/${channel}).emit(…)` followed by the same emit to the wildcard room: every
      member of the channel's room gets one copy, every member of the wildcard
      room one more, and nobody else gets anything. */
  function Fanout(rooms: RoomMap, channel: JsValue, msg: WireMessage): (d: multiset<Delivery>)
    ensures forall id :: d[Delivery(id, msg)] == Copies(rooms, channel, id)
    ensures forall x :: x in d ==> x.msg == msg && (x.to in Members(rooms, RoomOf(channel)) || x.to in Members(rooms, WildcardRoom))
  {
    ToEach(Members(rooms, RoomOf(channel)), msg) + ToEach(Members(rooms, WildcardRoom), msg)
  }

  /** `#log(channel, severity, timestamp, ...messages)`. `iso` is
      `timestamp.toISOString()`, None when the date is invalid: that call then
      throws before anything is pushed or written. Otherwise one append to the
      log file is started. */
  function Publish(r: Relay, channel: JsValue, severity: JsValue, iso: Option<string>, messages: seq<JsValue>): (t: Transition)
    ensures t.next.rooms == r.rooms && t.next.channels == r.channels && t.next.warned == r.warned
    ensures t.effects.warnings == 0 && t.effects.refusal == None
    ensures iso.None? ==> t.next == r && t.effects.pushes == multiset{} && t.effects.fileWrites == 0
    ensures iso.Some? ==> t.next.pendingWrites == r.pendingWrites + 1 && t.effects.fileWrites == 1
    ensures forall x :: x in t.effects.pushes ==>
      && x.msg == PushOf(channel, severity, iso.value, messages)
      && x.to in Members(r.rooms, RoomOf(channel)) + Members(r.rooms, WildcardRoom)
  {
    match iso
    case None => Transition(r, NoEffects)
    case Some(stamp) =>
      Transition(r.(pendingWrites := r.pendingWrites + 1),
                 Effects(Fanout(r.rooms, channel, PushOf(channel, severity, stamp, messages)), 1, 0, None))
  }

  /** The handshake: the middleware's verdict (with the `next()` call it
      evidently intends on success), then `#onConnect`. Refusals and
      connections are announced on the server's own channel. */
  function Handshake(r: Relay, id: SocketId, claim: JsValue, outcome: AuthOutcome, now: string): (t: Transition)
    requires id !in r.channels
    ensures Proceeds(claim, outcome) ==> t.next.channels == r.channels[id := claim] && t.effects.refusal == None
    ensures !Proceeds(claim, outcome) ==> t.next.channels == r.channels && t.effects.refusal == Admit(claim, outcome)
    ensures t.next.rooms == r.rooms && t.next.warned == r.warned && t.effects.warnings == 0
  {
    var shown := SocketLabel(claim, id);
    match Admit(claim, outcome)
    case None =>
      Publish(r.(channels := r.channels[id := claim]), ServerChannel, Num(Ordinal(Info)), Some(now),
              [Str("Client " + shown + " connected")])
    case Some(Unauthorized) =>
      var t := Publish(r, ServerChannel, Num(Ordinal(Trace)), Some(now), [Str("Client " + shown + " unauthorized")]);
      t.(effects := t.effects.(refusal := Some(Unauthorized)))
    case Some(InternalServerError) =>
      var t := Publish(r, ServerChannel, Num(Ordinal(Error)), Some(now),
                       [Str("Error during authentication of client " + shown + ":"), outcome.error]);
      t.(effects := t.effects.(refusal := Some(InternalServerError)))
  }

  /** How the `log` handler binds its positional parameters
      `(severity, timestamp, ...messages)`. */
  datatype LogArgs = LogArgs(severity: JsValue, timestamp: JsValue, messages: seq<JsValue>)

  function ReadLog(args: seq<JsValue>): (a: LogArgs)
    ensures |args| >= 2 ==> args == [a.severity, a.timestamp] + a.messages
  {
    LogArgs(Arg(args, 0), Arg(args, 1), Rest(args, 2))
  }

  /** The `log` handler: the entry is published under the socket's handshake
      channel; `iso` is `new Date(timestamp).toISOString()`. */
  function OnLog(r: Relay, id: SocketId, args: seq<JsValue>, iso: Option<string>): (t: Transition)
    requires id in r.channels
    ensures iso.None? ==> t.effects.pushes == multiset{}
    ensures forall x :: x in t.effects.pushes ==>
      iso.Some? && x.msg == PushOf(r.channels[id], ReadLog(args).severity, iso.value, ReadLog(args).messages)
  {
    var a := ReadLog(args);
    Publish(r, r.channels[id], a.severity, iso, a.messages)
  }

  /** The `sub` handler: the socket joins `logs/${channel}`; no other room, no
      other socket, and nothing else in the state changes, and nothing is sent. */
  function OnSub(r: Relay, id: SocketId, args: seq<JsValue>): (t: Transition)
    ensures Members(t.next.rooms, RoomOf(Arg(args, 0))) == Members(r.rooms, RoomOf(Arg(args, 0))) + {id}
    ensures forall name :: name != RoomOf(Arg(args, 0)) ==> Members(t.next.rooms, name) == Members(r.rooms, name)
    ensures t.next.channels == r.channels && t.next.warned == r.warned && t.next.pendingWrites == r.pendingWrites
    ensures t.effects == NoEffects
  {
    Transition(r.(rooms := Join(r.rooms, RoomOf(Arg(args, 0)), id)), NoEffects)
  }

  /** The `unsub` handler: the socket leaves `logs/${channel}`; nothing else changes. */
  function OnUnsub(r: Relay, id: SocketId, args: seq<JsValue>): (t: Transition)
    ensures Members(t.next.rooms, RoomOf(Arg(args, 0))) == Members(r.rooms, RoomOf(Arg(args, 0))) - {id}
    ensures forall name :: name != RoomOf(Arg(args, 0)) ==> Members(t.next.rooms, name) == Members(r.rooms, name)
    ensures t.next.channels == r.channels && t.next.warned == r.warned && t.next.pendingWrites == r.pendingWrites
    ensures t.effects == NoEffects
  {
    Transition(r.(rooms := Leave(r.rooms, RoomOf(Arg(args, 0)), id)), NoEffects)
  }

  /** Disconnection: the socket library has already taken the socket out of
      every room; the handler announces the departure. */
  function OnDisconnect(r: Relay, id: SocketId, now: string): (t: Transition)
    requires id in r.channels
    ensures id !in t.next.channels
    ensures forall name :: id !in Members(t.next.rooms, name)
    ensures forall name :: Members(t.next.rooms, name) == Members(r.rooms, name) - {id}
    ensures t.next.channels == r.channels - {id} && t.next.warned == r.warned && t.effects.warnings == 0
  {
    var r1 := r.(rooms := LeaveAll(r.rooms, id), channels := r.channels - {id});
    Publish(r1, ServerChannel, Num(Ordinal(Info)), Some(now),
            [Str("Client " + SocketLabel(r.channels[id], id) + " disconnected")])
  }

  /** The failure handler of a log-file append: the first failure in the
      process prints a warning and sets the flag; later ones return early. */
  function OnWriteFailure(warned: bool): (result: (bool, nat))
    ensures result.0
    ensures result.1 <= 1
    ensures result.1 == 1 <==> !warned
  {
    if warned then (true, 0) else (true, 1)
  }

  /** A started append settles, successfully or not. */
  function OnWriteSettled(r: Relay, ok: bool): (t: Transition)
    ensures t.next.rooms == r.rooms && t.next.channels == r.channels
    ensures t.effects.pushes == multiset{} && t.effects.fileWrites == 0
  {
    if r.pendingWrites == 0 then Transition(r, NoEffects)
    else if ok then Transition(r.(pendingWrites := r.pendingWrites - 1), NoEffects)
    else
      var (warned, warnings) := OnWriteFailure(r.warned);
      Transition(r.(pendingWrites := r.pendingWrites - 1, warned := warned), NoEffects.(warnings := warnings))
  }

  /** Everything that can happen to the server. `iso` accompanies a received
      message: the ISO form of the date built from its second argument. */
  datatype Input =
    | Connect(id: SocketId, claim: JsValue, outcome: AuthOutcome, now: string)
    | Receive(id: SocketId, msg: WireMessage, iso: Option<string>)
    | Disconnect(id: SocketId, now: string)
    | WriteSettled(ok: bool)

  /** Events reach only the handlers of a connected socket, and only `log`,
      `sub` and `unsub` have one. Socket ids are never reused, so a second
      handshake under a connected id does not occur. */
  function Step(r: Relay, input: Input): (t: Transition)
    ensures input.Receive? && input.id !in r.channels ==> t == Transition(r, NoEffects)
    ensures input.Receive? && input.msg.event !in {LogEvent, SubEvent, UnsubEvent} ==> t == Transition(r, NoEffects)
    ensures !input.Connect? ==> t.next.channels.Keys <= r.channels.Keys
    ensures !(input.Receive? && input.msg.event == LogEvent) && !input.Connect? && !input.Disconnect? ==> t.effects.pushes == multiset{}
    ensures !input.WriteSettled? ==> t.next.warned == r.warned && t.effects.warnings == 0
  {
    match input
    case Connect(id, claim, outcome, now) =>
      if id in r.channels then Transition(r, NoEffects) else Handshake(r, id, claim, outcome, now)
    case Receive(id, msg, iso) =>
      if id !in r.channels then Transition(r, NoEffects)
      else if msg.event == LogEvent then OnLog(r, id, msg.args, iso)
      else if msg.event == SubEvent then OnSub(r, id, msg.args)
      else if msg.event == UnsubEvent then OnUnsub(r, id, msg.args)
      else Transition(r, NoEffects)
    case Disconnect(id, now) =>
      if id in r.channels then OnDisconnect(r, id, now) else Transition(r, NoEffects)
    case WriteSettled(ok) => OnWriteSettled(r, ok)
  }

  /** Every step keeps the state valid. */
  lemma StepPreservesValid(r: Relay, input: Input)
    requires Valid(r)
    ensures Valid(Step(r, input).next)
  {
    var t := Step(r, input);
    match input
    case Connect(id, claim, outcome, now) =>
    case Receive(id, msg, iso) =>
      if id in r.channels && msg.event != LogEvent && msg.event == SubEvent {
        forall name | name in t.next.rooms ensures t.next.rooms[name] <= t.next.channels.Keys {
          assert t.next.rooms[name] == Members(t.next.rooms, name);
        }
      }
      if id in r.channels && msg.event != LogEvent && msg.event != SubEvent && msg.event == UnsubEvent {
        forall name | name in t.next.rooms ensures t.next.rooms[name] <= t.next.channels.Keys {
          assert t.next.rooms[name] == Members(t.next.rooms, name);
        }
      }
    case Disconnect(id, now) =>
      if id in r.channels {
        forall name | name in t.next.rooms ensures t.next.rooms[name] <= t.next.channels.Keys {
          assert t.next.rooms[name] == Members(t.next.rooms, name);
          assert Members(r.rooms, name) <= r.channels.Keys;
        }
      }
    case WriteSettled(ok) =>
  }

  predicate RoomsHoldConnected(r: Relay) {
    forall name :: name in r.rooms ==> r.rooms[name] <= r.channels.Keys
  }

  lemma PublishReachesConnected(r: Relay, channel: JsValue, severity: JsValue, iso: Option<string>, messages: seq<JsValue>)
    requires RoomsHoldConnected(r)
    ensures forall x :: x in Publish(r, channel, severity, iso, messages).effects.pushes ==> x.to in r.channels
  {
    forall x | x in Publish(r, channel, severity, iso, messages).effects.pushes ensures x.to in r.channels {
      var a, b := RoomOf(channel), WildcardRoom;
      assert x.to in Members(r.rooms, a) + Members(r.rooms, b);
      if x.to in Members(r.rooms, a) { assert a in r.rooms; } else { assert b in r.rooms; }
    }
  }

  lemma HandshakeReachesConnected(r: Relay, id: SocketId, claim: JsValue, outcome: AuthOutcome, now: string)
    requires Valid(r) && id !in r.channels
    ensures forall x :: x in Handshake(r, id, claim, outcome, now).effects.pushes ==> x.to in r.channels
  {
    var shown := SocketLabel(claim, id);
    match Admit(claim, outcome)
    case None =>
      var r1 := r.(channels := r.channels[id := claim]);
      PublishReachesConnected(r1, ServerChannel, Num(Ordinal(Info)), Some(now), [Str("Client " + shown + " connected")]);
      forall x | x in Handshake(r, id, claim, outcome, now).effects.pushes ensures x.to in r.channels {
        assert x.to in Members(r.rooms, RoomOf(ServerChannel)) + Members(r.rooms, WildcardRoom);
        if x.to in Members(r.rooms, RoomOf(ServerChannel)) {
          assert RoomOf(ServerChannel) in r.rooms;
        } else {
          assert WildcardRoom in r.rooms;
        }
      }
    case Some(Unauthorized) =>
      PublishReachesConnected(r, ServerChannel, Num(Ordinal(Trace)), Some(now), [Str("Client " + shown + " unauthorized")]);
    case Some(InternalServerError) =>
      PublishReachesConnected(r, ServerChannel, Num(Ordinal(Error)), Some(now),
                              [Str("Error during authentication of client " + shown + ":"), outcome.error]);
  }

  lemma DisconnectReachesConnected(r: Relay, id: SocketId, now: string)
    requires Valid(r) && id in r.channels
    ensures forall x :: x in OnDisconnect(r, id, now).effects.pushes ==> x.to in r.channels - {id}
  {
    var r1 := r.(rooms := LeaveAll(r.rooms, id), channels := r.channels - {id});
    assert RoomsHoldConnected(r1) by {
      forall name | name in r1.rooms ensures r1.rooms[name] <= r1.channels.Keys {
        assert r1.rooms[name] == Members(r1.rooms, name) == Members(r.rooms, name) - {id};
      }
    }
    PublishReachesConnected(r1, ServerChannel, Num(Ordinal(Info)), Some(now),
                            [Str("Client " + SocketLabel(r.channels[id], id) + " disconnected")]);
  }

  /** Pushes go only to sockets that are connected before and after the step:
      a socket that is refused, or has left, receives nothing. */
  lemma StepPushesOnlyToConnected(r: Relay, input: Input)
    requires Valid(r)
    ensures forall x :: x in Step(r, input).effects.pushes ==> x.to in r.channels && x.to in Step(r, input).next.channels
  {
    var t := Step(r, input);
    match input
    case Connect(id, claim, outcome, now) =>
      if id !in r.channels {
        HandshakeReachesConnected(r, id, claim, outcome, now);
      }
    case Receive(id, msg, iso) =>
      if id in r.channels && msg.event == LogEvent {
        var a := ReadLog(msg.args);
        PublishReachesConnected(r, r.channels[id], a.severity, iso, a.messages);
      }
    case Disconnect(id, now) =>
      if id in r.channels {
        DisconnectReachesConnected(r, id, now);
      }
    case WriteSettled(ok) =>
  }

  /** What a run of inputs leaves behind: the last state and each step's effects. */
  datatype RunResult = RunResult(final: Relay, effects: seq<Effects>)

  function Run(r: Relay, inputs: seq<Input>): (res: RunResult)
    ensures |res.effects| == |inputs|
    decreases |inputs|
  {
    if inputs == [] then RunResult(r, [])
    else
      var t := Step(r, inputs[0]);
      var rest := Run(t.next, inputs[1..]);
      RunResult(rest.final, [t.effects] + rest.effects)
  }

  function TotalWarnings(effects: seq<Effects>): nat {
    if effects == [] then 0 else effects[0].warnings + TotalWarnings(effects[1..])
  }

  lemma {:induction false} RunPreservesValid(r: Relay, inputs: seq<Input>)
    requires Valid(r)
    ensures Valid(Run(r, inputs).final)
    decreases |inputs|
  {
    if inputs != [] {
      StepPreservesValid(r, inputs[0]);
      RunPreservesValid(Step(r, inputs[0]).next, inputs[1..]);
    }
  }

  /** One step warns at most once, only while the flag is clear, and sets it
      when it does; a set flag is never cleared. */
  lemma StepWarning(r: Relay, input: Input)
    ensures Step(r, input).effects.warnings <= 1
    ensures Step(r, input).effects.warnings == 1 ==> !r.warned && Step(r, input).next.warned
    ensures r.warned ==> Step(r, input).next.warned
  {
  }

  /** A failed append with the flag clear prints the one warning. */
  lemma FirstFailureWarns(r: Relay)
    requires r.pendingWrites > 0 && !r.warned
    ensures Step(r, WriteSettled(false)).effects.warnings == 1
    ensures Step(r, WriteSettled(false)).next.warned
    ensures Step(r, WriteSettled(false)).next.rooms == r.rooms
    ensures Step(r, WriteSettled(false)).next.channels == r.channels
  {
  }

  /** Over any sequence of inputs, at most one warning is printed in the
      process, none at all once the flag is set, and the flag then stays set. */
  lemma {:induction false} WarnsAtMostOnce(r: Relay, inputs: seq<Input>)
    ensures TotalWarnings(Run(r, inputs).effects) <= (if r.warned then 0 else 1)
    ensures r.warned ==> Run(r, inputs).final.warned
    ensures TotalWarnings(Run(r, inputs).effects) == 1 ==> Run(r, inputs).final.warned
    decreases |inputs|
  {
    if inputs != [] {
      var t := Step(r, inputs[0]);
      StepWarning(r, inputs[0]);
      WarnsAtMostOnce(t.next, inputs[1..]);
      var res := Run(r, inputs);
      assert res.effects == [t.effects] + Run(t.next, inputs[1..]).effects;
      assert res.effects[1..] == Run(t.next, inputs[1..]).effects;
    }
  }

  /** The input that lets socket `id` in. */
  predicate Admits(input: Input, id: SocketId) {
    input.Connect? && input.id == id && Proceeds(input.claim, input.outcome)
  }

  lemma StepKeepsOut(r: Relay, input: Input, id: SocketId)
    requires id !in r.channels && !Admits(input, id)
    ensures id !in Step(r, input).next.channels
  {
  }

  /** A socket that is not connected and is never admitted by a handshake
      receives no push, whatever happens. */
  lemma {:induction false} UnadmittedReceivesNothing(r: Relay, inputs: seq<Input>, id: SocketId)
    requires Valid(r) && id !in r.channels
    requires forall k :: 0 <= k < |inputs| ==> !Admits(inputs[k], id)
    ensures forall k, x :: 0 <= k < |inputs| && x in Run(r, inputs).effects[k].pushes ==> x.to != id
    decreases |inputs|
  {
    if inputs != [] {
      var t := Step(r, inputs[0]);
      StepPushesOnlyToConnected(r, inputs[0]);
      StepPreservesValid(r, inputs[0]);
      StepKeepsOut(r, inputs[0], id);
      UnadmittedReceivesNothing(t.next, inputs[1..], id);
      var res := Run(r, inputs);
      forall k, x | 0 <= k < |inputs| && x in res.effects[k].pushes ensures x.to != id {
        if k > 0 {
          assert res.effects[k] == Run(t.next, inputs[1..]).effects[k - 1];
        }
      }
    }
  }

  /** A `log` event is published under the sender's handshake channel, with
      the severity, date and messages it carried, in order; its own arguments
      never choose the channel. */
  lemma LogPublishedUnderHandshakeChannel(r: Relay, id: SocketId, args: seq<JsValue>, iso: string)
    requires id in r.channels
    ensures var t := Step(r, Receive(id, WireMessage(LogEvent, args), Some(iso)));
      && t.effects.pushes == Fanout(r.rooms, r.channels[id], PushOf(r.channels[id], Arg(args, 0), iso, Rest(args, 2)))
      && t.effects.fileWrites == 1
      && forall x :: x in t.effects.pushes ==>
           && x.msg.args[0] == r.channels[id]
           && x.msg.args[1] == Arg(args, 0)
           && x.msg.args[2] == Str(iso)
           && x.msg.args[3..] == Rest(args, 2)
  {
    var m := PushOf(r.channels[id], Arg(args, 0), iso, Rest(args, 2));
    assert m.args[3..] == Rest(args, 2);
  }

  /** Per socket, the copies of one publication: one for each of the two
      rooms it is in; a socket in both gets two, and on the wildcard channel
      every wildcard subscriber gets two. */
  lemma FanoutCopies(rooms: RoomMap, channel: JsValue, msg: WireMessage, id: SocketId)
    ensures var d := Fanout(rooms, channel, msg);
      && (id in Members(rooms, RoomOf(channel)) && id in Members(rooms, WildcardRoom) ==> d[Delivery(id, msg)] == 2)
      && (id !in Members(rooms, RoomOf(channel)) && id !in Members(rooms, WildcardRoom) ==> d[Delivery(id, msg)] == 0)
      && (channel == Str("*") && id in Members(rooms, WildcardRoom) ==> d[Delivery(id, msg)] == 2)
      && (forall other :: other != msg ==> d[Delivery(id, other)] == 0)
  {
    var d := Fanout(rooms, channel, msg);
    forall other | other != msg ensures d[Delivery(id, other)] == 0 {
      if d[Delivery(id, other)] > 0 {
        assert Delivery(id, other) in d;
      }
    }
    if channel == Str("*") {
      assert RoomOf(channel) == WildcardRoom;
    }
  }

  /** Three subscribers X (to "build"), Y (to everything) and Z (to "deploy"),
      and a producer P whose handshake channel is "build": P's entry reaches X
      and Y once each and Z not at all. */
  lemma BuildScenario(t0: string)
    ensures var r := Relay(
        map["logs/build" := {"X"}, "logs/*" := {"Y"}, "logs/deploy" := {"Z"}],
        map["X" := Str("x"), "Y" := Str("y"), "Z" := Str("z"), "P" := Str("build")], false, 0);
      var msg := WireMessage(LogEvent, [Num(Ordinal(Info)), Str(t0), Str("started")]);
      var push := EncodeServer(Push("build", Info, t0, [Str("started")]));
      Step(r, Receive("P", msg, Some(t0))).effects.pushes == multiset{Delivery("X", push), Delivery("Y", push)}
  {
    var r := Relay(
        map["logs/build" := {"X"}, "logs/*" := {"Y"}, "logs/deploy" := {"Z"}],
        map["X" := Str("x"), "Y" := Str("y"), "Z" := Str("z"), "P" := Str("build")], false, 0);
    var msg := WireMessage(LogEvent, [Num(Ordinal(Info)), Str(t0), Str("started")]);
    var push := EncodeServer(Push("build", Info, t0, [Str("started")]));
    var args := msg.args;
    assert Rest(args, 2) == [Str("started")];
    assert PushOf(Str("build"), Arg(args, 0), t0, Rest(args, 2)) == push;
    assert RoomOf(Str("build")) == "logs/build";
    LogPublishedUnderHandshakeChannel(r, "P", args, t0);
    assert Members(r.rooms, "logs/build") == {"X"};
    assert Members(r.rooms, WildcardRoom) == {"Y"};
    ToEachSingleton("X", push);
    ToEachSingleton("Y", push);
  }

  lemma ToEachSingleton(id: SocketId, msg: WireMessage)
    ensures ToEach({id}, msg) == multiset{Delivery(id, msg)}
  {
    var d := ToEach({id}, msg);
    forall x ensures d[x] == multiset{Delivery(id, msg)}[x] {
      if x in d {
        assert x == Delivery(id, msg);
      }
    }
  }

  /** With the default predicate, a handshake carrying a truthy channel claim
      connects the socket under that channel and is refused nothing. */
  lemma DefaultPredicateConnects(r: Relay, id: SocketId, claim: JsValue, now: string)
    requires id !in r.channels && Truthy(claim)
    ensures Step(r, Connect(id, claim, DefaultIsAuthorized(), now)).next.channels == r.channels[id := claim]
    ensures Step(r, Connect(id, claim, DefaultIsAuthorized(), now)).effects.refusal == None
  {
  }

  /** A refused handshake leaves the socket unconnected and tells it why: a
      missing or falsy claim, or a false predicate, as Unauthorized; a
      throwing predicate as InternalServerError. */
  lemma RefusedHandshake(r: Relay, id: SocketId, claim: JsValue, outcome: AuthOutcome, now: string)
    requires id !in r.channels && !Proceeds(claim, outcome)
    ensures var t := Step(r, Connect(id, claim, outcome, now));
      && id !in t.next.channels
      && t.next.rooms == r.rooms
      && (!Truthy(claim) ==> t.effects.refusal == Some(Unauthorized))
      && (Truthy(claim) && outcome.Threw? ==> t.effects.refusal == Some(InternalServerError))
      && (Truthy(claim) && outcome.Returned? ==> t.effects.refusal == Some(Unauthorized))
  {
  }

  /** `sub` with a channel name joins the sender to `logs/<name>` and changes
      nothing else; `unsub` takes it out again. */
  lemma SubscribeUnsubscribe(r: Relay, id: SocketId, ch: string, iso: Option<string>, room: string)
    requires id in r.channels
    ensures var t := Step(r, Receive(id, WireMessage(SubEvent, [Str(ch)]), iso));
      && Members(t.next.rooms, "logs/" + ch) == Members(r.rooms, "logs/" + ch) + {id}
      && (room != "logs/" + ch ==> Members(t.next.rooms, room) == Members(r.rooms, room))
      && t.next.channels == r.channels && t.effects == NoEffects
    ensures var t := Step(r, Receive(id, WireMessage(UnsubEvent, [Str(ch)]), iso));
      && Members(t.next.rooms, "logs/" + ch) == Members(r.rooms, "logs/" + ch) - {id}
      && (room != "logs/" + ch ==> Members(t.next.rooms, room) == Members(r.rooms, room))
      && t.next.channels == r.channels && t.effects == NoEffects
  {
    assert RoomOf(Arg([Str(ch)], 0)) == "logs/" + ch;
  }

  /** After a socket joins a room and then disconnects, it is in no room. */
  lemma SubscribeThenDisconnect(r: Relay, id: SocketId, ch: string, iso: Option<string>, now: string, room: string)
    requires id in r.channels
    ensures var t1 := Step(r, Receive(id, WireMessage(SubEvent, [Str(ch)]), iso));
      var t2 := Step(t1.next, Disconnect(id, now));
      id !in Members(t2.next.rooms, room) && id !in t2.next.channels
  {
  }
}
