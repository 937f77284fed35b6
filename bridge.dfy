/**
 * The bridging decision of `listen_to_serial`, one stripped serial line at a time, and the
 * connectivity flag that the broker callbacks set and clear. Everything observable is an
 * event: a byte written back to the serial device, or a message published to the broker.
 */
module Bridge {
  import opened Wrappers
  import opened Text
  import opened Json
  import opened Router

  newtype byte = x: int | 0 <= x < 256

  /** The positive acknowledgement `b'+'`. */
  const Ack: byte := 0x2B
  /** The negative acknowledgement `b'-'`. */
  const Nack: byte := 0x2D
  /** Lines the device reports as errors start with this text. */
  const ErrorPrefix := "ERROR:"
  /** Every message is published at MQTT quality of service 0 (at most once). */
  const QoS0 := 0

  /** The settings read from the environment at start-up. */
  datatype Config = Config(baseTopic: string, subTopicField: string, retain: bool, sendAck: bool)

  /**
   * What `json.loads` does with a line: it returns a value, raises `ValueError` (`Invalid`),
   * or raises an exception that is not a `ValueError` (`Raised`), such as `RecursionError`
   * on deeply nested input.
   */
  datatype Parsed = Value(value: JsonValue) | Invalid | Raised

  type Parser = string -> Parsed

  /** A payload is either literal text or a JSON value that `json.dumps` serialises. */
  datatype Payload = Raw(text: string) | Encoded(value: JsonValue)

  datatype Message = Message(topic: string, payload: Payload, qos: int, retain: bool)

  datatype Event = SerialWrite(b: byte) | MqttPublish(msg: Message)

  /**
   * How one line ended. `Rejected`: the broker client refused to publish to `topic` with a
   * `ValueError`, which the loop catches. `Crashed`: an exception other than `ValueError`
   * left the read loop.
   */
  datatype Outcome =
    | Blank
    | DeviceError(message: string)
    | Lost
    | Malformed
    | Forwarded(topic: string)
    | Rejected(topic: string)
    | Crashed

  datatype Step = Step(events: seq<Event>, outcome: Outcome)

  /** A line as read from the serial device, with the time at which it was handled. */
  datatype Reading = Reading(raw: string, now: string)

  /** The retained message announcing that the bridge is online, sent on every connection. */
  function StatusMessage(cfg: Config): Message {
    Message(cfg.baseTopic + "/status", Raw("online"), QoS0, true)
  }

  /** The acknowledgement byte `b` as written, if acknowledgements are enabled. */
  function AckEvents(cfg: Config, b: byte): seq<Event> {
    if cfg.sendAck then [SerialWrite(b)] else []
  }

  /**
   * The topics the broker client's `publish` accepts: it raises `ValueError` for an empty
   * topic, for one holding a wildcard (`+` or `#`), and for one longer than 65535 bytes.
   */
  predicate PublishableTopic(t: string) {
    t != [] && '+' !in t && '#' !in t && Utf8Length(t) <= 65535
  }

  /** The message published for parsed `data`; `None` where a Python operation on it raises. */
  function Forward(cfg: Config, data: JsonValue, now: string): Option<Message> {
    var topic :- RouteTopic(cfg.baseTopic, cfg.subTopicField, data);
    var payload :- StampTimestamp(data, now);
    Some(Message(topic, Encoded(payload), QoS0, cfg.retain))
  }

  /** One iteration of the read loop on the raw text `raw`, with the flag at `connected`. */
  function LineEffect(cfg: Config, parse: Parser, connected: bool, raw: string, now: string): Step {
    var line := Strip(raw);
    if line == "" then Step([], Blank)
    else if ErrorPrefix <= line then Step([], DeviceError(line[|ErrorPrefix|..]))
    else if !connected then Step(AckEvents(cfg, Nack), Lost)
    else
      match parse(line)
      case Invalid => Step([], Malformed)
      case Raised => Step([], Crashed)
      case Value(data) =>
        match Forward(cfg, data, now)
        case None => Step(AckEvents(cfg, Ack), Crashed)
        case Some(msg) =>
          if PublishableTopic(msg.topic) then Step(AckEvents(cfg, Ack) + [MqttPublish(msg)], Forwarded(msg.topic))
          else Step(AckEvents(cfg, Ack), Rejected(msg.topic))
  }

  /** The read loop over `readings` with a fixed flag; it stops at the first crash. */
  datatype Trace = Trace(events: seq<Event>, crashed: bool)

  function ReadLoop(cfg: Config, parse: Parser, connected: bool, readings: seq<Reading>): Trace {
    Collect(LineEffects(cfg, parse, connected, readings))
  }

  /** The effect each line would have on its own. */
  function LineEffects(cfg: Config, parse: Parser, connected: bool, readings: seq<Reading>): seq<Step> {
    if readings == [] then []
    else [LineEffect(cfg, parse, connected, readings[0].raw, readings[0].now)] + LineEffects(cfg, parse, connected, readings[1..])
  }

  lemma {:induction false} LineEffectsLength(cfg: Config, parse: Parser, connected: bool, readings: seq<Reading>)
    ensures |LineEffects(cfg, parse, connected, readings)| == |readings|
  {
    if readings != [] {
      LineEffectsLength(cfg, parse, connected, readings[1..]);
    }
  }

  lemma {:induction false} LineEffectsAt(cfg: Config, parse: Parser, connected: bool, readings: seq<Reading>, i: nat)
    requires i < |readings|
    ensures |LineEffects(cfg, parse, connected, readings)| == |readings|
    ensures LineEffects(cfg, parse, connected, readings)[i] == LineEffect(cfg, parse, connected, readings[i].raw, readings[i].now)
  {
    LineEffectsLength(cfg, parse, connected, readings);
    if i > 0 {
      LineEffectsAt(cfg, parse, connected, readings[1..], i - 1);
    }
  }

  /** The effects of a prefix of the readings are the prefix of their effects. */
  lemma LineEffectsPrefix(cfg: Config, parse: Parser, connected: bool, readings: seq<Reading>, n: nat)
    requires n <= |readings|
    ensures |LineEffects(cfg, parse, connected, readings)| == |readings|
    ensures LineEffects(cfg, parse, connected, readings[..n]) == LineEffects(cfg, parse, connected, readings)[..n]
  {
    LineEffectsLength(cfg, parse, connected, readings);
    LineEffectsLength(cfg, parse, connected, readings[..n]);
    forall i | 0 <= i < n
      ensures LineEffects(cfg, parse, connected, readings[..n])[i] == LineEffects(cfg, parse, connected, readings)[i]
    {
      LineEffectsAt(cfg, parse, connected, readings[..n], i);
      LineEffectsAt(cfg, parse, connected, readings, i);
    }
  }

  /** The events of `steps` taken in order up to and including the first crash. */
  function Collect(steps: seq<Step>): Trace {
    if steps == [] then Trace([], false)
    else
      var prev := Collect(steps[..|steps| - 1]);
      var last := steps[|steps| - 1];
      if prev.crashed then prev else Trace(prev.events + last.events, last.outcome.Crashed?)
  }

  /** Before any crash, one more line adds its events and may crash the loop. */
  lemma CollectNext(steps: seq<Step>, i: nat)
    requires i < |steps| && !Collect(steps[..i]).crashed
    ensures Collect(steps[..i + 1]).events == Collect(steps[..i]).events + steps[i].events
    ensures Collect(steps[..i + 1]).crashed == steps[i].outcome.Crashed?
  {
    assert steps[..i + 1][..i] == steps[..i];
  }

  /** Once the loop has crashed, later lines change nothing. */
  lemma {:induction false} CollectStopsAtCrash(steps: seq<Step>, n: nat)
    requires n <= |steps| && Collect(steps[..n]).crashed
    ensures Collect(steps) == Collect(steps[..n])
    decreases |steps| - n
  {
    if n < |steps| {
      assert steps[..n + 1][..n] == steps[..n];
      CollectStopsAtCrash(steps, n + 1);
    } else {
      assert steps[..n] == steps;
    }
  }

  /** What the bridge sees: lines from the device and the broker client's callbacks. */
  datatype Input = Line(reading: Reading) | Connack(rc: int) | Disconnect(rc: int)

  datatype RunState = RunState(connected: bool, events: seq<Event>, crashed: bool)

  /**
   * The bridge under an interleaving of lines and callbacks, from the flag `initial`. The
   * flag is read once per line, so a callback takes effect between two lines; a crash ends
   * the process, and nothing after it happens.
   */
  function Run(cfg: Config, parse: Parser, initial: bool, inputs: seq<Input>): RunState
    decreases |inputs|
  {
    if inputs == [] then RunState(initial, [], false)
    else
      var prev := Run(cfg, parse, initial, inputs[..|inputs| - 1]);
      if prev.crashed then prev
      else
        match inputs[|inputs| - 1]
        case Line(r) =>
          var step := LineEffect(cfg, parse, prev.connected, r.raw, r.now);
          RunState(prev.connected, prev.events + step.events, step.outcome.Crashed?)
        case Connack(rc) =>
          if rc == 0 then RunState(true, prev.events + [MqttPublish(StatusMessage(cfg))], false)
          else prev
        case Disconnect(_) => RunState(false, prev.events, false)
  }

  // ---------------------------------------------------------------------------------------
  // One line
  // ---------------------------------------------------------------------------------------

  /** A line of nothing but whitespace is skipped: no byte, no publish, in either state. */
  lemma BlankLineIsSilent(cfg: Config, parse: Parser, connected: bool, raw: string, now: string)
    requires AllSpace(raw)
    ensures LineEffect(cfg, parse, connected, raw, now) == Step([], Blank)
  {
    StripEmpty(raw);
  }

  /**
   * A line reporting a device error is skipped in either state, before the flag is looked
   * at; the text after the prefix is what the operator sees.
   */
  lemma DeviceErrorIsSilent(cfg: Config, parse: Parser, connected: bool, raw: string, now: string)
    requires ErrorPrefix <= Strip(raw)
    ensures LineEffect(cfg, parse, connected, raw, now) == Step([], DeviceError(Strip(raw)[6..]))
  {
  }

  /**
   * While disconnected, every other line is lost without being parsed: no publish, and one
   * `-` byte exactly when acknowledgements are enabled, even for text that is not JSON.
   */
  lemma DisconnectedLineIsLost(cfg: Config, parse: Parser, raw: string, now: string)
    requires !AllSpace(raw) && !(ErrorPrefix <= Strip(raw))
    ensures LineEffect(cfg, parse, false, raw, now).outcome == Lost
    ensures LineEffect(cfg, parse, false, raw, now).events == (if cfg.sendAck then [SerialWrite(Nack)] else [])
  {
    StripEmpty(raw);
  }

  /** While connected, a line that is not JSON is dropped with no byte and no publish. */
  lemma ConnectedMalformedIsDropped(cfg: Config, parse: Parser, raw: string, now: string)
    requires !AllSpace(raw) && !(ErrorPrefix <= Strip(raw))
    requires parse(Strip(raw)) == Invalid
    ensures LineEffect(cfg, parse, true, raw, now) == Step([], Malformed)
  {
    StripEmpty(raw);
  }

  /**
   * While connected, a line on which `json.loads` raises something other than `ValueError`
   * ends the read loop before any byte is written back.
   */
  lemma ConnectedParserRaises(cfg: Config, parse: Parser, raw: string, now: string)
    requires !AllSpace(raw) && !(ErrorPrefix <= Strip(raw))
    requires parse(Strip(raw)) == Raised
    ensures LineEffect(cfg, parse, true, raw, now) == Step([], Crashed)
  {
    StripEmpty(raw);
  }

  /**
   * While connected, a line holding a JSON object gets a `+` first when acknowledgements are
   * enabled (never a `-`). Its topic is the base topic when the routing field is absent and
   * below it otherwise; its payload is the object with `timestamp` set to `now` appended only
   * when absent. If the client accepts the topic, exactly one message follows, at QoS 0 with
   * the configured retain flag; otherwise the client's `ValueError` is caught and nothing is
   * published.
   */
  lemma ConnectedObjectIsForwarded(cfg: Config, parse: Parser, raw: string, now: string, m: Members)
    requires !AllSpace(raw) && !(ErrorPrefix <= Strip(raw))
    requires parse(Strip(raw)) == Value(JObject(m))
    ensures var st := LineEffect(cfg, parse, true, raw, now);
      var topic := if HasKey(m, cfg.subTopicField)
        then cfg.baseTopic + "/" + Str(Lookup(m, cfg.subTopicField)) else cfg.baseTopic;
      var payload := if HasKey(m, TimestampKey)
        then JObject(m) else JObject(m + [(TimestampKey, JString(now))]);
      && (topic == cfg.baseTopic <==> !HasKey(m, cfg.subTopicField))
      && (PublishableTopic(topic) ==>
            st == Step(AckEvents(cfg, Ack) + [MqttPublish(Message(topic, Encoded(payload), QoS0, cfg.retain))],
                       Forwarded(topic)))
      && (!PublishableTopic(topic) ==> st == Step(AckEvents(cfg, Ack), Rejected(topic)))
  {
    StripEmpty(raw);
    ObjectTopic(cfg.baseTopic, cfg.subTopicField, m);
    StampObject(m, now);
  }

  /**
   * While connected, JSON that is not an object makes the read loop raise `TypeError` after
   * the `+` byte, except for a list or string in which `in` finds `timestamp` but not the
   * routing field: that value goes unchanged to the base topic, if the client accepts it.
   */
  lemma ConnectedNonObject(cfg: Config, parse: Parser, raw: string, now: string, data: JsonValue)
    requires !AllSpace(raw) && !(ErrorPrefix <= Strip(raw))
    requires parse(Strip(raw)) == Value(data) && !data.JObject?
    ensures LineEffect(cfg, parse, true, raw, now) ==
      if PyContains(data, cfg.subTopicField) == Some(false) && PyContains(data, TimestampKey) == Some(true)
      then
        if PublishableTopic(cfg.baseTopic)
        then Step(AckEvents(cfg, Ack) + [MqttPublish(Message(cfg.baseTopic, Encoded(data), QoS0, cfg.retain))],
                  Forwarded(cfg.baseTopic))
        else Step(AckEvents(cfg, Ack), Rejected(cfg.baseTopic))
      else Step(AckEvents(cfg, Ack), Crashed)
  {
    StripEmpty(raw);
  }

  // ---------------------------------------------------------------------------------------
  // The read loop
  // ---------------------------------------------------------------------------------------

  /** Every event of the read loop comes from the effect of one of its lines. */
  lemma {:induction false} CollectEventFromStep(steps: seq<Step>, e: Event)
    requires e in Collect(steps).events
    ensures exists k :: 0 <= k < |steps| && e in steps[k].events
    decreases |steps|
  {
    var n := |steps| - 1;
    if e in Collect(steps[..n]).events {
      CollectEventFromStep(steps[..n], e);
      var k :| 0 <= k < n && e in steps[..n][k].events;
      assert steps[k] == steps[..n][k];
    } else {
      assert e in steps[n].events;
    }
  }

  /** A line that is neither blank nor a device error. */
  predicate IsDataLine(raw: string) {
    var line := Strip(raw);
    line != "" && !(ErrorPrefix <= line)
  }

  /** The number of readings that are neither blank nor device errors. */
  function DataLines(readings: seq<Reading>): nat {
    if readings == [] then 0
    else DataLines(readings[..|readings| - 1]) + (if IsDataLine(readings[|readings| - 1].raw) then 1 else 0)
  }

  /** While disconnected, a line never crashes the loop and can only earn a `-`. */
  lemma DisconnectedLineNacks(cfg: Config, parse: Parser, raw: string, now: string)
    ensures var st := LineEffect(cfg, parse, false, raw, now);
      && !st.outcome.Crashed?
      && st.events == (if cfg.sendAck && IsDataLine(raw) then [SerialWrite(Nack)] else [])
  {
  }

  lemma DisconnectedStepNacks(cfg: Config, parse: Parser, readings: seq<Reading>, k: nat)
    requires k < |readings|
    ensures |LineEffects(cfg, parse, false, readings)| == |readings|
    ensures var st := LineEffects(cfg, parse, false, readings)[k];
      && !st.outcome.Crashed?
      && st.events == (if cfg.sendAck && IsDataLine(readings[k].raw) then [SerialWrite(Nack)] else [])
  {
    LineEffectsAt(cfg, parse, false, readings, k);
    DisconnectedLineNacks(cfg, parse, readings[k].raw, readings[k].now);
  }

  /** Steps that never crash and earn a `-` exactly for data lines collect into `-` bytes only. */
  lemma {:induction false} CollectNacks(cfg: Config, readings: seq<Reading>, steps: seq<Step>)
    requires |steps| == |readings|
    requires forall k :: 0 <= k < |steps| ==>
      !steps[k].outcome.Crashed? &&
      steps[k].events == (if cfg.sendAck && IsDataLine(readings[k].raw) then [SerialWrite(Nack)] else [])
    ensures !Collect(steps).crashed
    ensures forall e <- Collect(steps).events :: e == SerialWrite(Nack)
    ensures |Collect(steps).events| == (if cfg.sendAck then DataLines(readings) else 0)
    decreases |steps|
  {
    if steps != [] {
      var n := |steps| - 1;
      CollectNacks(cfg, readings[..n], steps[..n]);
    }
  }

  /**
   * While disconnected, the read loop never publishes and never crashes; it writes one `-`
   * per data line when acknowledgements are enabled and nothing otherwise.
   */
  lemma DisconnectedLoopOnlyNacks(cfg: Config, parse: Parser, readings: seq<Reading>)
    ensures !ReadLoop(cfg, parse, false, readings).crashed
    ensures forall e <- ReadLoop(cfg, parse, false, readings).events :: e == SerialWrite(Nack)
    ensures |ReadLoop(cfg, parse, false, readings).events| == (if cfg.sendAck then DataLines(readings) else 0)
  {
    var steps := LineEffects(cfg, parse, false, readings);
    LineEffectsLength(cfg, parse, false, readings);
    forall k | 0 <= k < |steps|
      ensures !steps[k].outcome.Crashed?
      ensures steps[k].events == (if cfg.sendAck && IsDataLine(readings[k].raw) then [SerialWrite(Nack)] else [])
    {
      DisconnectedStepNacks(cfg, parse, readings, k);
    }
    CollectNacks(cfg, readings, steps);
  }

  /**
   * While connected, a line never earns a `-`, and what it publishes goes at QoS 0, with the
   * configured retain flag, to a topic at or below the base topic that the client accepts.
   */
  lemma ConnectedLineEvents(cfg: Config, parse: Parser, raw: string, now: string)
    ensures var events := LineEffect(cfg, parse, true, raw, now).events;
      && SerialWrite(Nack) !in events
      && forall e <- events | e.MqttPublish? ::
           e.msg.qos == QoS0 && e.msg.retain == cfg.retain && cfg.baseTopic <= e.msg.topic
             && PublishableTopic(e.msg.topic)
  {
  }

  /** What holds of every connected line holds of the whole connected read loop. */
  lemma ConnectedLoopPublishes(cfg: Config, parse: Parser, readings: seq<Reading>)
    ensures var events := ReadLoop(cfg, parse, true, readings).events;
      && SerialWrite(Nack) !in events
      && forall e <- events | e.MqttPublish? ::
           e.msg.qos == QoS0 && e.msg.retain == cfg.retain && cfg.baseTopic <= e.msg.topic
             && PublishableTopic(e.msg.topic)
  {
    var steps := LineEffects(cfg, parse, true, readings);
    LineEffectsLength(cfg, parse, true, readings);
    forall e | e in Collect(steps).events
      ensures e != SerialWrite(Nack)
      ensures e.MqttPublish? ==>
        e.msg.qos == QoS0 && e.msg.retain == cfg.retain && cfg.baseTopic <= e.msg.topic
        && PublishableTopic(e.msg.topic)
    {
      CollectEventFromStep(steps, e);
      var k :| 0 <= k < |steps| && e in steps[k].events;
      LineEffectsAt(cfg, parse, true, readings, k);
      ConnectedLineEvents(cfg, parse, readings[k].raw, readings[k].now);
    }
  }

  // ---------------------------------------------------------------------------------------
  // The connectivity flag under interleaved callbacks
  // ---------------------------------------------------------------------------------------

  /**
   * The flag is up after `inputs` exactly when some accepted connection (return code 0) is
   * followed by no disconnection, or it was up to begin with and nothing disconnected it.
   */
  ghost predicate FlagUp(initial: bool, inputs: seq<Input>) {
    || (exists i :: 0 <= i < |inputs| && inputs[i] == Connack(0) && NoDisconnectAfter(inputs, i + 1))
    || (initial && NoDisconnectAfter(inputs, 0))
  }

  ghost predicate NoDisconnectAfter(inputs: seq<Input>, from: nat) {
    forall j :: from <= j < |inputs| ==> !inputs[j].Disconnect?
  }

  lemma {:induction false} RunFlag(cfg: Config, parse: Parser, initial: bool, inputs: seq<Input>)
    requires !Run(cfg, parse, initial, inputs).crashed
    ensures Run(cfg, parse, initial, inputs).connected <==> FlagUp(initial, inputs)
    decreases |inputs|
  {
    if inputs != [] {
      var n := |inputs| - 1;
      var prefix := inputs[..n];
      assert !Run(cfg, parse, initial, prefix).crashed;
      RunFlag(cfg, parse, initial, prefix);
      var last := inputs[n];
      if last.Disconnect? {
        assert !NoDisconnectAfter(inputs, 0);
        forall i | 0 <= i < |inputs| ensures !(inputs[i] == Connack(0) && NoDisconnectAfter(inputs, i + 1)) {
          assert inputs[n].Disconnect?;
        }
      } else if last == Connack(0) {
        assert NoDisconnectAfter(inputs, n + 1);
      } else {
        if FlagUp(initial, prefix) {
          if exists i :: 0 <= i < n && prefix[i] == Connack(0) && NoDisconnectAfter(prefix, i + 1) {
            var i :| 0 <= i < n && prefix[i] == Connack(0) && NoDisconnectAfter(prefix, i + 1);
            assert inputs[i] == Connack(0) && NoDisconnectAfter(inputs, i + 1);
          } else {
            assert NoDisconnectAfter(inputs, 0);
          }
        }
        if FlagUp(initial, inputs) {
          if exists i :: 0 <= i < |inputs| && inputs[i] == Connack(0) && NoDisconnectAfter(inputs, i + 1) {
            var i :| 0 <= i < |inputs| && inputs[i] == Connack(0) && NoDisconnectAfter(inputs, i + 1);
            assert i < n;
            assert prefix[i] == Connack(0) && NoDisconnectAfter(prefix, i + 1);
          } else {
            assert NoDisconnectAfter(prefix, 0);
          }
        }
      }
    }
  }

  /** The inputs that deliver `readings` as lines, with no callback in between. */
  function Lines(readings: seq<Reading>): (inputs: seq<Input>)
    ensures |inputs| == |readings| && forall i :: 0 <= i < |inputs| ==> inputs[i] == Line(readings[i])
  {
    if readings == [] then [] else Lines(readings[..|readings| - 1]) + [Line(readings[|readings| - 1])]
  }

  /**
   * With no callback in between, the interleaved run is the read loop at a fixed flag: the
   * same events, the same crash, and the flag left as it was.
   */
  lemma {:induction false} RunOfLines(cfg: Config, parse: Parser, initial: bool, readings: seq<Reading>)
    ensures var run := Run(cfg, parse, initial, Lines(readings));
      && run.connected == initial
      && run.events == ReadLoop(cfg, parse, initial, readings).events
      && run.crashed == ReadLoop(cfg, parse, initial, readings).crashed
    decreases |readings|
  {
    if readings != [] {
      var n := |readings| - 1;
      RunOfLines(cfg, parse, initial, readings[..n]);
      assert Lines(readings)[..n] == Lines(readings[..n]);
      LineEffectsPrefix(cfg, parse, initial, readings, n);
      LineEffectsAt(cfg, parse, initial, readings, n);
    }
  }

  /**
   * A bridge that starts disconnected and is never accepted by the broker publishes nothing
   * and only ever writes `-` bytes back to the device.
   */
  lemma {:induction false} NeverConnectedPublishesNothing(cfg: Config, parse: Parser, inputs: seq<Input>)
    requires Connack(0) !in inputs
    ensures !Run(cfg, parse, false, inputs).connected
    ensures !Run(cfg, parse, false, inputs).crashed
    ensures forall e <- Run(cfg, parse, false, inputs).events :: e == SerialWrite(Nack)
    decreases |inputs|
  {
    if inputs != [] {
      var prefix := inputs[..|inputs| - 1];
      assert forall x <- prefix :: x in inputs;
      NeverConnectedPublishesNothing(cfg, parse, prefix);
    }
  }
}
