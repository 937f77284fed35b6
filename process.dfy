/**
 * The running bridge: the connectivity flag shared with the broker client's callbacks, the
 * configuration, and a ghost trace of what has been written to the serial device and
 * published to the broker, in order.
 */
module Process {
  import opened Wrappers
  import opened Text
  import opened Json
  import opened Router
  import opened Bridge

  class Serial2Mqtt {
    var connected: bool
    const cfg: Config
    const parse: Parser
    ghost var trace: seq<Event>

    /** The bridge starts with the flag down and nothing written or published. */
    constructor (cfg: Config, parse: Parser)
      ensures this.cfg == cfg && this.parse == parse
      ensures !connected && trace == []
    {
      this.cfg := cfg;
      this.parse := parse;
      connected := false;
      trace := [];
    }

    /** The broker's answer to a connection attempt, with return code `rc`. */
    method OnConnect(rc: int)
      modifies this
      ensures rc == 0 ==> connected && trace == old(trace) + [MqttPublish(StatusMessage(cfg))]
      ensures rc != 0 ==> connected == old(connected) && trace == old(trace)
    {
      if rc == 0 {
        connected := true;
        trace := trace + [MqttPublish(StatusMessage(cfg))];
      }
    }

    /** The loss of the broker connection, whatever its return code. */
    method OnDisconnect(rc: int)
      modifies this`connected
      ensures !connected
    {
      connected := false;
    }

    /** One iteration of the read loop on the line `raw`, handled at time `now`. */
    method HandleLine(raw: string, now: string) returns (outcome: Outcome)
      modifies this`trace
      ensures trace == old(trace) + LineEffect(cfg, parse, connected, raw, now).events
      ensures outcome == LineEffect(cfg, parse, connected, raw, now).outcome
    {
      var line := Strip(raw);
      if line == "" {
        return Blank;
      }
      if ErrorPrefix <= line {
        return DeviceError(line[6..]);
      }
      if !connected {
        if cfg.sendAck {
          trace := trace + [SerialWrite(Nack)];
        }
        return Lost;
      }
      var data := parse(line);
      if data.Invalid? {
        return Malformed;
      }
      if data.Raised? {
        return Crashed;
      }
      if cfg.sendAck {
        trace := trace + [SerialWrite(Ack)];
      }
      var topic := RouteTopic(cfg.baseTopic, cfg.subTopicField, data.value);
      if topic.None? {
        return Crashed;
      }
      var payload := StampTimestamp(data.value, now);
      if payload.None? {
        return Crashed;
      }
      if !PublishableTopic(topic.value) {
        return Rejected(topic.value);
      }
      trace := trace + [MqttPublish(Message(topic.value, Encoded(payload.value), QoS0, cfg.retain))];
      return Forwarded(topic.value);
    }

    /** The `i`th line of `readings`, with its effect taken from `steps`. */
    method HandleReading(readings: seq<Reading>, i: nat, ghost steps: seq<Step>) returns (outcome: Outcome)
      requires i < |readings| && steps == LineEffects(cfg, parse, connected, readings)
      modifies this`trace
      ensures i < |steps| && trace == old(trace) + steps[i].events && outcome == steps[i].outcome
    {
      LineEffectsAt(cfg, parse, connected, readings, i);
      outcome := HandleLine(readings[i].raw, readings[i].now);
    }

    /**
     * The read loop over the finite `readings`, between two changes of the flag; it ends
     * early, reporting `crashed`, when an exception escapes a line.
     */
    method HandleLines(readings: seq<Reading>) returns (crashed: bool)
      modifies this`trace
      ensures trace == old(trace) + ReadLoop(cfg, parse, connected, readings).events
      ensures crashed == ReadLoop(cfg, parse, connected, readings).crashed
    {
      ghost var steps := LineEffects(cfg, parse, connected, readings);
      LineEffectsLength(cfg, parse, connected, readings);
      crashed := false;
      var i := 0;
      while i < |readings| && !crashed
        invariant 0 <= i <= |readings|
        invariant trace == old(trace) + Collect(steps[..i]).events
        invariant crashed == Collect(steps[..i]).crashed
      {
        var outcome := HandleReading(readings, i, steps);
        crashed := outcome.Crashed?;
        CollectNext(steps, i);
        i := i + 1;
      }
      if crashed {
        CollectStopsAtCrash(steps, i);
      } else {
        assert steps[..i] == steps;
      }
    }
  }
}
