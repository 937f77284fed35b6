# serial2mqtt bridge model

serial2mqtt forwards newline-terminated JSON messages from a serial device to an MQTT
broker. This project models the core of `serial2mqtt/src/__main__.py` in Dafny:

- the read loop `listen_to_serial`, one stripped line at a time;
- the two broker callbacks, `mqtt_connect` and `mqtt_disconnect`, which set and clear the
  shared connectivity flag;
- topic routing, where the topic is `base/<value of the routing field>` or `base`;
- timestamp injection, where a `timestamp` entry is added when it is absent.

What the bridge does is recorded as an ordered trace of events. An event is either a byte
written back to the device (`+` or `-`) or a message published to the broker.

Modules:

- `Wrappers`: `Option`, with the failure-propagation members used by `:-`.
- `Text`: Python's `str.strip()` over the characters for which `str.isspace()` holds,
  `startswith` as sequence prefix, and `in` on two strings.
- `Json`: parsed JSON values, with a dict kept as an ordered list of entries. It also holds
  the Python operations the loop applies to a parsed value: `in`, `d[k]`, `d[k] = v`,
  `str()` and `repr()`. Each returns `None` where Python raises an exception other than
  `ValueError`.
- `Router`: topic selection and timestamp injection.
- `Bridge`: the specification level.
  - `LineEffect` is the effect of one line, given the flag.
  - `ReadLoop` is the loop over a finite run of lines at a fixed flag. It stops at the first
    exception that escapes a line, because such an exception ends the process.
  - `Run` is the bridge under any interleaving of lines and broker callbacks.
- `Process`: the class `Serial2Mqtt`. Its fields are the flag, the configuration, the parser
  and a ghost trace. Its methods are the two callbacks, the handling of one line and the
  loop. Each method is proved against the `Bridge` functions.

The code checks the flag before it parses a line. So while disconnected, every non-blank
line that is not a device error gets a `-` (when acknowledgements are enabled), even if it
is not JSON. While connected, a line that is not JSON gets no byte at all.

## Model

| member | source | states |
|---|---|---|
| Text.StripSlice | serial2mqtt/src/__main__.py:32 | `strip` keeps one contiguous slice of the line. Everything outside the slice is whitespace, the slice neither starts nor ends with whitespace, and it is empty exactly when the whole line is whitespace. |
| Text.StripEmpty | serial2mqtt/src/__main__.py:32-33 | A line strips to `""` if and only if it is all whitespace. |
| Text.StripPadded | serial2mqtt/src/__main__.py:32 | Whitespace padding on either side of a trimmed text is removed, and nothing else is. |
| Text.StripIdempotent | serial2mqtt/src/__main__.py:32 | Stripping a stripped line changes nothing. |
| Text.TrimStartRemovesPrefix | serial2mqtt/src/__main__.py:32 | The leading pass removes exactly the maximal all-whitespace prefix. |
| Text.TrimEndRemovesSuffix | serial2mqtt/src/__main__.py:32 | The trailing pass removes exactly the maximal all-whitespace suffix. |
| Json.AppendEntry | serial2mqtt/src/__main__.py:55 | Appending an entry to a dict adds exactly its key and leaves every earlier lookup unchanged. |
| Router.ObjectTopic | serial2mqtt/src/__main__.py:50-53 | For a JSON object the topic is always defined. It equals the base topic if and only if the routing field is absent. Otherwise, taking the part below `base/` recovers the field's `str()` value, so the routing is inverted by `SubTopic`. |
| Router.TopicUnderBase | serial2mqtt/src/__main__.py:50-53 | Whatever the parsed value, any topic chosen starts with the base topic. |
| Router.SetAbsentKeyAppends | serial2mqtt/src/__main__.py:55 | Assigning a key the dict lacks appends the entry at the end. |
| Router.StampObject | serial2mqtt/src/__main__.py:54-55 | A `timestamp` entry holding the read time is appended if and only if the object has none. Otherwise the object is left as it is. |
| Router.StampedLookups | serial2mqtt/src/__main__.py:54-55 | After stamping, `timestamp` is present, with its old value or the read time. Every other key is present exactly when it was before, with the same value. |
| Router.StampKeepsKeysUnique | serial2mqtt/src/__main__.py:54-55 | Stamping keeps the dict invariant that no key occurs twice. |
| Bridge.BlankLineIsSilent | serial2mqtt/src/__main__.py:32-34 | An empty or all-whitespace line produces no byte and no publish, in either state. |
| Bridge.DeviceErrorIsSilent | serial2mqtt/src/__main__.py:35-37 | A line starting with `ERROR:` produces no byte and no publish, in either state. What remains is the text after the prefix. |
| Bridge.DisconnectedLineIsLost | serial2mqtt/src/__main__.py:38-43 | While disconnected, any other line is lost without being parsed. It gets exactly one `-` when acknowledgements are on, nothing when they are off, and is never published. |
| Bridge.DisconnectedLineNacks | serial2mqtt/src/__main__.py:33-43 | While disconnected, no line crashes the loop. A line's events are a single `-` exactly for a data line with acknowledgements on, and nothing otherwise. |
| Bridge.ConnectedMalformedIsDropped | serial2mqtt/src/__main__.py:44-59 | While connected, text that `json.loads` rejects with a `ValueError` gets no byte and no publish, and the loop goes on. |
| Bridge.ConnectedParserRaises | serial2mqtt/src/__main__.py:44-49 | While connected, a line on which `json.loads` raises an exception that is not a `ValueError` (such as `RecursionError` on deep nesting) ends the loop before any byte is written back, and nothing is published. |
| Bridge.ConnectedObjectIsForwarded | serial2mqtt/src/__main__.py:44-59 | While connected, a JSON object first gets a `+` (if acknowledgements are on, and never a `-`). Its topic is the base topic exactly when the routing field is absent. If the broker client accepts that topic, the object is published exactly once, at QoS 0 with the configured retain flag, with `timestamp` added only when it is absent. If the client refuses the topic (empty, a `+` or `#` wildcard, or over 65535 UTF-8 bytes), its `ValueError` is caught and nothing is published. |
| Bridge.ConnectedNonObject | serial2mqtt/src/__main__.py:44-59 | While connected, JSON that is not an object gets a `+` and then raises out of the loop. The exception is a list or string containing `timestamp` but not the routing field: that value is published unchanged to the base topic, or caught as a `ValueError` when the client refuses the base topic. |
| Bridge.ConnectedLineEvents | serial2mqtt/src/__main__.py:44-59 | While connected, no line earns a `-`. Every publish goes at QoS 0, with the configured retain flag, to a topic under the base topic that the broker client accepts. |
| Bridge.DisconnectedLoopOnlyNacks | serial2mqtt/src/__main__.py:29-43 | While disconnected, the loop never publishes or crashes. It writes exactly one `-` per data line when acknowledgements are on, and nothing when they are off. |
| Bridge.ConnectedLoopPublishes | serial2mqtt/src/__main__.py:29-59 | While connected, the loop never writes a `-`. Every message it publishes goes at QoS 0, with the configured retain flag, to a topic under the base topic that the broker client accepts. |
| Bridge.RunOfLines | serial2mqtt/src/__main__.py:29-59 | With no callback between lines, the interleaved run has the same events and the same crash as the read loop at a fixed flag, and leaves the flag as it was. |
| Bridge.RunFlag | serial2mqtt/src/__main__.py:61-73 | Under any interleaving of lines and callbacks, for a run that has not crashed, the flag is up if and only if either some accepted connection (return code 0) has had no later disconnection, or the flag started up and was never cleared. |
| Bridge.NeverConnectedPublishesNothing | serial2mqtt/src/__main__.py:27-73 | A bridge that starts disconnected and is never accepted by the broker never publishes, never crashes, and writes only `-` bytes. |
| Process.Serial2Mqtt.constructor | serial2mqtt/src/__main__.py:27 | The bridge starts with the flag down and with nothing written or published. |
| Process.Serial2Mqtt.OnConnect | serial2mqtt/src/__main__.py:61-68 | Return code 0 raises the flag and publishes `online` to `base/status`, at QoS 0 and retained. Any other code leaves the flag and the trace unchanged. |
| Process.Serial2Mqtt.OnDisconnect | serial2mqtt/src/__main__.py:70-73 | Whatever the return code, the flag is cleared and nothing is written or published. |
| Process.Serial2Mqtt.HandleLine | serial2mqtt/src/__main__.py:32-59 | One pass of the loop body appends to the trace exactly the events of `LineEffect` for the current flag, and reports how the line ended: blank, device error, lost, malformed, forwarded, rejected by the broker client, or crashed. |
| Process.Serial2Mqtt.HandleLines | serial2mqtt/src/__main__.py:29-59 | The loop over a run of lines appends exactly the events of `ReadLoop`. It stops right after the first line that raises, and reports whether one did. |

## Left out

- The environment settings at lines 10-25 are not read. The four that affect bridging (base
  topic, routing field, retain, send-ack) are the `Config` value. The serial device, baud
  rate, host, port, credentials and log level are left out.
- Logging is not modelled. It has no effect on the device or the broker.
- The MQTT client setup at lines 78-89 is left out: credentials, `connect_async`, `loop_start`,
  and the last-will message `offline` on `base/status`. The broker sends that message, not
  the bridge.
- Opening, retrying and closing the serial port at lines 90-105 is left out, along with the
  one-second sleep. The model starts from lines that have already been read.
- `readline().decode('utf-8')` is left out. A line is already-decoded text, so the
  `UnicodeDecodeError` that invalid UTF-8 raises outside the `try` is not modelled.
- `datetime.now().isoformat()` is the `now` parameter of each reading. `json.loads` is the
  `parse` parameter. It returns a value, reports `Invalid` for a `ValueError`, or reports
  `Raised` for any other exception. `json.dumps` is left symbolic, as
  the `Encoded` payload.
- `Process.Serial2Mqtt.OnConnect` assumes the `online` publish to `base/status` is accepted
  by the broker client. A base topic the client refuses (holding a wildcard, or too long)
  makes that publish raise inside the callback, after the flag is raised. What then happens
  to the client's network thread is not modelled.
- The broker client's limit on payload size is not checked, because `json.dumps` is left
  symbolic. The model does check the client's topic rules: a topic must be non-empty, hold
  no `+` or `#`, and fit in 65535 UTF-8 bytes.
- JSON strings holding unpaired surrogates (from `\uD800`–`\uDFFF` escapes) are not
  representable, because a Dafny `char` is a Unicode scalar value. This drops one more case
  in which the broker client refuses a topic. A routed value holding such a surrogate makes
  `publish` raise `UnicodeEncodeError` (a `ValueError`) when it encodes the topic as UTF-8.
  Line 58 catches that error after the `+` byte is written.
- JSON numbers are integers only; floating point is not modelled.
- `repr()` escaping follows Python only up to U+00FF. Characters beyond it, which Python
  escapes when they are not printable, are kept as they are.
- The broker callbacks run on the client's network thread, concurrently with the read loop.
  `Run` interleaves them with the loop only between whole lines, because the loop reads the
  flag once per line, at line 38. This decides each line's outcome correctly, but it loses
  some event orders. An `online` publish from `mqtt_connect` can fall between a line's `+`
  (line 49) and its publish (line 57). A disconnection after the check at line 38 still
  lets that line reach the publish call, which the model records as a publish on the
  connected bridge.
- The outer `except Exception` at lines 106-108 is modelled only as the `Crashed` outcome,
  which ends the run. The process exit itself is left out.
- Where a description of the program disagrees with the code, the model follows the code:
  - The flag is checked before the line is parsed, so while disconnected even non-JSON text
    gets a `-`.
  - While connected, malformed text gets no byte, so acknowledgements depend on
    connectivity.
  - JSON that is not an object is not treated as malformed. It raises out of the loop after
    the `+`, except in the list/string case described under `Bridge.ConnectedNonObject`.
    The error is a `TypeError` from `in`, from `data[field]` (a list or string that contains
    the routing field's name), or from item assignment.
