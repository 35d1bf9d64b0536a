# Telemetry decode-and-log model

A Dafny model of the message path of `M5TelemetryControl.py`, a desktop
viewer for an M5 sensor device that talks MQTT. The device publishes
movement (six float32 values), battery (an int16 in millivolts) and sound
(one float32). The viewer logs each reading in a pandas data frame with
a timestamp column. It also sends a sampling interval back to the device
as a retained `<I` word.

Modules, one per layer of that path:

- `LittleEndian` (`little_endian.dfy`): unsigned little-endian values of any
  width, 32-bit words and 16-bit two's-complement integers, with round trips
  both ways.
- `StructFormat` (`struct_format.dfy`): the four `struct` formats the program
  uses (`<ffffff`, `<h`, `<f`, `<I`). A `Failure` stands for Python's
  `struct.error`. Float32 fields are kept as their raw 32-bit words.
- `Topics` (`topics.dfy`): the four topic constants and the branch each topic
  selects.
- `Series` (`series.dfy`): the three data frames (columns and rows) and the
  handling of one message as a function `Deliver` on a `Log`. `Replay` runs a
  whole sequence of messages through it.
- `Telemetry` (`telemetry.dfy`): class `TelemetryApp`, the handler object.
  Its fields `lastReceived`, `movement`, `battery` and `sound` are updated in
  place by `OnMessage`, which follows the three `if` branches of `on_message`.
  Its contract ties the new state to `Deliver`.
- `RateControl` (`rate_control.dfy`): `send_rate`, written twice. One model
  follows the code as written, the other the intended behaviour (see
  Findings).

Facts about the code that the model keeps:

- `on_message` sets `last_received` before it compares topics or unpacks
  anything (lines 82-84). So a message on an unknown topic, or with a
  malformed payload, still moves the liveness mark. It just adds no row. A
  design that moves the mark only on a successful decode is not what the
  code does.
- A malformed payload makes `struct.unpack` raise before the append. In the
  model that is the outcome `Rejected`, and no frame changes.
- A sound payload whose word is a float32 NaN (for example `00 00 C0 7F`)
  unpacks without error. But line 100 then sets the progress bar's value to
  NaN, and Tcl refuses a NaN double with a `TclError`. That happens before
  the append at line 101, so the sound frame does not change. The model
  rejects such a payload with `ProgressValueNaN`, after the liveness mark has
  moved.
- An exception raised in `on_message` leaves paho-mqtt's callback dispatch.
  With the client's default `suppress_exceptions = False` it is re-raised,
  which ends the network loop thread that `loop_start` (line 64) started. So
  no message after it is handled. paho-mqtt itself is not part of this model:
  `Replay` assumes this behaviour and stops at the first message whose
  handling raises.
- `struct.pack("<I", n)` raises `struct.error` when `n` is out of range.
  `struct.error` is not a `ValueError`, so the `except` at line 111 does not
  catch it. Nothing is published either way. The model's answer is
  `PackFailed`.
- 2500 ms encodes as the bytes `C4 09 00 00`. The bytes `B8 0B 00 00`, which
  are sometimes quoted for 2.5 s, are 3000 ms (`StructFormat.RateExample`).
- The liveness mark comes from `time.time()` (line 82). The row timestamp is
  a separate reading of `datetime.now()` (line 86). Both are parameters of
  `OnMessage` (`now` and `stamp`), passed in as integers.

## Model

| member | source | states |
|---|---|---|
| `LittleEndian.FromLE` | M5TelemetryControl.py:94 | the little-endian value of n bytes is below 256^n |
| `LittleEndian.FromLEOfToLE` | M5TelemetryControl.py:108 | writing n bytes of a value below 256^n and reading them back gives the value |
| `LittleEndian.ToLEOfFromLE` | M5TelemetryControl.py:89 | reading then rewriting any byte string gives the same bytes |
| `LittleEndian.Int16FromLE` | M5TelemetryControl.py:94 | a `<h` value lies in [-32768, 32767]; it is negative exactly when the high byte's top bit is set; it matches the two bytes modulo 2^16 |
| `LittleEndian.Int16RoundTrip` | M5TelemetryControl.py:94 | decoding the encoding of any int16 gives it back |
| `LittleEndian.Int16BytesRoundTrip` | M5TelemetryControl.py:94 | re-encoding a decoded int16 gives the original 2 bytes |
| `LittleEndian.Word32FromLE` | M5TelemetryControl.py:98 | a 4-byte word is b0 + 2^8 b1 + 2^16 b2 + 2^24 b3 |
| `LittleEndian.Word32RoundTrip` | M5TelemetryControl.py:108 | decoding the 4 bytes written for a word gives the word |
| `LittleEndian.Word32BytesRoundTrip` | M5TelemetryControl.py:98 | re-encoding a decoded word gives the original 4 bytes |
| `LittleEndian.Words` | M5TelemetryControl.py:89 | word i of a buffer is the word at bytes 4i..4i+4, in payload order; there are len/4 of them |
| `LittleEndian.WordsOfPackWords` | M5TelemetryControl.py:89 | decoding packed words gives the same words |
| `LittleEndian.PackWordsOfWords` | M5TelemetryControl.py:89 | packing the decoded words of a buffer reproduces the buffer |
| `StructFormat.UnpackSixFloats` | M5TelemetryControl.py:89 | `<ffffff` succeeds exactly on 24 bytes and otherwise raises a buffer-size error; word i comes from bytes 4i..4i+4 |
| `StructFormat.UnpackInt16` | M5TelemetryControl.py:94 | `<h` succeeds exactly on 2 bytes; the value is an int16 that re-encodes to the payload |
| `StructFormat.UnpackFloat` | M5TelemetryControl.py:98 | `<f` succeeds exactly on 4 bytes; the word re-encodes to the payload |
| `StructFormat.PackUInt32` | M5TelemetryControl.py:108 | `<I` succeeds exactly for 0 <= n < 2^32, giving 4 bytes that decode to n; otherwise an out-of-range error |
| `StructFormat.SixFloatsRoundTrip` | M5TelemetryControl.py:89 | every 24-byte movement payload decodes, and re-packing its six words reproduces it |
| `StructFormat.SixFloatsFromWords` | M5TelemetryControl.py:89 | any six words are the decoding of their packed 24 bytes |
| `StructFormat.MovementExample` | M5TelemetryControl.py:89 | the bytes of 1.0f..6.0f decode to the bit patterns 0x3F800000..0x40C00000, in order |
| `StructFormat.BatteryExample` | M5TelemetryControl.py:94 | F4 01 is 500, FF FF is -1, 00 80 is -32768, and a 3-byte buffer fails |
| `StructFormat.NaN32Examples` | M5TelemetryControl.py:100 | 7FC00000, FFC00000 and 7F800001 are float32 NaNs; the two infinities, 1.0f and -0.0f are not |
| `StructFormat.RateExample` | M5TelemetryControl.py:108 | 2500 packs to C4 09 00 00 and 3000 to B8 0B 00 00; -1 and 2^32 fail |
| `Topics.SignalOf` | M5TelemetryControl.py:88-97 | a topic selects a signal exactly when it equals that signal's topic constant; every other topic selects none |
| `Topics.TopicsDistinct` | M5TelemetryControl.py:9-12 | the topic constants are pairwise distinct, and the rate topic selects no branch |
| `Series.ColumnLayout` | M5TelemetryControl.py:67-69 | the frames have 7, 2 and 2 columns, each starting with "Timestamp" |
| `Series.Decode` | M5TelemetryControl.py:88-98 | a signal's unpack succeeds exactly on its payload size and otherwise gives that size's error |
| `Series.MovementRow` | M5TelemetryControl.py:92 | the movement row fits the 7-column layout |
| `Series.BatteryRow` | M5TelemetryControl.py:96 | the battery row fits the 2-column layout with an int16 value |
| `Series.SoundRow` | M5TelemetryControl.py:101 | the sound row fits the 2-column layout |
| `Series.Route` | M5TelemetryControl.py:88-101 | one message is either ignored (unknown topic), rejected, or accepted as one well-typed row of its own signal, stamped with the handler's timestamp. It is rejected with the size error when the size is wrong, and with the NaN refusal when a 4-byte sound word is a NaN. It is accepted exactly when its topic is known and the payload reaches the append |
| `Series.MovementRowFields` | M5TelemetryControl.py:86-92 | an accepted movement row is [stamp, w0..w5], where wi is the i-th 4-byte word of the payload |
| `Series.BatteryRowField` | M5TelemetryControl.py:93-96 | an accepted battery row is [stamp, int16 of the payload], and that value re-encodes to the payload |
| `Series.SoundRowField` | M5TelemetryControl.py:97-101 | for a 4-byte payload whose word is not a NaN, the accepted sound row is [stamp, word of the payload], and that word re-encodes to the payload |
| `Series.DeliverMarksLiveness` | M5TelemetryControl.py:82-84 | every message sets the liveness mark to `now`, whatever its topic or payload |
| `Series.DeliverUnknownTopic` | M5TelemetryControl.py:81-101 | a message on any other topic changes nothing except the liveness mark |
| `Series.DeliverMalformed` | M5TelemetryControl.py:88-101 | a wrong-size payload on a known topic changes nothing except the liveness mark |
| `Series.DeliverNaNSound` | M5TelemetryControl.py:97-101 | a 4-byte sound payload whose word is a NaN is rejected at line 100, before the append; only the liveness mark changes |
| `Series.DeliverAccepted` | M5TelemetryControl.py:88-101 | a payload that reaches the append appends one fitting row at index len(frame), stamped `stamp`; earlier rows and the other two frames are unchanged |
| `Series.DeliverWellFormed` | M5TelemetryControl.py:67-101 | handling a message keeps every row of every frame in its frame's layout |
| `Series.ShortBatteryExample` | M5TelemetryControl.py:93-96 | a 3-byte battery payload is rejected, leaves the battery frame empty, and still moves the liveness mark |
| `Series.NaNSoundExample` | M5TelemetryControl.py:97-101 | the sound payload 00 00 C0 7F is rejected as a NaN, leaves the sound frame empty, and still moves the liveness mark |
| `Series.Handled` | M5TelemetryControl.py:59-64 | the messages whose callback runs are a prefix of those offered, and that prefix is non-empty when any message is offered |
| `Series.HandledEndsAtRaise` | M5TelemetryControl.py:59-64 | only the last handled message can raise, and it does raise whenever some offered message goes unhandled |
| `Series.HandledAll` | M5TelemetryControl.py:59-64 | when no message raises, every offered message is handled |
| `Series.ReplaySeries` | M5TelemetryControl.py:92-101 | after any sequence of messages, each frame is its old rows followed by exactly the accepted rows of the handled messages, in arrival order |
| `Series.ReplayStopsAtRaise` | M5TelemetryControl.py:59-64 | once a message raises, the messages offered after it change nothing |
| `Series.ReplayLiveness` | M5TelemetryControl.py:82 | after a sequence of messages the liveness mark is the `now` of the last handled message, whatever its topic or payload |
| `Series.ReplayCount` | M5TelemetryControl.py:92-101 | N messages on one topic whose payloads all reach the append add N rows to its frame and leave the other frames unchanged |
| `Series.AcceptedRowsOnTopic` | M5TelemetryControl.py:88-101 | messages on other topics add no rows to a frame: its accepted rows are those of the messages on its own topic |
| `Series.ReplayTopicRows` | M5TelemetryControl.py:88-101 | when no message raises, a frame after any sequence of messages equals the frame after only the messages on its topic |
| `Series.ReplayWellFormed` | M5TelemetryControl.py:67-101 | frame layouts survive any sequence of messages |
| `Series.DeliverOrdered` | M5TelemetryControl.py:86-101 | appending at a stamp no earlier than the existing rows keeps the frame ordered by timestamp |
| `Series.ReplayOrdered` | M5TelemetryControl.py:86-101 | non-decreasing message stamps keep every frame ordered by timestamp |
| `Telemetry.TelemetryApp.constructor` | M5TelemetryControl.py:60-69 | `last_received` is 0 and all three frames are empty |
| `Telemetry.TelemetryApp.OnMessage` | M5TelemetryControl.py:81-101 | the liveness mark becomes `now`. The three branches run with early exit on an unpack error or a NaN sound level. The outcome is `Route`'s, the new state is `Deliver` of the old one, and frame layouts are kept |
| `RateControl.SendRate` | M5TelemetryControl.py:103-109 | intended send_rate: publishes exactly when connected and 0 <= ms < 2^32, on the rate topic, retained, as 4 bytes that decode to ms; disconnected gives no publish; out of range gives the pack error |
| `RateControl.SendRateAsWritten` | M5TelemetryControl.py:104-109 | send_rate as written: publishes exactly when 0 <= ms < 2^32 (retained, on the rate topic, 4 bytes that decode to ms); otherwise the pack error, whatever the connection state |
| `RateControl.GuardIgnoresConnection` | M5TelemetryControl.py:104 | while disconnected, the as-written guard publishes 2500 ms and the intended guard does not; for -1 the as-written version raises the pack error |
| `RateControl.AsWrittenIgnoresConnection` | M5TelemetryControl.py:104 | as written, send_rate gives the same result connected or not, for every ms |
| `RateControl.GuardAgreesWhenConnected` | M5TelemetryControl.py:103-109 | while connected, the as-written and intended send_rate agree on every input |
| `RateControl.RateCommandExample` | M5TelemetryControl.py:106-109 | 2500 ms publishes C4 09 00 00 retained on the rate topic; -1 and 2^32 fail to pack |

## Findings

| source | as written | input that shows it | evidently intended | confidence | as-written member | corrected member |
|---|---|---|---|---|---|---|
| M5TelemetryControl.py:104 | `if self.client.is_connected:` tests the bound method object without calling it, and that object is always truthy | client disconnected, rate 2.5 s: the guard passes and `publish` is called | `if self.client.is_connected():`, so nothing is published while disconnected | high (paho-mqtt's `is_connected` is a method); not executed | `RateControl.SendRateAsWritten`, counterexample `RateControl.GuardIgnoresConnection` | `RateControl.SendRate` |

## Left out

- The tkinter GUI is not modelled. That covers the labels, the progress bar, the button, the entry widget, `mainloop` and the label updates inside `on_message` (lines 16-54, 83-84, 90-91, 95, 99, 121-123). It is presentation only. Line 100 is the exception: its refusal of a NaN value is modelled. The model assumes the other display updates never raise.
- The MQTT client is not modelled: credentials, `connect`, `loop_start`, `on_connect`'s subscriptions and `exit(-1)` (lines 56-59, 61-64, 71-79). This is network I/O on a background thread. The connection state is a `connected` parameter, and `publish` is the returned `Publication`.
- Clocks are not modelled: `time.time()`, `datetime.now()` and `strftime` (lines 82-86). Their values arrive as the integer parameters `now` and `stamp`.
- The console `print` calls (lines 62, 73, 78, 110, 112) are not modelled. They are output only.
- `Publication` has no QoS field. `publish` at line 109 passes none, so paho's default QoS 0 applies.
- The handling of the rate text is not modelled: `float(self.rate_input.get())`, the `* 1000` and the `int(...)` truncation (lines 106-107). These are floating-point operations. The millisecond count is the integer input `ms`, so a non-numeric text (the `ValueError` branch, line 111) is outside the model.
- Float32 words are kept as raw 32-bit patterns, not numbers. The model captures the byte layout and the column order, not the IEEE-754 values.
- What happens to a raised exception outside `on_message` and `send_rate` is not modelled beyond `Replay` stopping at it: paho's error log, the traceback of the ended network thread, and Tk's callback error report for `send_rate`. The model returns `Rejected` or `PackFailed` instead.
- `save_files` (lines 114-118) is not modelled. It is CSV file I/O through pandas.
- Concurrency is not modelled: the paho network thread and the Tk thread sharing the frames. Messages are handled one at a time.
- M5Telemetry/SimpleWifi.h is not part of this model. It holds hardware Wi-Fi association and has no data logic.
