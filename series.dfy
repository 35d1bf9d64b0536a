/**
 * The three data frames the message handler appends to, and the handling of
 * one message as a function on their contents: which branch a topic selects,
 * which payloads decode, and the row each accepted payload becomes.
 */
module Series {
  import opened Wrappers
  import opened LittleEndian
  import opened StructFormat
  import opened Topics

  /** One cell of a data frame row: the arrival stamp, a raw float32 word, or an int16. */
  datatype Cell = Stamp(t: int) | Float32(bits: Word32) | Int16(v: int)

  type Row = seq<Cell>

  const MOVEMENT_COLUMNS: seq<string> := ["Timestamp", "ax", "ay", "az", "gx", "gy", "gz"]
  const BATTERY_COLUMNS: seq<string> := ["Timestamp", "Voltage (mV)"]
  const SOUND_COLUMNS: seq<string> := ["Timestamp", "Sound Level"]

  function Columns(s: Signal): seq<string>
  {
    match s
    case Movement => MOVEMENT_COLUMNS
    case Battery => BATTERY_COLUMNS
    case Sound => SOUND_COLUMNS
  }

  /** The payload size the signal's format string demands. */
  function PayloadSize(s: Signal): nat
  {
    match s
    case Movement => MOVEMENT_SIZE
    case Battery => BATTERY_SIZE
    case Sound => SOUND_SIZE
  }

  /** A data cell that has the type of the signal's value columns. */
  predicate FieldFits(s: Signal, c: Cell)
  {
    match s
    case Movement => c.Float32?
    case Battery => c.Int16? && -0x8000 <= c.v < 0x8000
    case Sound => c.Float32?
  }

  /** A row that matches the frame's columns: one stamp, then one value per field column. */
  predicate Fits(s: Signal, row: Row)
  {
    |row| == |Columns(s)| && row[0].Stamp? &&
    forall i :: 1 <= i < |row| ==> FieldFits(s, row[i])
  }

  lemma ColumnLayout()
    ensures |Columns(Movement)| == 7 && |Columns(Battery)| == 2 && |Columns(Sound)| == 2
    ensures forall s: Signal :: Columns(s)[0] == "Timestamp"
  {
  }

  datatype Reading = MovementReading(words: seq<Word32>) | BatteryReading(mv: int) | SoundReading(level: Word32)

  /** The unpack call of the signal's branch. */
  function Decode(s: Signal, payload: seq<byte>): (r: Result<Reading, StructError>)
    ensures r.Success? <==> |payload| == PayloadSize(s)
    ensures r.Failure? ==> r.error == BufferSize(PayloadSize(s), |payload|)
  {
    match s
    case Movement =>
      (match UnpackSixFloats(payload)
       case Success(ws) => Success(MovementReading(ws))
       case Failure(e) => Failure(e))
    case Battery =>
      (match UnpackInt16(payload)
       case Success(v) => Success(BatteryReading(v))
       case Failure(e) => Failure(e))
    case Sound =>
      (match UnpackFloat(payload)
       case Success(w) => Success(SoundReading(w))
       case Failure(e) => Failure(e))
  }

  /** `[timestamp, ax, ay, az, gx, gy, gz]`. */
  function MovementRow(stamp: int, ws: seq<Word32>): (row: Row)
    requires |ws| == 6
    ensures Fits(Movement, row)
  {
    [Stamp(stamp), Float32(ws[0]), Float32(ws[1]), Float32(ws[2]), Float32(ws[3]), Float32(ws[4]), Float32(ws[5])]
  }

  /** `[timestamp, battery_voltage_mv]`. */
  function BatteryRow(stamp: int, mv: int): (row: Row)
    requires -0x8000 <= mv < 0x8000
    ensures Fits(Battery, row)
  {
    [Stamp(stamp), Int16(mv)]
  }

  /** `[timestamp, sound_level]`. */
  function SoundRow(stamp: int, level: Word32): (row: Row)
    ensures Fits(Sound, row)
  {
    [Stamp(stamp), Float32(level)]
  }

  /** Why a message was dropped after its branch was chosen. */
  datatype Fault =
    | UnpackFailed(error: StructError)   // struct.error at line 89, 94 or 98
    | ProgressValueNaN(bits: Word32)     // TclError: the progress bar refuses a NaN value (line 100)

  /** What one message does: no branch, an exception before the append, or one row for one signal. */
  datatype Outcome = Ignored | Rejected(signal: Signal, fault: Fault) | Accepted(signal: Signal, row: Row)

  /**
   * A payload that reaches the append of its branch: the format's size and,
   * for sound, a level the progress bar accepts as its value.
   */
  predicate Appendable(s: Signal, payload: seq<byte>)
  {
    |payload| == PayloadSize(s) && (s == Sound ==> !IsNaN32(Word32FromLE(payload)))
  }

  function Route(topic: string, payload: seq<byte>, stamp: int): (o: Outcome)
    ensures o.Ignored? <==> SignalOf(topic).None?
    ensures o.Accepted? <==> SignalOf(topic).Some? && Appendable(SignalOf(topic).value, payload)
    ensures !o.Ignored? ==> o.signal == SignalOf(topic).value
    ensures o.Rejected? && |payload| != PayloadSize(o.signal) ==>
      o.fault == UnpackFailed(BufferSize(PayloadSize(o.signal), |payload|))
    ensures o.Rejected? && |payload| == PayloadSize(o.signal) ==>
      o.signal == Sound && o.fault == ProgressValueNaN(Word32FromLE(payload))
    ensures o.Accepted? ==> Fits(o.signal, o.row) && o.row[0] == Stamp(stamp)
  {
    match SignalOf(topic)
    case None => Ignored
    case Some(s) =>
      match Decode(s, payload)
      case Failure(e) => Rejected(s, UnpackFailed(e))
      case Success(MovementReading(ws)) => Accepted(s, MovementRow(stamp, ws))
      case Success(BatteryReading(mv)) => Accepted(s, BatteryRow(stamp, mv))
      case Success(SoundReading(w)) =>
        if IsNaN32(w) then Rejected(s, ProgressValueNaN(w)) else Accepted(s, SoundRow(stamp, w))
  }

  /** The fields of an accepted movement row are the payload's six words, in payload order. */
  lemma MovementRowFields(payload: seq<byte>, stamp: int)
    requires |payload| == MOVEMENT_SIZE
    ensures var o := Route(MOVEMENT_TOPIC, payload, stamp);
      o == Accepted(Movement, o.row) &&
      forall i :: 0 <= i < 6 ==> o.row[i + 1] == Float32(Word32FromLE(payload[4 * i .. 4 * i + 4]))
  {
  }

  /** An accepted battery row holds the payload's int16, which re-encodes to the payload. */
  lemma BatteryRowField(payload: seq<byte>, stamp: int)
    requires |payload| == BATTERY_SIZE
    ensures var o := Route(BATTERY_TOPIC, payload, stamp);
      o == Accepted(Battery, [Stamp(stamp), Int16(Int16FromLE(payload))]) &&
      Int16ToLE(Int16FromLE(payload)) == payload
  {
  }

  /** An accepted sound row holds the payload's word, which re-encodes to the payload. */
  lemma SoundRowField(payload: seq<byte>, stamp: int)
    requires Appendable(Sound, payload)
    ensures var o := Route(SOUND_TOPIC, payload, stamp);
      o == Accepted(Sound, [Stamp(stamp), Float32(Word32FromLE(payload))]) &&
      Word32ToLE(Word32FromLE(payload)) == payload
  {
  }

  /** The handler's state: `last_received` and the rows of the three frames. */
  datatype Log = Log(lastReceived: int, movement: seq<Row>, battery: seq<Row>, sound: seq<Row>)

  /** `last_received = 0` and three frames with columns but no rows. */
  const INITIAL_LOG: Log := Log(0, [], [], [])

  function SeriesOf(log: Log, s: Signal): seq<Row>
  {
    match s
    case Movement => log.movement
    case Battery => log.battery
    case Sound => log.sound
  }

  /** Every row of every frame fits that frame's columns. */
  ghost predicate WellFormed(log: Log)
  {
    forall s: Signal, i :: 0 <= i < |SeriesOf(log, s)| ==> Fits(s, SeriesOf(log, s)[i])
  }

  /** The rows an outcome adds to the frame of `s`. */
  function Added(o: Outcome, s: Signal): seq<Row>
  {
    if o.Accepted? && o.signal == s then [o.row] else []
  }

  /** One delivery: `now` is the `time.time()` of the liveness mark, `stamp` the row timestamp. */
  datatype Message = Message(topic: string, payload: seq<byte>, now: int, stamp: int)

  /** The log after one message (the class method's specification). */
  function Deliver(log: Log, m: Message): Log
  {
    var o := Route(m.topic, m.payload, m.stamp);
    Log(m.now, log.movement + Added(o, Movement), log.battery + Added(o, Battery), log.sound + Added(o, Sound))
  }

  /** Every message moves the liveness mark, including an ignored or a rejected one. */
  lemma DeliverMarksLiveness(log: Log, m: Message)
    ensures Deliver(log, m).lastReceived == m.now
  {
  }

  /** A message on a topic with no branch changes nothing but the liveness mark. */
  lemma DeliverUnknownTopic(log: Log, m: Message)
    requires SignalOf(m.topic).None?
    ensures Deliver(log, m) == log.(lastReceived := m.now)
  {
  }

  /** A payload of the wrong size for its topic changes nothing but the liveness mark. */
  lemma DeliverMalformed(log: Log, m: Message, s: Signal)
    requires m.topic == TopicOf(s) && |m.payload| != PayloadSize(s)
    ensures Deliver(log, m) == log.(lastReceived := m.now)
  {
  }

  /** A NaN sound level is refused by the progress bar before the append: only the liveness mark moves. */
  lemma DeliverNaNSound(log: Log, m: Message)
    requires m.topic == SOUND_TOPIC && |m.payload| == SOUND_SIZE && IsNaN32(Word32FromLE(m.payload))
    ensures Route(m.topic, m.payload, m.stamp) == Rejected(Sound, ProgressValueNaN(Word32FromLE(m.payload)))
    ensures Deliver(log, m) == log.(lastReceived := m.now)
  {
  }

  /**
   * A well-formed payload appends one row at index `len(df)` of its own frame,
   * keeps the earlier rows, and leaves the other two frames alone.
   */
  lemma DeliverAccepted(log: Log, m: Message, s: Signal)
    requires m.topic == TopicOf(s) && Appendable(s, m.payload)
    ensures var r := Deliver(log, m); var n := |SeriesOf(log, s)|;
      |SeriesOf(r, s)| == n + 1 &&
      SeriesOf(r, s)[..n] == SeriesOf(log, s) &&
      Fits(s, SeriesOf(r, s)[n]) && SeriesOf(r, s)[n][0] == Stamp(m.stamp) &&
      forall t: Signal :: t != s ==> SeriesOf(r, t) == SeriesOf(log, t)
  {
  }

  lemma DeliverWellFormed(log: Log, m: Message)
    requires WellFormed(log)
    ensures WellFormed(Deliver(log, m))
  {
    var r := Deliver(log, m);
    var o := Route(m.topic, m.payload, m.stamp);
    forall s: Signal, i | 0 <= i < |SeriesOf(r, s)|
      ensures Fits(s, SeriesOf(r, s)[i])
    {
      assert SeriesOf(r, s) == SeriesOf(log, s) + Added(o, s) by {
        match s
        case Movement =>
        case Battery =>
        case Sound =>
      }
      if i >= |SeriesOf(log, s)| {
        assert SeriesOf(r, s)[i] == o.row;
      }
    }
  }

  /** A 3-byte battery payload is rejected and leaves the battery frame empty. */
  lemma ShortBatteryExample(now: int, stamp: int)
    ensures Route(BATTERY_TOPIC, [1, 2, 3], stamp) == Rejected(Battery, UnpackFailed(BufferSize(2, 3)))
    ensures Deliver(INITIAL_LOG, Message(BATTERY_TOPIC, [1, 2, 3], now, stamp)) == Log(now, [], [], [])
  {
  }

  /** The quiet-NaN sound payload 00 00 C0 7F is refused and leaves the sound frame empty. */
  lemma NaNSoundExample(now: int, stamp: int)
    ensures Route(SOUND_TOPIC, [0x00, 0x00, 0xC0, 0x7F], stamp) == Rejected(Sound, ProgressValueNaN(0x7FC0_0000))
    ensures Deliver(INITIAL_LOG, Message(SOUND_TOPIC, [0x00, 0x00, 0xC0, 0x7F], now, stamp)) == Log(now, [], [], [])
  {
  }

  /** A message whose callback raises: paho re-raises it and its network loop thread ends. */
  predicate Stops(m: Message)
  {
    Route(m.topic, m.payload, m.stamp).Rejected?
  }

  /**
   * The log after the network loop is offered `msgs` in arrival order. The
   * loop runs the callback for each message up to and including the first
   * one that raises; later messages are never handled.
   */
  function Replay(log: Log, msgs: seq<Message>): Log
    decreases |msgs|
  {
    if |msgs| == 0 then log
    else if Stops(msgs[0]) then Deliver(log, msgs[0])
    else Replay(Deliver(log, msgs[0]), msgs[1..])
  }

  /** The messages whose callback runs: the prefix up to and including the first that raises. */
  function Handled(msgs: seq<Message>): (h: seq<Message>)
    ensures |h| <= |msgs| && h == msgs[..|h|]
    ensures |msgs| > 0 ==> |h| > 0
  {
    if |msgs| == 0 then []
    else if Stops(msgs[0]) then [msgs[0]]
    else [msgs[0]] + Handled(msgs[1..])
  }

  /** Only the last handled message may raise, and it does when some message goes unhandled. */
  lemma {:induction false} HandledEndsAtRaise(msgs: seq<Message>)
    ensures forall i :: 0 <= i < |Handled(msgs)| - 1 ==> !Stops(Handled(msgs)[i])
    ensures |Handled(msgs)| < |msgs| ==> Stops(Handled(msgs)[|Handled(msgs)| - 1])
  {
    if |msgs| > 0 && !Stops(msgs[0]) {
      var m, rest := msgs[0], Handled(msgs[1..]);
      HandledEndsAtRaise(msgs[1..]);
      var h := Handled(msgs);
      assert h == [m] + rest;
      forall i | 0 <= i < |h| - 1 ensures !Stops(h[i]) {
        if i > 0 {
          assert h[i] == rest[i - 1];
        }
      }
    }
  }

  /** When no message raises, every message is handled. */
  lemma {:induction false} HandledAll(msgs: seq<Message>)
    requires forall m :: m in msgs ==> !Stops(m)
    ensures Handled(msgs) == msgs
  {
    if |msgs| > 0 {
      HandledAll(msgs[1..]);
    }
  }

  /** The rows the messages add to the frame of `s`, in arrival order. */
  function AcceptedRows(msgs: seq<Message>, s: Signal): seq<Row>
  {
    if |msgs| == 0 then []
    else Added(Route(msgs[0].topic, msgs[0].payload, msgs[0].stamp), s) + AcceptedRows(msgs[1..], s)
  }

  /** Each frame is its old rows followed by the accepted rows of the handled messages, in arrival order. */
  lemma {:induction false} ReplaySeries(log: Log, msgs: seq<Message>, s: Signal)
    ensures SeriesOf(Replay(log, msgs), s) == SeriesOf(log, s) + AcceptedRows(Handled(msgs), s)
    decreases |msgs|
  {
    if |msgs| > 0 {
      var m, rest := msgs[0], msgs[1..];
      var added := Added(Route(m.topic, m.payload, m.stamp), s);
      SeriesOfDeliver(log, m, s);
      ReplayStep(log, msgs, s);
      if !Stops(m) {
        ReplaySeries(Deliver(log, m), rest, s);
        assert SeriesOf(Replay(log, msgs), s)
            == (SeriesOf(log, s) + added) + AcceptedRows(Handled(rest), s);
      }
    }
  }

  /** How Replay, Handled and AcceptedRows take the first message. */
  lemma ReplayStep(log: Log, msgs: seq<Message>, s: Signal)
    requires |msgs| > 0
    ensures var m := msgs[0]; var added := Added(Route(m.topic, m.payload, m.stamp), s);
      if Stops(m) then
        Replay(log, msgs) == Deliver(log, m) && AcceptedRows(Handled(msgs), s) == []
      else
        Replay(log, msgs) == Replay(Deliver(log, m), msgs[1..]) &&
        AcceptedRows(Handled(msgs), s) == added + AcceptedRows(Handled(msgs[1..]), s)
  {
    var m := msgs[0];
    if Stops(m) {
      assert Handled(msgs) == [m];
      assert AcceptedRows([m], s) == Added(Route(m.topic, m.payload, m.stamp), s) + AcceptedRows([], s);
    } else {
      var h := Handled(msgs[1..]);
      assert Handled(msgs) == [m] + h;
      assert ([m] + h)[1..] == h;
    }
  }

  /** One delivery adds `Added` to the frame of `s` and nothing else. */
  lemma SeriesOfDeliver(log: Log, m: Message, s: Signal)
    ensures SeriesOf(Deliver(log, m), s) == SeriesOf(log, s) + Added(Route(m.topic, m.payload, m.stamp), s)
  {
    match s
    case Movement =>
    case Battery =>
    case Sound =>
  }

  /** Once a message raises, nothing offered after it changes the log. */
  lemma {:induction false} ReplayStopsAtRaise(log: Log, msgs: seq<Message>, i: nat)
    requires i < |msgs| && Stops(msgs[i])
    ensures Replay(log, msgs) == Replay(log, msgs[..i + 1])
    decreases |msgs|
  {
    if !Stops(msgs[0]) {
      assert msgs[1..][..i] == msgs[..i + 1][1..];
      ReplayStopsAtRaise(Deliver(log, msgs[0]), msgs[1..], i - 1);
    }
  }

  /** The liveness mark is the last handled message's, whatever its topic or payload. */
  lemma {:induction false} ReplayLiveness(log: Log, msgs: seq<Message>)
    requires |msgs| > 0
    ensures Replay(log, msgs).lastReceived == Handled(msgs)[|Handled(msgs)| - 1].now
    decreases |msgs|
  {
    if !Stops(msgs[0]) && |msgs| > 1 {
      ReplayLiveness(Deliver(log, msgs[0]), msgs[1..]);
      var h := Handled(msgs);
      assert h[1..] == Handled(msgs[1..]);
    }
  }

  /** N payloads that all reach the append on one signal's topic add N rows to it and none to the others. */
  lemma {:induction false} ReplayCount(log: Log, msgs: seq<Message>, s: Signal)
    requires forall i :: 0 <= i < |msgs| ==> msgs[i].topic == TopicOf(s) && Appendable(s, msgs[i].payload)
    ensures |SeriesOf(Replay(log, msgs), s)| == |SeriesOf(log, s)| + |msgs|
    ensures forall t: Signal :: t != s ==> SeriesOf(Replay(log, msgs), t) == SeriesOf(log, t)
    decreases |msgs|
  {
    if |msgs| > 0 {
      DeliverAccepted(log, msgs[0], s);
      ReplayCount(Deliver(log, msgs[0]), msgs[1..], s);
    }
  }

  lemma {:induction false} ReplayWellFormed(log: Log, msgs: seq<Message>)
    requires WellFormed(log)
    ensures WellFormed(Replay(log, msgs))
    decreases |msgs|
  {
    if |msgs| > 0 {
      DeliverWellFormed(log, msgs[0]);
      ReplayWellFormed(Deliver(log, msgs[0]), msgs[1..]);
    }
  }

  /** The messages on the topic of `s`, in arrival order. */
  function OnTopic(msgs: seq<Message>, s: Signal): seq<Message>
  {
    if |msgs| == 0 then []
    else (if msgs[0].topic == TopicOf(s) then [msgs[0]] else []) + OnTopic(msgs[1..], s)
  }

  /** With no message raising, row k of the added rows is the row of the k-th message on the topic. */
  /** Messages on other topics add no rows to the frame of `s`. */
  lemma {:induction false} AcceptedRowsOnTopic(msgs: seq<Message>, s: Signal)
    ensures AcceptedRows(msgs, s) == AcceptedRows(OnTopic(msgs, s), s)
    ensures forall m :: m in OnTopic(msgs, s) ==> m in msgs && m.topic == TopicOf(s)
  {
    if |msgs| > 0 {
      var m, rest := msgs[0], msgs[1..];
      var added := Added(Route(m.topic, m.payload, m.stamp), s);
      var ms := OnTopic(rest, s);
      AcceptedRowsOnTopic(rest, s);
      if m.topic == TopicOf(s) {
        assert OnTopic(msgs, s) == [m] + ms;
        assert ([m] + ms)[1..] == ms;
        assert AcceptedRows([m] + ms, s) == added + AcceptedRows(ms, s);
      } else {
        HeadOffTopic(m, s);
        assert OnTopic(msgs, s) == ms;
      }
    }
  }

  lemma HeadOffTopic(m: Message, s: Signal)
    requires m.topic != TopicOf(s)
    ensures Added(Route(m.topic, m.payload, m.stamp), s) == []
  {
  }

  /**
   * When nothing raises, the frame of `s` is what replaying only the messages
   * on its topic would give: messages on other topics play no part, and the
   * rows keep the order of their own messages.
   */
  lemma ReplayTopicRows(log: Log, msgs: seq<Message>, s: Signal)
    requires forall m :: m in msgs ==> !Stops(m)
    ensures SeriesOf(Replay(log, msgs), s) == SeriesOf(Replay(log, OnTopic(msgs, s)), s)
  {
    var ms := OnTopic(msgs, s);
    AcceptedRowsOnTopic(msgs, s);
    HandledAll(msgs);
    HandledAll(ms);
    ReplaySeries(log, msgs, s);
    ReplaySeries(log, ms, s);
  }

  function StampOf(row: Row): int
  {
    if |row| > 0 && row[0].Stamp? then row[0].t else 0
  }

  /** Rows in non-decreasing timestamp order. */
  predicate Ordered(rows: seq<Row>)
  {
    forall i, j :: 0 <= i < j < |rows| ==> StampOf(rows[i]) <= StampOf(rows[j])
  }

  predicate StampsAtMost(rows: seq<Row>, bound: int)
  {
    forall i :: 0 <= i < |rows| ==> StampOf(rows[i]) <= bound
  }

  /** Appending at `m.stamp` to rows stamped no later keeps them ordered. */
  lemma DeliverOrdered(log: Log, m: Message, s: Signal)
    requires Ordered(SeriesOf(log, s)) && StampsAtMost(SeriesOf(log, s), m.stamp)
    ensures Ordered(SeriesOf(Deliver(log, m), s)) && StampsAtMost(SeriesOf(Deliver(log, m), s), m.stamp)
  {
    SeriesOfDeliver(log, m, s);
    AddedStamped(m, s);
    AppendStamped(SeriesOf(log, s), Added(Route(m.topic, m.payload, m.stamp), s), m.stamp);
  }

  /** A message adds at most one row, stamped with its own stamp. */
  lemma AddedStamped(m: Message, s: Signal)
    ensures var added := Added(Route(m.topic, m.payload, m.stamp), s);
      |added| <= 1 && forall i :: 0 <= i < |added| ==> StampOf(added[i]) == m.stamp
  {
  }

  lemma AppendStamped(rows: seq<Row>, extra: seq<Row>, t: int)
    requires Ordered(rows) && StampsAtMost(rows, t)
    requires forall i :: 0 <= i < |extra| ==> StampOf(extra[i]) == t
    ensures Ordered(rows + extra) && StampsAtMost(rows + extra, t)
  {
    var all := rows + extra;
    assert forall i :: 0 <= i < |all| ==> all[i] == if i < |rows| then rows[i] else extra[i - |rows|];
  }

  /**
   * Rows carry the message's stamp, not a payload time, so a clock that never
   * goes back (stamps non-decreasing, none below the existing rows) keeps every
   * frame in timestamp order.
   */
  lemma {:induction false} ReplayOrdered(log: Log, msgs: seq<Message>, s: Signal, lo: int)
    requires Ordered(SeriesOf(log, s)) && StampsAtMost(SeriesOf(log, s), lo)
    requires forall i :: 0 <= i < |msgs| ==> lo <= msgs[i].stamp
    requires forall i, j :: 0 <= i < j < |msgs| ==> msgs[i].stamp <= msgs[j].stamp
    ensures Ordered(SeriesOf(Replay(log, msgs), s))
    ensures StampsAtMost(SeriesOf(Replay(log, msgs), s), if |msgs| == 0 then lo else msgs[|msgs| - 1].stamp)
    decreases |msgs|
  {
    if |msgs| > 0 {
      var m := msgs[0];
      var last := msgs[|msgs| - 1].stamp;
      StampsAtMostWeaken(SeriesOf(log, s), lo, m.stamp);
      DeliverOrdered(log, m, s);
      if Stops(m) {
        StampsAtMostWeaken(SeriesOf(Deliver(log, m), s), m.stamp, last);
      } else {
        var rest := msgs[1..];
        assert forall i :: 0 <= i < |rest| ==> rest[i] == msgs[i + 1];
        ReplayOrdered(Deliver(log, m), rest, s, m.stamp);
      }
    }
  }

  lemma StampsAtMostWeaken(rows: seq<Row>, b: int, c: int)
    requires StampsAtMost(rows, b) && b <= c
    ensures StampsAtMost(rows, c)
  {
  }
}
