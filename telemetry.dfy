/**
 * The message handler as the object it is: `last_received` and three data
 * frames as fields, updated in place by each delivered message.
 */
module Telemetry {
  import opened Wrappers
  import opened LittleEndian
  import opened StructFormat
  import opened Topics
  import opened Series

  class TelemetryApp {
    var lastReceived: int
    var movement: seq<Row>
    var battery: seq<Row>
    var sound: seq<Row>

    function State(): Log
      reads this
    {
      Log(lastReceived, movement, battery, sound)
    }

    ghost predicate Valid()
      reads this
    {
      WellFormed(State())
    }

    /** `last_received = 0` and three frames with their columns and no rows. */
    constructor ()
      ensures Valid()
      ensures State() == INITIAL_LOG
    {
      lastReceived := 0;
      movement := [];
      battery := [];
      sound := [];
    }

    /**
     * on_message: stamp liveness first, then try each topic in turn; an unpack
     * error, or the progress bar refusing a NaN sound level, leaves the
     * handler before the append (the outcome `Rejected`).
     */
    method OnMessage(topic: string, payload: seq<byte>, now: int, stamp: int) returns (outcome: Outcome)
      requires Valid()
      modifies this
      ensures outcome == Route(topic, payload, stamp)
      ensures State() == Deliver(old(State()), Message(topic, payload, now, stamp))
      ensures lastReceived == now
      ensures Valid()
    {
      DeliverWellFormed(State(), Message(topic, payload, now, stamp));
      lastReceived := now;
      outcome := Ignored;
      if topic == MOVEMENT_TOPIC {
        var r := UnpackSixFloats(payload);
        if r.Failure? {
          outcome := Rejected(Movement, UnpackFailed(r.error));
          return;
        }
        var row := MovementRow(stamp, r.value);
        movement := movement + [row];
        outcome := Accepted(Movement, row);
      }
      if topic == BATTERY_TOPIC {
        var r := UnpackInt16(payload);
        if r.Failure? {
          outcome := Rejected(Battery, UnpackFailed(r.error));
          return;
        }
        var row := BatteryRow(stamp, r.value);
        battery := battery + [row];
        outcome := Accepted(Battery, row);
      }
      if topic == SOUND_TOPIC {
        var r := UnpackFloat(payload);
        if r.Failure? {
          outcome := Rejected(Sound, UnpackFailed(r.error));
          return;
        }
        // self.sound_bar["value"] = sound_level: Tk refuses a NaN value
        if IsNaN32(r.value) {
          outcome := Rejected(Sound, ProgressValueNaN(r.value));
          return;
        }
        var row := SoundRow(stamp, r.value);
        sound := sound + [row];
        outcome := Accepted(Sound, row);
      }
    }
  }
}
