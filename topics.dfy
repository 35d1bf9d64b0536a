/** The four MQTT topics of the telemetry program and which of them carry a signal. */
module Topics {
  import opened Wrappers

  const MOVEMENT_TOPIC: string := "elee2045sp25/kjohnsen/movement"
  const BATTERY_TOPIC: string := "elee2045sp25/kjohnsen/battery"
  const SOUND_TOPIC: string := "elee2045sp25/kjohnsen/sound"
  const RATE_TOPIC: string := "elee2045sp25/kjohnsen/rate"

  /** A signal the message handler decodes and logs. */
  datatype Signal = Movement | Battery | Sound

  function TopicOf(s: Signal): string
  {
    match s
    case Movement => MOVEMENT_TOPIC
    case Battery => BATTERY_TOPIC
    case Sound => SOUND_TOPIC
  }

  /** The decode branch a topic selects, if any. The rate topic is outbound only and selects none. */
  function SignalOf(topic: string): (r: Option<Signal>)
    ensures r.Some? ==> TopicOf(r.value) == topic
    ensures r.None? <==> forall s: Signal :: TopicOf(s) != topic
  {
    if topic == MOVEMENT_TOPIC then Some(Movement)
    else if topic == BATTERY_TOPIC then Some(Battery)
    else if topic == SOUND_TOPIC then Some(Sound)
    else None
  }

  /** The topics are pairwise distinct, so a topic names at most one signal. */
  lemma TopicsDistinct(s: Signal, t: Signal)
    ensures TopicOf(s) == TopicOf(t) <==> s == t
    ensures TopicOf(s) != RATE_TOPIC
    ensures SignalOf(TopicOf(s)) == Some(s)
    ensures SignalOf(RATE_TOPIC) == None
  {
  }
}
