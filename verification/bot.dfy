/** `Configuration` and `BotInstance` (grass.py:11-20): the relay settings and
    the object that owns the usage table and handles received frames. */
module Bot {
  import opened Wire
  import opened Usage
  import opened Handler

  /** The relay address and the wait in seconds before every reconnect,
      whatever ended the previous session (grass.py:13-14, 60-63). Plain
      named settings: the connection and the wait are not modelled. */
  datatype Configuration = Configuration(websocketHost: string, retryInterval: nat)

  const DEFAULT_CONFIGURATION := Configuration("wss://proxy.wynd.network:4444", 20)

  /** Seconds between heartbeats (grass.py:77). */
  const PING_INTERVAL := 26

  class BotInstance {
    const configuration: Configuration
    var totalDataUsage: Table

    constructor (configuration: Configuration)
      ensures this.configuration == configuration
      ensures totalDataUsage == map[]
    {
      this.configuration := configuration;
      totalDataUsage := map[];
    }

    /** One pass of the receive loop body for identity `user`: the frame's
        length is added to the table first, then the decoded frame is
        dispatched; `loads` stands for `json.loads`. */
    method Receive(user: string, arrival: Arrival, loads: Payload -> Parse) returns (step: Step)
      modifies this
      ensures totalDataUsage == Record(old(totalDataUsage), user, Length(arrival.frame))
      ensures step == Dispatch(user, loads(arrival.frame), UsageOf(totalDataUsage, user),
                               arrival.browserId, arrival.clock)
    {
      var dataUsage := Length(arrival.frame);
      totalDataUsage := Record(totalDataUsage, user, dataUsage);
      var parsed := loads(arrival.frame);
      step := Dispatch(user, parsed, totalDataUsage[user], arrival.browserId, arrival.clock);
    }

    /** The `while True` receive loop over the frames that arrive before the
        peer closes the connection; it stops early at a frame whose handling
        raises. */
    method ReceiveLoop(user: string, arrivals: seq<Arrival>, loads: Payload -> Parse) returns (steps: seq<Step>)
      modifies this
      ensures totalDataUsage == Replay(old(totalDataUsage), user, arrivals, loads).0
      ensures steps == Replay(old(totalDataUsage), user, arrivals, loads).1
    {
      steps := [];
      var i := 0;
      assert arrivals[0..] == arrivals;
      while i < |arrivals|
        invariant i <= |arrivals|
        invariant Replay(old(totalDataUsage), user, arrivals, loads).0 == Replay(totalDataUsage, user, arrivals[i..], loads).0
        invariant Replay(old(totalDataUsage), user, arrivals, loads).1 == steps + Replay(totalDataUsage, user, arrivals[i..], loads).1
      {
        ghost var before := totalDataUsage;
        var step := Receive(user, arrivals[i], loads);
        ReplayLoopStep(old(totalDataUsage), before, user, arrivals, loads, i, steps, totalDataUsage, step);
        steps := steps + [step];
        if step.SessionEnds? {
          return;
        }
        i := i + 1;
      }
    }
  }
}
