/** What the receive loop of `BotInstance.direct_connect` does with one
    inbound frame (grass.py:30-54), and with a run of frames (grass.py:28). */
module Handler {
  import opened Wire
  import opened Messages
  import opened Usage

  /** The effect of one frame besides the usage update: a message sent back,
      a usage report logged (the count in bytes, before the KB conversion),
      nothing, or an exception that leaves the receive loop and ends the
      session. */
  datatype Step = Send(message: Json) | LogUsage(bytes: nat) | Ignore | SessionEnds

  /** One received frame together with what the client would draw while
      handling it: the `uuid4` for a `browser_id` and the `time.time()`
      reading for a `timestamp`. */
  datatype Arrival = Arrival(frame: Payload, browserId: string, clock: real)

  /** The decoded frame is a dict whose `action` is the string `action`. */
  predicate ActionIs(parsed: Parse, action: string)
  {
    parsed.Parsed? && parsed.value.Obj? && Get(parsed.value.fields, "action") == Some(Str(action))
  }

  /** The dispatch on a decoded frame, after its length is already counted and
      `usage` is the identity's count including it. A frame that did not
      decode, or decoded to something other than a dict (whose `.get` then
      raises), ends the session; otherwise AUTH is answered, PONG reports the
      usage and every other or missing action is ignored. */
  function Dispatch(user: string, parsed: Parse, usage: nat, browserId: string, clock: real): (r: Step)
    ensures r.SessionEnds? <==> !(parsed.Parsed? && parsed.value.Obj?)
    ensures r.Send? <==> ActionIs(parsed, AUTH_ACTION)
    ensures r.LogUsage? <==> ActionIs(parsed, "PONG")
    ensures r.LogUsage? ==> r.bytes == usage
  {
    match parsed
    case Malformed => SessionEnds
    case Parsed(v) =>
      match v
      case Obj(fields) =>
        var action := Get(fields, "action");
        if action == Some(Str(AUTH_ACTION)) then Send(AuthReply(Get(fields, "id"), user, browserId, clock))
        else if action == Some(Str("PONG")) then LogUsage(usage)
        else Ignore
      case _ => SessionEnds
  }

  /** The message sent for an AUTH frame echoes the frame's `id` (null when
      absent), names the identity and carries the drawn browser id and the
      truncated clock, with the fixed agent, device type and version. */
  lemma AuthAnswered(user: string, parsed: Parse, usage: nat, browserId: string, clock: real)
    requires ActionIs(parsed, AUTH_ACTION)
    ensures Dispatch(user, parsed, usage, browserId, clock).Send?
    ensures ReadAuthReply(Dispatch(user, parsed, usage, browserId, clock).message)
         == Some(AuthFields(OrNull(Get(parsed.value.fields, "id")), browserId, user, TruncateToInt(clock)))
  {
  }

  /** Sum of the lengths of the frames in `arrivals`. */
  function TotalLength(arrivals: seq<Arrival>): nat
  {
    if arrivals == [] then 0 else Length(arrivals[0].frame) + TotalLength(arrivals[1..])
  }

  /** The receive loop over `arrivals` for identity `user`, starting from table
      `t`, with `loads` standing for `json.loads`: each frame is counted, then
      dispatched; the loop stops after the first frame that ends the session.
      Gives the final table and the steps of the frames handled. */
  function Replay(t: Table, user: string, arrivals: seq<Arrival>, loads: Payload -> Parse): (r: (Table, seq<Step>))
    ensures |r.1| <= |arrivals|
    ensures arrivals != [] ==> |r.1| > 0
    decreases |arrivals|
  {
    if arrivals == [] then (t, [])
    else
      var a := arrivals[0];
      var t1 := Record(t, user, Length(a.frame));
      var s := Dispatch(user, loads(a.frame), t1[user], a.browserId, a.clock);
      if s.SessionEnds? then (t1, [s])
      else
        var rest := Replay(t1, user, arrivals[1..], loads);
        (rest.0, [s] + rest.1)
  }

  /** One unfolding of the loop: the first frame is counted and dispatched,
      and the rest of the run follows unless that frame ended the session. */
  lemma ReplayFirst(t: Table, user: string, arrivals: seq<Arrival>, loads: Payload -> Parse)
    requires arrivals != []
    ensures var t1 := Record(t, user, Length(arrivals[0].frame));
      var s := Dispatch(user, loads(arrivals[0].frame), t1[user], arrivals[0].browserId, arrivals[0].clock);
      var rest := Replay(t1, user, arrivals[1..], loads);
      Replay(t, user, arrivals, loads) == if s.SessionEnds? then (t1, [s]) else (rest.0, [s] + rest.1)
  {
  }

  /** The loop from frame `i` on: frame `i` is counted into `t'` and gives
      `step`; the run then ends there or goes on from frame `i + 1`. */
  lemma ReplayAdvance(t: Table, user: string, arrivals: seq<Arrival>, loads: Payload -> Parse, i: nat, t': Table, step: Step)
    requires i < |arrivals|
    requires t' == Record(t, user, Length(arrivals[i].frame))
    requires step == Dispatch(user, loads(arrivals[i].frame), UsageOf(t', user), arrivals[i].browserId, arrivals[i].clock)
    ensures step.SessionEnds? ==> Replay(t, user, arrivals[i..], loads) == (t', [step])
    ensures !step.SessionEnds? ==>
      && Replay(t, user, arrivals[i..], loads).0 == Replay(t', user, arrivals[i + 1..], loads).0
      && Replay(t, user, arrivals[i..], loads).1 == [step] + Replay(t', user, arrivals[i + 1..], loads).1
  {
    assert arrivals[i..][0] == arrivals[i];
    assert arrivals[i..][1..] == arrivals[i + 1..];
    ReplayFirst(t, user, arrivals[i..], loads);
  }

  /** The receive loop's invariant carried over one frame: if the run from
      `t0` is the steps so far followed by the run of frames `i..` from `t`,
      then after frame `i` is counted into `t'` and gives `step`, the run from
      `t0` either ends with `step` or is the longer prefix followed by the run
      of frames `i + 1..` from `t'`. */
  lemma ReplayLoopStep(t0: Table, t: Table, user: string, arrivals: seq<Arrival>, loads: Payload -> Parse,
                       i: nat, steps: seq<Step>, t': Table, step: Step)
    requires i < |arrivals|
    requires Replay(t0, user, arrivals, loads).0 == Replay(t, user, arrivals[i..], loads).0
    requires Replay(t0, user, arrivals, loads).1 == steps + Replay(t, user, arrivals[i..], loads).1
    requires t' == Record(t, user, Length(arrivals[i].frame))
    requires step == Dispatch(user, loads(arrivals[i].frame), UsageOf(t', user), arrivals[i].browserId, arrivals[i].clock)
    ensures step.SessionEnds? ==>
      Replay(t0, user, arrivals, loads).0 == t' && Replay(t0, user, arrivals, loads).1 == steps + [step]
    ensures !step.SessionEnds? ==>
      && Replay(t0, user, arrivals, loads).0 == Replay(t', user, arrivals[i + 1..], loads).0
      && Replay(t0, user, arrivals, loads).1 == (steps + [step]) + Replay(t', user, arrivals[i + 1..], loads).1
  {
    ReplayAdvance(t, user, arrivals, loads, i, t', step);
    if !step.SessionEnds? {
      var rest := Replay(t', user, arrivals[i + 1..], loads).1;
      assert steps + ([step] + rest) == (steps + [step]) + rest;
    }
  }

  /** After the loop, the identity's count has grown by exactly the lengths of
      the frames it handled, including a frame that ended the session; no
      other identity's entry has changed. */
  lemma {:induction false} ReplayUsage(t: Table, user: string, arrivals: seq<Arrival>, loads: Payload -> Parse)
    ensures var r := Replay(t, user, arrivals, loads);
      && UsageOf(r.0, user) == UsageOf(t, user) + TotalLength(arrivals[..|r.1|])
      && (arrivals == [] ==> r.0 == t)
      && (arrivals != [] ==> user in r.0)
      && (forall u :: u != user ==> (u in r.0 <==> u in t))
      && (forall u :: u != user && u in t ==> r.0[u] == t[u])
    decreases |arrivals|
  {
    if arrivals != [] {
      var a := arrivals[0];
      var t1 := Record(t, user, Length(a.frame));
      var s := Dispatch(user, loads(a.frame), t1[user], a.browserId, a.clock);
      if s.SessionEnds? {
        assert arrivals[..1] == [a];
        assert TotalLength(arrivals[..1]) == Length(a.frame) + TotalLength([]);
      } else {
        var rest := Replay(t1, user, arrivals[1..], loads);
        ReplayUsage(t1, user, arrivals[1..], loads);
        var n := |rest.1|;
        assert arrivals[..n + 1][1..] == arrivals[1..][..n];
      }
    }
  }

  /** The first `i + 1` frames are the first frame and then the next `i`. */
  lemma TotalLengthFirst(arrivals: seq<Arrival>, i: nat)
    requires i < |arrivals|
    ensures TotalLength(arrivals[..i + 1]) == Length(arrivals[0].frame) + TotalLength(arrivals[1..][..i])
  {
    assert arrivals[..i + 1][1..] == arrivals[1..][..i];
  }

  /** Step `i` of the loop is the dispatch of frame `i` with the identity's
      count taken after frames `0..i` were added. */
  lemma {:induction false} ReplayStepAt(t: Table, user: string, arrivals: seq<Arrival>, loads: Payload -> Parse, i: nat)
    requires i < |Replay(t, user, arrivals, loads).1|
    ensures Replay(t, user, arrivals, loads).1[i]
         == Dispatch(user, loads(arrivals[i].frame), UsageOf(t, user) + TotalLength(arrivals[..i + 1]),
                     arrivals[i].browserId, arrivals[i].clock)
    decreases |arrivals|
  {
    var t1 := Record(t, user, Length(arrivals[0].frame));
    TotalLengthFirst(arrivals, i);
    if i > 0 {
      ReplayStepAt(t1, user, arrivals[1..], loads, i - 1);
    }
  }

  /** Only the last step may end the session, and the loop handles every
      frame unless one of them ends it. */
  lemma {:induction false} ReplayStopsOnlyAtEnd(t: Table, user: string, arrivals: seq<Arrival>, loads: Payload -> Parse)
    ensures var steps := Replay(t, user, arrivals, loads).1;
      && (forall i :: 0 <= i < |steps| - 1 ==> !steps[i].SessionEnds?)
      && (|steps| < |arrivals| ==> steps[|steps| - 1].SessionEnds?)
    decreases |arrivals|
  {
    if arrivals != [] {
      var a := arrivals[0];
      var t1 := Record(t, user, Length(a.frame));
      var s := Dispatch(user, loads(a.frame), t1[user], a.browserId, a.clock);
      if !s.SessionEnds? {
        ReplayStopsOnlyAtEnd(t1, user, arrivals[1..], loads);
      }
    }
  }

  /** Counts only grow along a prefix order of the frames. */
  lemma {:induction false} TotalLengthPrefix(arrivals: seq<Arrival>, i: nat, j: nat)
    requires i <= j <= |arrivals|
    ensures TotalLength(arrivals[..i]) <= TotalLength(arrivals[..j])
  {
    if i > 0 {
      assert arrivals[..i][1..] == arrivals[1..][..i - 1];
      assert arrivals[..j][1..] == arrivals[1..][..j - 1];
      TotalLengthPrefix(arrivals[1..], i - 1, j - 1);
    }
  }

  /** Every usage report in a session gives the identity's count at that
      moment (the start count plus every frame so far, the PONG included),
      and later reports never show less than earlier ones. */
  lemma LoggedUsageGrows(t: Table, user: string, arrivals: seq<Arrival>, loads: Payload -> Parse)
    ensures var steps := Replay(t, user, arrivals, loads).1;
      && (forall i :: 0 <= i < |steps| && steps[i].LogUsage? ==>
            steps[i].bytes == UsageOf(t, user) + TotalLength(arrivals[..i + 1]))
      && (forall i, j :: 0 <= i < j < |steps| && steps[i].LogUsage? && steps[j].LogUsage? ==>
            steps[i].bytes <= steps[j].bytes)
  {
    var steps := Replay(t, user, arrivals, loads).1;
    forall i | 0 <= i < |steps| && steps[i].LogUsage?
      ensures steps[i].bytes == UsageOf(t, user) + TotalLength(arrivals[..i + 1])
    {
      ReplayStepAt(t, user, arrivals, loads, i);
    }
    forall i, j | 0 <= i < j < |steps| && steps[i].LogUsage? && steps[j].LogUsage?
      ensures steps[i].bytes <= steps[j].bytes
    {
      TotalLengthPrefix(arrivals, i + 1, j + 1);
    }
  }

  /** A session for `"user-42"` that receives an AUTH challenge with id
      `"abc"` (28 characters) and then a PONG (17 characters): the reply
      echoes `"abc"` and names the identity, the table ends at 45 and the
      PONG reports 45. */
  lemma {:induction false} AuthThenPong()
    ensures var auth := Text("{\"action\":\"AUTH\",\"id\":\"abc\"}");
      var pong := Text("{\"action\":\"PONG\"}");
      var loads := (p: Payload) =>
        if p == auth then Parsed(Obj(map["action" := Str("AUTH"), "id" := Str("abc")]))
        else if p == pong then Parsed(Obj(map["action" := Str("PONG")]))
        else Malformed;
      var r := Replay(map[], "user-42", [Arrival(auth, "b-1", 1700000000.75), Arrival(pong, "b-2", 1700000020.5)], loads);
      && r.0 == map["user-42" := 45]
      && |r.1| == 2
      && r.1[0].Send?
      && ReadAuthReply(r.1[0].message) == Some(AuthFields(Str("abc"), "b-1", "user-42", 1700000000))
      && r.1[1] == LogUsage(45)
  {
    var auth := Text("{\"action\":\"AUTH\",\"id\":\"abc\"}");
    var pong := Text("{\"action\":\"PONG\"}");
    var loads := (p: Payload) =>
      if p == auth then Parsed(Obj(map["action" := Str("AUTH"), "id" := Str("abc")]))
      else if p == pong then Parsed(Obj(map["action" := Str("PONG")]))
      else Malformed;
    var arrivals := [Arrival(auth, "b-1", 1700000000.75), Arrival(pong, "b-2", 1700000020.5)];
    assert Length(auth) == 28 && Length(pong) == 17;
    assert auth != pong;
    var t1 := Record(map[], "user-42", 28);
    assert t1 == map["user-42" := 28];
    var parsed := loads(auth);
    AuthAnswered("user-42", parsed, 28, "b-1", 1700000000.75);
    assert TruncateToInt(1700000000.75) == 1700000000;
    assert arrivals[1..] == [Arrival(pong, "b-2", 1700000020.5)];
    assert arrivals[1..][1..] == [];
    var t2 := Record(t1, "user-42", 17);
    assert t2 == map["user-42" := 45] by {
      assert t2.Keys == {"user-42"};
    }
    var pongParsed := Parsed(Obj(map["action" := Str("PONG")]));
    assert loads(pong) == pongParsed;
    assert ActionIs(pongParsed, "PONG");
    assert Dispatch("user-42", pongParsed, 45, "b-2", 1700000020.5) == LogUsage(45);
    assert Replay(t2, "user-42", [], loads) == (t2, []);
    assert [LogUsage(45)] + [] == [LogUsage(45)];
    assert Replay(t1, "user-42", [Arrival(pong, "b-2", 1700000020.5)], loads) == (t2, [LogUsage(45)]);
  }
}
