/** The two messages the client sends: the reply to an AUTH challenge
    (grass.py:36-47) and the PING heartbeat (grass.py:69-74). The random
    identifiers (`uuid.uuid4()`) and the clock (`time.time()`) are inputs. */
module Messages {
  import opened Wire

  const AUTH_ACTION := "AUTH"
  const USER_AGENT := "Mozilla/5.0"
  const DEVICE_TYPE := "desktop"
  const CLIENT_VERSION := "4.28.2"
  const PING_ACTION := "PING"
  const PING_VERSION := "1.0.0"

  /** Python's `int(x)` on a float: truncation toward zero. */
  function TruncateToInt(x: real): (r: int)
    ensures 0.0 <= x ==> r as real <= x < r as real + 1.0
    ensures x < 0.0 ==> r as real - 1.0 < x <= r as real
  {
    if 0.0 <= x then x.Floor else -((-x).Floor)
  }

  /** The variable content of an AUTH reply. */
  datatype AuthFields = AuthFields(id: Json, browserId: string, userId: string, timestamp: int)

  /** The AUTH reply envelope with its `result` object. */
  function AuthMessage(f: AuthFields): Json
  {
    Obj(map[
      "id" := f.id,
      "origin_action" := Str(AUTH_ACTION),
      "result" := Obj(map[
        "browser_id" := Str(f.browserId),
        "user_id" := Str(f.userId),
        "user_agent" := Str(USER_AGENT),
        "timestamp" := Num(f.timestamp),
        "device_type" := Str(DEVICE_TYPE),
        "version" := Str(CLIENT_VERSION)
      ])
    ])
  }

  /** The reply built for an AUTH frame whose `id` is `requestId` (absent when
      the frame has none), sent for identity `userId`, with the freshly drawn
      `browserId` and the clock reading `clock` in seconds. */
  function AuthReply(requestId: Option<Json>, userId: string, browserId: string, clock: real): (r: Json)
    ensures ReadAuthReply(r) == Some(AuthFields(OrNull(requestId), browserId, userId, TruncateToInt(clock)))
    ensures requestId.None? ==> r.Obj? && "id" in r.fields && r.fields["id"] == Null
  {
    AuthReplyRoundTrip(AuthMessage(AuthFields(OrNull(requestId), browserId, userId, TruncateToInt(clock))),
                       AuthFields(OrNull(requestId), browserId, userId, TruncateToInt(clock)));
    AuthMessage(AuthFields(OrNull(requestId), browserId, userId, TruncateToInt(clock)))
  }

  /** Recognises an AUTH reply: exactly the envelope keys, exactly the six
      `result` keys, and the fixed values where the client fixes them. */
  function ReadAuthReply(m: Json): Option<AuthFields>
  {
    if m.Obj? && m.fields.Keys == {"id", "origin_action", "result"}
       && m.fields["origin_action"] == Str(AUTH_ACTION) && m.fields["result"].Obj?
    then
      var r := m.fields["result"].fields;
      if r.Keys == {"browser_id", "user_id", "user_agent", "timestamp", "device_type", "version"}
         && r["browser_id"].Str? && r["user_id"].Str? && r["timestamp"].Num?
         && r["user_agent"] == Str(USER_AGENT) && r["device_type"] == Str(DEVICE_TYPE)
         && r["version"] == Str(CLIENT_VERSION)
      then Some(AuthFields(m.fields["id"], r["browser_id"].s, r["user_id"].s, r["timestamp"].n))
      else None
    else None
  }

  /** A message is an AUTH reply carrying `f` exactly when it is the message
      built from `f`. */
  lemma AuthReplyRoundTrip(m: Json, f: AuthFields)
    ensures ReadAuthReply(m) == Some(f) <==> m == AuthMessage(f)
  {
    var built := AuthMessage(f);
    var res := built.fields["result"].fields;
    assert res.Keys == {"browser_id", "user_id", "user_agent", "timestamp", "device_type", "version"};
    assert built.fields.Keys == {"id", "origin_action", "result"};
    if ReadAuthReply(m) == Some(f) {
      var r := m.fields["result"].fields;
      assert r == res by {
        assert r.Keys == res.Keys;
        forall k | k in r.Keys ensures r[k] == res[k] { }
      }
      assert m.fields == built.fields by {
        assert m.fields.Keys == built.fields.Keys;
        forall k | k in m.fields.Keys ensures m.fields[k] == built.fields[k] { }
      }
    }
  }

  /** One heartbeat with the freshly drawn message id `id`. */
  function Ping(id: string): (r: Json)
    ensures ReadPing(r) == Some(id)
  {
    Obj(map[
      "id" := Str(id),
      "version" := Str(PING_VERSION),
      "action" := Str(PING_ACTION),
      "data" := Obj(map[])
    ])
  }

  /** Recognises a heartbeat and gives back its message id. */
  function ReadPing(m: Json): Option<string>
  {
    if m.Obj? && m.fields.Keys == {"id", "version", "action", "data"}
       && m.fields["id"].Str? && m.fields["version"] == Str(PING_VERSION)
       && m.fields["action"] == Str(PING_ACTION) && m.fields["data"] == Obj(map[])
    then Some(m.fields["id"].s)
    else None
  }

  /** A message is a heartbeat with id `id` exactly when it is `Ping(id)`; no
      AUTH reply reads as a heartbeat. */
  lemma PingRoundTrip(m: Json, id: string)
    ensures ReadPing(m) == Some(id) <==> m == Ping(id)
    ensures forall f: AuthFields :: ReadPing(AuthMessage(f)) == None
  {
  }
}
