/** What travels over the relay websocket: the frames the client receives and
    the structured values `json.loads` turns them into (grass.py:30-35). */
module Wire {

  datatype Option<+T> = None | Some(value: T)

  /** A decoded JSON value, as Python holds it after `json.loads`: `None`,
      a bool, a number, a string, a list or a dict. Numbers are integers
      here; a fractional number is outside the model. */
  datatype Json =
    | Null
    | Bool(b: bool)
    | Num(n: int)
    | Str(s: string)
    | Arr(items: seq<Json>)
    | Obj(fields: map<string, Json>)

  /** `d.get(key)` on a dict: the value stored under `key`, if any. */
  function Get(fields: map<string, Json>, key: string): Option<Json>
  {
    if key in fields then Some(fields[key]) else None
  }

  /** An absent value is written as JSON `null` when serialized. */
  function OrNull(v: Option<Json>): Json
  {
    match v
    case Some(x) => x
    case None => Null
  }

  /** A frame as `websocket.recv()` returns it: text (a `str`) or binary
      (a `bytes`). */
  datatype Payload = Text(chars: string) | Binary(bytes: seq<bv8>)

  /** `len(message)`: code points of a text frame, bytes of a binary one. */
  function Length(p: Payload): nat
  {
    match p
    case Text(chars) => |chars|
    case Binary(bytes) => |bytes|
  }

  /** The outcome of `json.loads` on a frame: a value, or the exception it
      raises on malformed input. */
  datatype Parse = Parsed(value: Json) | Malformed
}
