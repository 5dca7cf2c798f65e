/**
 * What the relay hops and HTTP callers see of the outside world. A stream
 * socket is a `Socket` whose successive `recv` results are scripted in
 * `inbox`; whether `connect` and `sendall` raise is fixed when it is made.
 * JSON text and UTF-8 are opaque (`Codec`), and an HTTP call made with
 * `requests` is reduced to its `HttpOutcome`.
 */
module Transport {
  import opened Wrappers
  import opened Json

  newtype byte = x: int | 0 <= x < 256

  /** The byte `b'\n'`. */
  const Newline: byte := 10

  /** `str(socket.timeout())`. */
  const TimeoutText: string := "timed out"

  /** An exception raised by a socket call, with its `str(e)`. */
  datatype Fault =
    | MissingFile(text: string)   // FileNotFoundError: no socket file at the path
    | TimedOut(text: string)      // socket.timeout
    | OtherFault(text: string)    // any other OSError

  /** One `recv` call: the bytes it returned (empty once the peer has closed) or what it raised. */
  datatype Recv = Chunk(data: seq<byte>) | Raised(fault: Fault)

  /** `json.loads`/`json.dumps` and UTF-8 `decode`/`encode`; a failure carries the exception text. */
  datatype Codec = Codec(
    decodeUtf8: seq<byte> -> Result<string, string>,
    loads: string -> Result<Value, string>,
    dumps: Value -> string,
    encodeUtf8: string -> seq<byte>)

  /** What a `requests.post`/`get` call produced: a response (whose `.json()` may fail) or an exception. */
  datatype HttpOutcome =
    | Response(status: int, body: Result<Value, string>)
    | Unreachable(text: string)

  /** A relay reply `{'return': 'NOK', 'message': message}`. */
  function Nok(message: string): Value {
    Obj(map["return" := Str("NOK"), "message" := Str(message)])
  }

  /** `response.get('return') == 'OK'` for a reply already known to be a dict. */
  predicate SaysOk(fields: map<string, Value>) {
    GetOr(fields, "return", Null) == Str("OK")
  }

  /** The bytes a hop writes for a command: `(json.dumps(command) + '\n').encode('utf-8')`. */
  function Framed(codec: Codec, command: Value): seq<byte> {
    codec.encodeUtf8(codec.dumps(command) + "\n")
  }

  /** The bytes a server writes back for a reply: `json.dumps(reply).encode('utf-8')`. */
  function Encoded(codec: Codec, reply: Value): seq<byte> {
    codec.encodeUtf8(codec.dumps(reply))
  }

  /** What the next `recv` returns: a socket with a deadline and nothing left to read times out. */
  function NextRecv(inbox: seq<Recv>): Recv {
    if inbox == [] then Raised(TimedOut(TimeoutText)) else inbox[0]
  }

  function AfterRecv(inbox: seq<Recv>): seq<Recv> {
    if inbox == [] then [] else inbox[1..]
  }

  /** The request a server decodes from its first `recv`, when that chunk is non-empty UTF-8 holding valid JSON. */
  function Request(first: Recv, codec: Codec): Option<Value> {
    if first.Raised? || first.data == [] then None
    else match codec.decodeUtf8(first.data)
      case Err(_) => None
      case Ok(text) =>
        match codec.loads(text)
        case Err(_) => None
        case Ok(v) => Some(v)
  }

  /** All bytes carried by a run of `recv` results, in order. */
  function Concat(rs: seq<Recv>): seq<byte> {
    if rs == [] then [] else (if rs[0].Chunk? then rs[0].data else []) + Concat(rs[1..])
  }

  /** Prefixes already-received bytes onto the outcome of the rest of a read. */
  function Prepend(data: seq<byte>, r: Result<seq<byte>, Fault>): Result<seq<byte>, Fault> {
    match r
    case Ok(rest) => Ok(data + rest)
    case Err(f) => Err(f)
  }

  /** Bytes read in two steps prefix the rest as if read at once. */
  lemma PrependTwice(a: seq<byte>, b: seq<byte>, r: Result<seq<byte>, Fault>)
    ensures Prepend(a, Prepend(b, r)) == Prepend(a + b, r)
  {
    if r.Ok? {
      assert a + (b + r.value) == (a + b) + r.value;
    }
  }

  /** One stream socket (TCP or Unix), connected or accepted. */
  class Socket {
    const connectFault: Option<Fault>
    const sendFault: Option<Fault>
    var inbox: seq<Recv>
    var outbox: seq<seq<byte>>
    var closed: bool

    constructor (connectFault: Option<Fault>, sendFault: Option<Fault>, inbox: seq<Recv>)
      ensures this.connectFault == connectFault && this.sendFault == sendFault
      ensures this.inbox == inbox && outbox == [] && !closed
    {
      this.connectFault := connectFault;
      this.sendFault := sendFault;
      this.inbox := inbox;
      outbox := [];
      closed := false;
    }

    /** `sock.connect(address)`. */
    method Connect() returns (fault: Option<Fault>)
      ensures fault == connectFault
    {
      fault := connectFault;
    }

    /** `sock.sendall(data)`: the whole payload is written, or the call raises. */
    method SendAll(data: seq<byte>) returns (fault: Option<Fault>)
      modifies this`outbox
      ensures fault == sendFault
      ensures outbox == if fault.None? then old(outbox) + [data] else old(outbox)
    {
      fault := sendFault;
      if fault.None? {
        outbox := outbox + [data];
      }
    }

    /** `sock.recv(BUFFER_SIZE)`. */
    method Receive() returns (r: Recv)
      modifies this`inbox
      ensures r == NextRecv(old(inbox)) && inbox == AfterRecv(old(inbox))
    {
      r := NextRecv(inbox);
      inbox := AfterRecv(inbox);
    }

    /** `sock.close()`. */
    method Close()
      modifies this`closed
      ensures closed
    {
      closed := true;
    }
  }
}
