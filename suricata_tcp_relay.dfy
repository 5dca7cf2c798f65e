/**
 * device1/suricata_tcp_relay.py: the TCP relay on port 10001. It reads one
 * JSON command, forwards it unchanged to Suricata's Unix command socket,
 * reads Suricata's reply up to the first newline, and writes that reply back
 * unchanged. Socket failures become `{'return': 'NOK', 'message': ...}`.
 */
module SuricataTcpRelay {
  import opened Wrappers
  import opened Json
  import PyText
  import opened Transport

  // ---------------------------------------------------------------------
  // send_command_to_suricata: the reply is read up to a newline

  /**
   * What the receive loop yields: chunks up to the first empty one or up to
   * and including the first chunk holding a newline, or the first exception.
   */
  function UntilNewline(inbox: seq<Recv>): Result<seq<byte>, Fault> {
    if inbox == [] then Err(TimedOut(TimeoutText))
    else match inbox[0]
      case Raised(f) => Err(f)
      case Chunk(d) =>
        if d == [] then Ok([])
        else if Newline in d then Ok(d)
        else Prepend(d, UntilNewline(inbox[1..]))
  }

  /** Chunks that do not end the read: non-empty and without a newline. */
  predicate Continues(r: Recv) {
    r.Chunk? && r.data != [] && Newline !in r.data
  }

  /** When the relay's peer closes at chunk `k`, the reply is every chunk before it. */
  lemma {:induction false} UntilNewlineClosed(inbox: seq<Recv>, k: nat)
    requires k < |inbox| && inbox[k] == Chunk([])
    requires forall j :: 0 <= j < k ==> Continues(inbox[j])
    ensures UntilNewline(inbox) == Ok(Concat(inbox[..k]))
  {
    if k > 0 {
      UntilNewlineClosed(inbox[1..], k - 1);
      assert inbox[..k][1..] == inbox[1..][..k - 1];
    } else {
      assert inbox[..k] == [];
    }
  }

  /** When chunk `k` is the first holding a newline, the reply is every chunk through `k`, that one whole. */
  lemma {:induction false} UntilNewlineLine(inbox: seq<Recv>, k: nat)
    requires k < |inbox| && inbox[k].Chunk? && inbox[k].data != [] && Newline in inbox[k].data
    requires forall j :: 0 <= j < k ==> Continues(inbox[j])
    ensures UntilNewline(inbox) == Ok(Concat(inbox[..k + 1]))
  {
    if k > 0 {
      UntilNewlineLine(inbox[1..], k - 1);
      assert inbox[..k + 1][1..] == inbox[1..][..k];
    } else {
      assert Concat(inbox[..1][1..]) == [];
      assert inbox[0].data + [] == inbox[0].data;
    }
  }

  /** An exception from `recv` before the reply is complete is what the loop yields. */
  lemma {:induction false} UntilNewlineFault(inbox: seq<Recv>, k: nat)
    requires k < |inbox| && inbox[k].Raised?
    requires forall j :: 0 <= j < k ==> Continues(inbox[j])
    ensures UntilNewline(inbox) == Err(inbox[k].fault)
  {
    if k > 0 {
      UntilNewlineFault(inbox[1..], k - 1);
    }
  }

  /** The `while True` loop of `send_command_to_suricata`, with its two `break`s. */
  method ReceiveUntilNewline(sock: Socket) returns (r: Result<seq<byte>, Fault>)
    modifies sock`inbox
    ensures r == UntilNewline(old(sock.inbox))
  {
    var data: seq<byte> := [];
    assert Prepend(data, UntilNewline(sock.inbox)) == UntilNewline(sock.inbox) by {
      if UntilNewline(sock.inbox).Ok? {
        assert data + UntilNewline(sock.inbox).value == UntilNewline(sock.inbox).value;
      }
    }
    while true
      invariant UntilNewline(old(sock.inbox)) == Prepend(data, UntilNewline(sock.inbox))
      decreases |sock.inbox|
    {
      var chunk := sock.Receive();
      if chunk.Raised? {
        return Err(chunk.fault);
      }
      if chunk.data == [] {
        assert data + [] == data;
        return Ok(data);
      }
      PrependTwice(data, chunk.data, UntilNewline(sock.inbox));
      data := data + chunk.data;
      if Newline in chunk.data {
        assert data + [] == data;
        return Ok(data);
      }
    }
  }

  /** The reply for a socket exception: fixed texts for a missing socket file and a timeout, else `str(e)`. */
  function FaultReply(f: Fault): (v: Value)
    ensures v.Obj? && !SaysOk(v.fields)
  {
    match f
    case MissingFile(_) => Nok("Socket file not found")
    case TimedOut(_) => Nok("Timeout")
    case OtherFault(text) => Nok(text)
  }

  /** The value `send_command_to_suricata` returns: Suricata's decoded reply, or NOK. */
  function SuricataReply(connectFault: Option<Fault>, sendFault: Option<Fault>, inbox: seq<Recv>, codec: Codec): (v: Value)
    ensures connectFault.Some? || sendFault.Some? || UntilNewline(inbox).Err? ==> v.Obj? && !SaysOk(v.fields)
  {
    if connectFault.Some? then FaultReply(connectFault.value)
    else if sendFault.Some? then FaultReply(sendFault.value)
    else match UntilNewline(inbox)
      case Err(f) => FaultReply(f)
      case Ok(data) =>
        match codec.decodeUtf8(data)
        case Err(e) => Nok(e)
        case Ok(text) =>
          match codec.loads(PyText.Strip(text))
          case Err(e) => Nok(e)
          case Ok(reply) => reply
  }

  /**
   * `send_command_to_suricata(command)`: connect, send the command's JSON text
   * and a newline, read up to a newline, close, strip and decode. The socket is
   * closed only when connect, send and every `recv` succeeded.
   */
  method SendCommandToSuricata(sock: Socket, codec: Codec, command: Value) returns (response: Value)
    modifies sock`inbox, sock`outbox, sock`closed
    ensures response == SuricataReply(sock.connectFault, sock.sendFault, old(sock.inbox), codec)
    ensures sock.outbox == old(sock.outbox) +
      (if sock.connectFault.None? && sock.sendFault.None? then [Framed(codec, command)] else [])
    ensures sock.closed ==
      (old(sock.closed) || (sock.connectFault.None? && sock.sendFault.None? && UntilNewline(old(sock.inbox)).Ok?))
  {
    var fault := sock.Connect();
    if fault.Some? {
      return FaultReply(fault.value);
    }
    fault := sock.SendAll(Framed(codec, command));
    if fault.Some? {
      return FaultReply(fault.value);
    }
    var received := ReceiveUntilNewline(sock);
    if received.Err? {
      return FaultReply(received.error);
    }
    sock.Close();
    var text := codec.decodeUtf8(received.value);
    if text.Err? {
      return Nok(text.error);
    }
    var parsed := codec.loads(PyText.Strip(text.value));
    if parsed.Err? {
      return Nok(parsed.error);
    }
    response := parsed.value;
  }

  // ---------------------------------------------------------------------
  // handle_client_command

  /**
   * The command the relay forwards: the decoded request, when it is a dict
   * (`command_json.get(...)` in the log line raises before forwarding otherwise).
   */
  function RelayedCommand(first: Recv, codec: Codec): Option<Value> {
    match Request(first, codec)
    case Some(v) => if v.Obj? then Some(v) else None
    case None => None
  }

  /**
   * `handle_client_command(client_socket, addr)`: a dict command is forwarded
   * unchanged and Suricata's reply written back unchanged; anything else gets
   * no reply. The client socket is closed on every path.
   */
  method HandleClientCommand(client: Socket, suricata: Socket, codec: Codec)
    requires client != suricata
    modifies client`inbox, client`outbox, client`closed, suricata`inbox, suricata`outbox, suricata`closed
    ensures client.closed
    ensures var command := RelayedCommand(NextRecv(old(client.inbox)), codec);
      client.outbox == old(client.outbox) +
        (if command.Some? && client.sendFault.None?
         then [Encoded(codec, SuricataReply(suricata.connectFault, suricata.sendFault, old(suricata.inbox), codec))]
         else [])
    ensures var command := RelayedCommand(NextRecv(old(client.inbox)), codec);
      suricata.outbox == old(suricata.outbox) +
        (if command.Some? && suricata.connectFault.None? && suricata.sendFault.None?
         then [Framed(codec, command.value)] else [])
  {
    var first := client.Receive();
    if first.Chunk? && first.data != [] {
      var text := codec.decodeUtf8(first.data);
      if text.Ok? {
        var parsed := codec.loads(text.value);
        if parsed.Ok? && parsed.value.Obj? {
          var response := SendCommandToSuricata(suricata, codec, parsed.value);
          var _ := client.SendAll(Encoded(codec, response));
        }
      }
    }
    client.Close();
  }

  /** A request that is not valid JSON, or not a JSON object, is dropped: nothing forwarded, nothing written. */
  lemma MalformedRequestDropped(first: Recv, codec: Codec)
    requires first.Chunk? && first.data != [] && codec.decodeUtf8(first.data).Ok?
    requires var parsed := codec.loads(codec.decodeUtf8(first.data).value);
      parsed.Err? || !parsed.value.Obj?
    ensures RelayedCommand(first, codec) == None
  {
  }
}
