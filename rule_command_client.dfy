/**
 * device1/rule_command_client.py: the TCP endpoint on port 10002. It reads one
 * request, and for `{"type": "ADD_RULE", "rule": R, "sid": S}` sends the
 * command `{"command": "rule-add", "rule": R, "sid": S}` to the local relay on
 * port 10001, reads the relay's reply until the relay closes, and writes a
 * `{'return': 'OK'|'NOK', 'message': ...}` reply back before closing.
 */
module RuleCommandClient {
  import opened Wrappers
  import opened Json
  import opened Transport

  // ---------------------------------------------------------------------
  // send_to_suricata_relay: the reply is read until the relay closes

  /** What the receive loop yields: the chunks before the first empty one, or the first exception. */
  function UntilClosed(inbox: seq<Recv>): Result<seq<byte>, Fault> {
    if inbox == [] then Err(TimedOut(TimeoutText))
    else match inbox[0]
      case Raised(f) => Err(f)
      case Chunk(d) => if d == [] then Ok([]) else Prepend(d, UntilClosed(inbox[1..]))
  }

  /** A reply ended by the peer closing is every chunk before the empty one, concatenated. */
  lemma {:induction false} UntilClosedAt(inbox: seq<Recv>, k: nat)
    requires k < |inbox| && inbox[k] == Chunk([])
    requires forall j :: 0 <= j < k ==> inbox[j].Chunk? && inbox[j].data != []
    ensures UntilClosed(inbox) == Ok(Concat(inbox[..k]))
  {
    if k > 0 {
      UntilClosedAt(inbox[1..], k - 1);
      assert inbox[..k][1..] == inbox[1..][..k - 1];
    }
  }

  /** An exception from `recv` before the closing chunk is what the loop yields; the bytes read are lost. */
  lemma {:induction false} UntilClosedFault(inbox: seq<Recv>, k: nat)
    requires k < |inbox| && inbox[k].Raised?
    requires forall j :: 0 <= j < k ==> inbox[j].Chunk? && inbox[j].data != []
    ensures UntilClosed(inbox) == Err(inbox[k].fault)
  {
    if k > 0 {
      UntilClosedFault(inbox[1..], k - 1);
    }
  }

  /** A relay that keeps sending without ever closing runs into the five-second deadline. */
  lemma {:induction false} UntilClosedDeadline(inbox: seq<Recv>)
    requires forall j :: 0 <= j < |inbox| ==> inbox[j].Chunk? && inbox[j].data != []
    ensures UntilClosed(inbox) == Err(TimedOut(TimeoutText))
  {
    if inbox != [] {
      UntilClosedDeadline(inbox[1..]);
    }
  }

  /** The `while True: chunk = sock.recv(...)` loop of `send_to_suricata_relay`. */
  method ReceiveUntilClosed(sock: Socket) returns (r: Result<seq<byte>, Fault>)
    modifies sock`inbox
    ensures r == UntilClosed(old(sock.inbox))
  {
    var data: seq<byte> := [];
    assert Prepend(data, UntilClosed(sock.inbox)) == UntilClosed(sock.inbox) by {
      if UntilClosed(sock.inbox).Ok? {
        assert data + UntilClosed(sock.inbox).value == UntilClosed(sock.inbox).value;
      }
    }
    while true
      invariant UntilClosed(old(sock.inbox)) == Prepend(data, UntilClosed(sock.inbox))
      decreases |sock.inbox|
    {
      var chunk := sock.Receive();
      if chunk.Raised? {
        return Err(chunk.fault);
      }
      if chunk.data == [] {
        assert data + [] == data;
        return Ok(data);
      }
      PrependTwice(data, chunk.data, UntilClosed(sock.inbox));
      data := data + chunk.data;
    }
  }

  /** The value `send_to_suricata_relay` returns: the relay's decoded reply, or NOK with the exception text. */
  function RelayReply(connectFault: Option<Fault>, sendFault: Option<Fault>, inbox: seq<Recv>, codec: Codec): (v: Value)
    ensures connectFault.Some? || sendFault.Some? || UntilClosed(inbox).Err? ==> v.Obj? && !SaysOk(v.fields)
  {
    if connectFault.Some? then Nok(connectFault.value.text)
    else if sendFault.Some? then Nok(sendFault.value.text)
    else match UntilClosed(inbox)
      case Err(f) => Nok(f.text)
      case Ok(data) =>
        match codec.decodeUtf8(data)
        case Err(e) => Nok(e)
        case Ok(text) =>
          match codec.loads(text)
          case Err(e) => Nok(e)
          case Ok(reply) => reply
  }

  /**
   * `send_to_suricata_relay(command)`: connect, send the command's JSON text and
   * a newline, read until the relay closes, close, decode. The socket is closed
   * only when connect, send and every `recv` succeeded.
   */
  method SendToSuricataRelay(sock: Socket, codec: Codec, command: Value) returns (response: Value)
    modifies sock`inbox, sock`outbox, sock`closed
    ensures response == RelayReply(sock.connectFault, sock.sendFault, old(sock.inbox), codec)
    ensures sock.outbox == old(sock.outbox) +
      (if sock.connectFault.None? && sock.sendFault.None? then [Framed(codec, command)] else [])
    ensures sock.closed ==
      (old(sock.closed) || (sock.connectFault.None? && sock.sendFault.None? && UntilClosed(old(sock.inbox)).Ok?))
  {
    var fault := sock.Connect();
    if fault.Some? {
      return Nok(fault.value.text);
    }
    fault := sock.SendAll(Framed(codec, command));
    if fault.Some? {
      return Nok(fault.value.text);
    }
    var received := ReceiveUntilClosed(sock);
    if received.Err? {
      return Nok(received.error.text);
    }
    sock.Close();
    var text := codec.decodeUtf8(received.value);
    if text.Err? {
      return Nok(text.error);
    }
    var parsed := codec.loads(text.value);
    if parsed.Err? {
      return Nok(parsed.error);
    }
    response := parsed.value;
  }

  // ---------------------------------------------------------------------
  // process_add_rule_command

  /** What became of a request inside the handler: a reply to send, or an exception that escaped. */
  datatype Outcome = Replied(response: Value) | Crashed

  /** The command sent to the relay. */
  function RuleAddCommand(rule: Value, sid: Value): Value {
    Obj(map["command" := Str("rule-add"), "rule" := rule, "sid" := sid])
  }

  /** The reply that replaces an OK from the relay. */
  function AddedReply(): Value {
    Obj(map["return" := Str("OK"), "message" := Str("Rule added successfully")])
  }

  /** `rule[:80]` in the log line works only on str and list; anything else raises TypeError. */
  predicate Sliceable(v: Value) {
    v.Str? || v.Arr?
  }

  /** The command `process_add_rule_command` sends for `request`, if it gets that far. */
  function AddRuleCommand(request: map<string, Value>): (c: Option<Value>)
    ensures c.Some? <==>
      Truthy(GetOr(request, "rule", Null)) && Truthy(GetOr(request, "sid", Null)) && Sliceable(GetOr(request, "rule", Null))
    ensures c.Some? ==> c.value.Obj? && c.value.fields.Keys == {"command", "rule", "sid"}
  {
    var rule := GetOr(request, "rule", Null);
    var sid := GetOr(request, "sid", Null);
    if Truthy(rule) && Truthy(sid) && Sliceable(rule) then Some(RuleAddCommand(rule, sid)) else None
  }

  /** The result of `process_add_rule_command(request)`, where `relay` is what the relay call returned. */
  function AddRuleOutcome(request: map<string, Value>, relay: Value): Outcome {
    var rule := GetOr(request, "rule", Null);
    var sid := GetOr(request, "sid", Null);
    if !Truthy(rule) || !Truthy(sid) then Replied(Nok("Missing rule or sid"))
    else if !Sliceable(rule) then Crashed
    else if !relay.Obj? then Crashed
    else if SaysOk(relay.fields) then Replied(AddedReply())
    else Replied(relay)
  }

  /** `process_add_rule_command(data)`; the relay is contacted only when `AddRuleCommand` gives a command. */
  method ProcessAddRuleCommand(relay: Socket, codec: Codec, request: map<string, Value>) returns (outcome: Outcome)
    modifies relay`inbox, relay`outbox, relay`closed
    ensures outcome == AddRuleOutcome(request, RelayReply(relay.connectFault, relay.sendFault, old(relay.inbox), codec))
    ensures relay.outbox == old(relay.outbox) +
      (if AddRuleCommand(request).Some? && relay.connectFault.None? && relay.sendFault.None?
       then [Framed(codec, AddRuleCommand(request).value)] else [])
  {
    var rule := GetOr(request, "rule", Null);
    var sid := GetOr(request, "sid", Null);
    if !Truthy(rule) || !Truthy(sid) {
      return Replied(Nok("Missing rule or sid"));
    }
    if !Sliceable(rule) {
      return Crashed;
    }
    var response := SendToSuricataRelay(relay, codec, RuleAddCommand(rule, sid));
    if !response.Obj? {
      return Crashed;
    }
    if SaysOk(response.fields) {
      outcome := Replied(AddedReply());
    } else {
      outcome := Replied(response);
    }
  }

  // ---------------------------------------------------------------------
  // handle_client_connection

  /** The rule-add command forwarded to the relay for the request in `first`, if any. */
  function Forwarded(first: Recv, codec: Codec): Option<Value> {
    match Request(first, codec)
    case None => None
    case Some(request) =>
      if request.Obj? && GetOr(request.fields, "type", Null) == Str("ADD_RULE")
      then AddRuleCommand(request.fields) else None
  }

  /** The reply `handle_client_connection` writes back, if any; `relay` is what the relay call returned. */
  function ConnectionReply(first: Recv, codec: Codec, relay: Value): Option<Value> {
    if first.Raised? || first.data == [] then None
    else match codec.decodeUtf8(first.data)
      case Err(_) => None
      case Ok(text) =>
        match codec.loads(text)
        case Err(_) => Some(Nok("Invalid JSON"))
        case Ok(request) =>
          if !request.Obj? then None
          else
            var kind := GetOr(request.fields, "type", Null);
            if kind == Str("ADD_RULE") then
              match AddRuleOutcome(request.fields, relay)
              case Replied(r) => Some(r)
              case Crashed => None
            else Some(Nok("Unknown command: " + Show(kind)))
  }

  /**
   * `handle_client_connection(client_socket)`: one request, at most one reply,
   * and the client socket closed on every path.
   */
  method HandleClientConnection(client: Socket, relay: Socket, codec: Codec)
    requires client != relay
    modifies client`inbox, client`outbox, client`closed, relay`inbox, relay`outbox, relay`closed
    ensures client.closed
    ensures var reply := ConnectionReply(NextRecv(old(client.inbox)), codec,
                                         RelayReply(relay.connectFault, relay.sendFault, old(relay.inbox), codec));
      client.outbox == old(client.outbox) +
        (if reply.Some? && client.sendFault.None? then [Encoded(codec, reply.value)] else [])
    ensures var command := Forwarded(NextRecv(old(client.inbox)), codec);
      relay.outbox == old(relay.outbox) +
        (if command.Some? && relay.connectFault.None? && relay.sendFault.None? then [Framed(codec, command.value)] else [])
  {
    var first := client.Receive();
    var reply: Option<Value> := None;
    if first.Chunk? && first.data != [] {
      var text := codec.decodeUtf8(first.data);
      if text.Ok? {
        var parsed := codec.loads(text.value);
        if parsed.Err? {
          reply := Some(Nok("Invalid JSON"));
        } else if parsed.value.Obj? {
          var kind := GetOr(parsed.value.fields, "type", Null);
          if kind == Str("ADD_RULE") {
            var outcome := ProcessAddRuleCommand(relay, codec, parsed.value.fields);
            if outcome.Replied? {
              reply := Some(outcome.response);
            }
          } else {
            reply := Some(Nok("Unknown command: " + Show(kind)));
          }
        }
      }
    }
    if reply.Some? {
      var _ := client.SendAll(Encoded(codec, reply.value));
    }
    client.Close();
  }

  // ---------------------------------------------------------------------
  // Properties of the request handling

  /** A falsy or missing `rule` or `sid` (None, 0, '', ...) is refused and nothing is forwarded. */
  lemma MissingFieldRefused(request: map<string, Value>, relay: Value)
    requires !Truthy(GetOr(request, "rule", Null)) || !Truthy(GetOr(request, "sid", Null))
    ensures AddRuleOutcome(request, relay) == Replied(Nok("Missing rule or sid"))
    ensures AddRuleCommand(request) == None
  {
  }

  /**
   * Once forwarded, a relay reply saying OK becomes the fixed success reply and
   * any other dict reply is passed back unchanged.
   */
  lemma RelayVerdictMapped(request: map<string, Value>, relay: Value)
    requires AddRuleCommand(request).Some? && relay.Obj?
    ensures SaysOk(relay.fields) ==> AddRuleOutcome(request, relay) == Replied(AddedReply())
    ensures !SaysOk(relay.fields) ==> AddRuleOutcome(request, relay) == Replied(relay)
  {
  }

  /** The handler never replies OK unless the relay itself said OK. */
  lemma OkOnlyFromRelay(first: Recv, codec: Codec, relay: Value)
    requires ConnectionReply(first, codec, relay) == Some(AddedReply())
    ensures Forwarded(first, codec).Some? && relay.Obj? && SaysOk(relay.fields)
  {
    assert Nok("Invalid JSON") != AddedReply() by {
      assert Nok("Invalid JSON").fields["return"] == Str("NOK");
    }
    assert Request(first, codec).Some?;
    var request := Request(first, codec).value;
    assert Nok("Missing rule or sid") != AddedReply() by {
      assert Nok("Missing rule or sid").fields["return"] == Str("NOK");
    }
    var kind := GetOr(request.fields, "type", Null);
    assert kind == Str("ADD_RULE") by {
      var unknown := Nok("Unknown command: " + Show(kind));
      assert unknown.fields["return"] == Str("NOK");
    }
  }

  /** Any request other than ADD_RULE is answered NOK without contacting the relay. */
  lemma UnknownTypeRefused(first: Recv, codec: Codec, relay: Value)
    requires Request(first, codec).Some? && Request(first, codec).value.Obj?
    requires GetOr(Request(first, codec).value.fields, "type", Null) != Str("ADD_RULE")
    ensures ConnectionReply(first, codec, relay) ==
      Some(Nok("Unknown command: " + Show(GetOr(Request(first, codec).value.fields, "type", Null))))
    ensures Forwarded(first, codec) == None
  {
  }
}
