/**
 * How the two device-1 hops relate: the client hop on port 10002 frames a
 * rule-add command for the relay on port 10001, and each hop reads its peer's
 * reply with a different loop and treats a malformed request differently.
 */
module RelayChain {
  import opened Wrappers
  import opened Json
  import opened Transport
  import RuleCommandClient
  import SuricataTcpRelay

  /** Reading up to a newline yields a prefix of what reading until close yields from the same chunks. */
  lemma {:induction false} NewlineReadIsPrefix(inbox: seq<Recv>)
    requires SuricataTcpRelay.UntilNewline(inbox).Ok? && RuleCommandClient.UntilClosed(inbox).Ok?
    ensures SuricataTcpRelay.UntilNewline(inbox).value <= RuleCommandClient.UntilClosed(inbox).value
  {
    var d := inbox[0].data;
    if d != [] && Newline !in d {
      NewlineReadIsPrefix(inbox[1..]);
    } else if d != [] {
      assert d <= d + RuleCommandClient.UntilClosed(inbox[1..]).value;
    }
  }

  /** When no chunk holds a newline, both loops read exactly the same thing. */
  lemma {:induction false} NewlineFreeReadsAgree(inbox: seq<Recv>)
    requires forall j :: 0 <= j < |inbox| && inbox[j].Chunk? ==> Newline !in inbox[j].data
    ensures SuricataTcpRelay.UntilNewline(inbox) == RuleCommandClient.UntilClosed(inbox)
  {
    if inbox != [] && inbox[0].Chunk? && inbox[0].data != [] {
      NewlineFreeReadsAgree(inbox[1..]);
    }
  }

  /**
   * A request that is valid UTF-8 but not valid JSON gets a NOK 'Invalid JSON'
   * from the client hop and no reply at all from the relay.
   */
  lemma InvalidJsonTreatedDifferently(first: Recv, codec: Codec, relayReply: Value)
    requires first.Chunk? && first.data != []
    requires codec.decodeUtf8(first.data).Ok? && codec.loads(codec.decodeUtf8(first.data).value).Err?
    ensures RuleCommandClient.ConnectionReply(first, codec, relayReply) == Some(Nok("Invalid JSON"))
    ensures SuricataTcpRelay.RelayedCommand(first, codec) == None
  {
  }

  /**
   * If the JSON text and UTF-8 codecs round-trip and the whole frame arrives in
   * one `recv`, the relay forwards to Suricata exactly the rule-add command the
   * client hop built.
   */
  lemma RuleAddReachesSuricata(codec: Codec, request: map<string, Value>)
    requires RuleCommandClient.AddRuleCommand(request).Some?
    requires var frame := Framed(codec, RuleCommandClient.AddRuleCommand(request).value);
      frame != [] &&
      codec.decodeUtf8(frame) == Ok(codec.dumps(RuleCommandClient.AddRuleCommand(request).value) + "\n") &&
      codec.loads(codec.dumps(RuleCommandClient.AddRuleCommand(request).value) + "\n") == Ok(RuleCommandClient.AddRuleCommand(request).value)
    ensures SuricataTcpRelay.RelayedCommand(Chunk(Framed(codec, RuleCommandClient.AddRuleCommand(request).value)), codec)
      == Some(RuleCommandClient.RuleAddCommand(GetOr(request, "rule", Null), GetOr(request, "sid", Null)))
  {
  }
}
