/**
 * device2/mcp_server.py: the tools an agent can call. Each tool returns a
 * JSON text; here each returns the dict that text encodes.
 */
module McpServer {
  import opened Wrappers
  import opened Json
  import opened Transport
  import opened Features
  import PyText
  import RuleText
  import FlowReceiver

  /** The rule ID the tool's prompt and template always use. */
  const ToolSid: int := 900000001

  /** `{'error': text}`. */
  function ErrorReply(text: string): Value {
    Obj(map["error" := Str(text)])
  }

  // ---------------------------------------------------------------------
  // analyze_network_flow

  /** The dict `analyze_network_flow(flow_data)` encodes. */
  function Analysis(model: Option<Classifier>, flow: map<string, Value>): Value {
    match model
    case None => ErrorReply("Model not loaded")
    case Some(m) =>
      match ReadCounters(flow)
      case Err(e) => ErrorReply(e)
      case Ok(c) =>
        match m.classify(Vector(m.featureNames, Derived7(c)))
        case Failed(e) => ErrorReply(e)
        case Labelled(predicted, confidence) =>
          Obj(map[
            "attack_type" := Str(predicted),
            "confidence" := Float(confidence),
            "is_malicious" := Bool(predicted != Benign)])
  }

  /** `analyze_network_flow(flow_data)`, with its fill-then-order loops. */
  method AnalyzeNetworkFlow(model: Option<Classifier>, flow: map<string, Value>) returns (result: Value)
    ensures result == Analysis(model, flow)
  {
    if model.None? {
      return ErrorReply("Model not loaded");
    }
    var counters := ReadCounters(flow);
    if counters.Err? {
      return ErrorReply(counters.error);
    }
    var features := FillAndOrder(model.value.featureNames, Derived7(counters.value));
    var verdict := model.value.classify(features);
    if verdict.Failed? {
      return ErrorReply(verdict.text);
    }
    result := Obj(map[
      "attack_type" := Str(verdict.predicted),
      "confidence" := Float(verdict.confidence),
      "is_malicious" := Bool(verdict.predicted != Benign)]);
  }

  /**
   * Without a model the tool answers only an error and no verdict; with one,
   * a verdict is given exactly when the classifier labels the vector, and it
   * is malicious exactly when the label is not BENIGN.
   */
  lemma AnalysisVerdict(model: Option<Classifier>, flow: map<string, Value>)
    ensures model.None? ==> Analysis(model, flow) == ErrorReply("Model not loaded")
    ensures "is_malicious" in Analysis(model, flow).fields <==>
      && model.Some? && ReadCounters(flow).Ok?
      && model.value.classify(Vector(model.value.featureNames, Derived7(ReadCounters(flow).value))).Labelled?
    ensures "is_malicious" in Analysis(model, flow).fields ==>
      var verdict := model.value.classify(Vector(model.value.featureNames, Derived7(ReadCounters(flow).value)));
      Analysis(model, flow).fields["is_malicious"] == Bool(verdict.predicted != Benign)
  {
  }

  /**
   * The tool's vector matches the receiver's at every name the tool derives
   * and every name neither derives, but holds 0.0 at the eleven names only the
   * receiver derives: the two endpoints can show the classifier different
   * vectors for the same flow.
   */
  lemma ToolVectorAgainstReceiver(names: seq<string>, c: Counters)
    ensures var tool := Vector(names, Derived7(c));
      var receiver := Vector(names, Derived18(c));
      && |tool| == |receiver|
      && (forall i :: 0 <= i < |names| && (names[i] in Derived7(c) || names[i] !in Derived18(c)) ==> tool[i] == receiver[i])
      && (forall i :: 0 <= i < |names| && names[i] in Derived18(c) && names[i] !in Derived7(c) ==> tool[i] == 0.0)
  {
    Derived7AgreesWith18(c);
  }

  // ---------------------------------------------------------------------
  // generate_suricata_rule

  /** The prompt the tool sends. */
  function ToolPrompt(attackType: string, src: string, dest: string, proto: string): string {
    "You are a Suricata expert. Generate ONE line rule ONLY.\n\n"
    + "Attack: " + attackType + "\n"
    + "Source: " + src + "\n"
    + "Destination: " + dest + "\n"
    + "Protocol: " + proto + "\n\n"
    + "Output format: drop tcp $EXTERNAL_NET any -> $HOME_NET any (msg:\"AI_BLOCK:" + attackType
    + "\"; sid:900000001; rev:1;)\n\n"
    + "Rule:"
  }

  /** `{'rule': rule}`. */
  function RuleReply(rule: string): Value {
    Obj(map["rule" := Str(rule)])
  }

  /** The dict the tool encodes for the model's answer; the destination plays no part. */
  function ToolRule(answer: HttpOutcome, attackType: string, src: string): Value {
    match answer
    case Unreachable(e) => ErrorReply(e)
    case Response(status, body) =>
      if status != 200 then ErrorReply("Ollama HTTP " + PyText.IntToString(status))
      else match body
        case Err(e) => ErrorReply(e)
        case Ok(v) =>
          if !v.Obj? then ErrorReply(AttributeErrorText(v, "get"))
          else
            var text := GetOr(v.fields, "response", Str(""));
            if !text.Str? then ErrorReply(AttributeErrorText(text, "strip"))
            else RuleReply(ToolText(text.s, attackType, src))
  }

  /** The rule the tool takes from the model's text: the first qualifying line, else the template. */
  function ToolText(text: string, attackType: string, src: string): string {
    match RuleText.FirstRule(RuleText.ReplyLines(text), RuleText.ToolVerbs)
    case Some(rule) => rule
    case None => RuleText.FallbackRule(src, attackType, ToolSid)
  }

  /** `generate_suricata_rule(attack_type, src_ip, dest_ip, proto)`. */
  method GenerateSuricataRule(attackType: string, src: string, dest: string, proto: string, llm: string -> HttpOutcome)
    returns (result: Value)
    ensures result == ToolRule(llm(ToolPrompt(attackType, src, dest, proto)), attackType, src)
  {
    var answer := llm(ToolPrompt(attackType, src, dest, proto));
    if answer.Unreachable? {
      return ErrorReply(answer.text);
    }
    if answer.status != 200 {
      return ErrorReply("Ollama HTTP " + PyText.IntToString(answer.status));
    }
    if answer.body.Err? {
      return ErrorReply(answer.body.error);
    }
    var v := answer.body.value;
    if !v.Obj? {
      return ErrorReply(AttributeErrorText(v, "get"));
    }
    var text := GetOr(v.fields, "response", Str(""));
    if !text.Str? {
      return ErrorReply(AttributeErrorText(text, "strip"));
    }
    var rule := RuleText.ExtractRule(RuleText.ReplyLines(text.s), RuleText.ToolVerbs);
    if rule.None? {
      return RuleReply(RuleText.FallbackRule(src, attackType, ToolSid));
    }
    result := RuleReply(rule.value);
  }

  /** A rule the tool takes from text is a cleaned line for its own verbs (so never `pass`), or the template. */
  lemma ToolTextShape(text: string, attackType: string, src: string)
    ensures var r := ToolText(text, attackType, src);
      || (RuleText.RuleShaped(r, RuleText.ToolVerbs) && !PyText.StartsWith(r, "pass"))
      || r == RuleText.FallbackRule(src, attackType, ToolSid)
  {
    var lines := RuleText.ReplyLines(text);
    var found := RuleText.FirstRule(lines, RuleText.ToolVerbs);
    if found.Some? {
      RuleText.VerbListsPlain();
      RuleText.FirstRuleClean(lines, RuleText.ToolVerbs);
      if PyText.StartsWith(found.value, "pass") {
        RuleText.PassOnlyForReceiver(found.value);
      }
    }
  }

  /**
   * A rule from the tool is a cleaned drop/alert/reject line (never a `pass`
   * line) or the template for the source address with sid 900000001.
   */
  lemma ToolRuleShape(answer: HttpOutcome, attackType: string, src: string)
    requires "rule" in ToolRule(answer, attackType, src).fields
    ensures var rule := ToolRule(answer, attackType, src).fields["rule"];
      && rule.Str?
      && ((RuleText.RuleShaped(rule.s, RuleText.ToolVerbs) && !PyText.StartsWith(rule.s, "pass"))
          || rule.s == RuleText.FallbackRule(src, attackType, ToolSid))
  {
    assert answer.Response? && answer.status == 200 && answer.body.Ok? && answer.body.value.Obj?;
    var text := GetOr(answer.body.value.fields, "response", Str(""));
    assert text.Str?;
    assert ToolRule(answer, attackType, src) == RuleReply(ToolText(text.s, attackType, src));
    ToolTextShape(text.s, attackType, src);
  }

  // ---------------------------------------------------------------------
  // apply_rule_to_suricata

  /** The dict `apply_rule_to_suricata` encodes for device 1's answer. */
  function ApplyResult(answer: HttpOutcome): (v: Value)
    ensures answer.Response? && answer.status == 200 && answer.body.Ok? ==> v == answer.body.value
    ensures !(answer.Response? && answer.status == 200 && answer.body.Ok?) ==>
      v.Obj? && "error" in v.fields && !SaysOk(v.fields)
  {
    match answer
    case Unreachable(e) => ErrorReply(e)
    case Response(status, body) =>
      if status == 200 then
        match body
        case Ok(v) => v
        case Err(e) => ErrorReply(e)
      else ErrorReply("HTTP " + PyText.IntToString(status))
  }

  /** `apply_rule_to_suricata(rule, sid)`: posts the same request body as the receiver. */
  function ApplyRuleToSuricata(rule: string, sid: int, device1: Value -> HttpOutcome): (v: Value)
    ensures (v.Obj? && SaysOk(v.fields)) <==> FlowReceiver.RuleApplied(device1(FlowReceiver.AddRuleRequest(rule, sid)))
  {
    var answer := device1(FlowReceiver.AddRuleRequest(rule, sid));
    ApplyAgreesWithReceiver(answer);
    ApplyResult(answer)
  }

  /**
   * The tool reports `'return': 'OK'` exactly when the receiver's
   * `apply_rule_to_device1` would report success for the same answer; a 200
   * body is passed through unchanged.
   */
  lemma ApplyAgreesWithReceiver(answer: HttpOutcome)
    ensures (ApplyResult(answer).Obj? && SaysOk(ApplyResult(answer).fields)) <==> FlowReceiver.RuleApplied(answer)
    ensures answer.Response? && answer.status == 200 && answer.body.Ok? ==> ApplyResult(answer) == answer.body.value
  {
    if !FlowReceiver.RuleApplied(answer) && ApplyResult(answer).Obj? {
      var fields := ApplyResult(answer).fields;
      if !(answer.Response? && answer.status == 200 && answer.body.Ok?) {
        assert "return" !in fields;
      }
    }
  }
}
