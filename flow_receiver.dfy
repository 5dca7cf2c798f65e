/**
 * device2/flow_receiver.py: the `/receive-flow` endpoint on port 5001. A flow
 * record is classified; a malicious one gets a fresh rule ID, a rule written
 * by the language model (or a fixed template), and that rule is sent to
 * device 1's rule endpoint.
 */
module FlowReceiver {
  import opened Wrappers
  import opened Json
  import opened Transport
  import opened Features
  import PyText
  import RuleText
  import RuleCommandClient

  /** The first rule ID handed out. */
  const FirstSid: int := 900000001

  /** The process-wide rule-ID counter `current_sid`. */
  class SidAllocator {
    var current: int
    ghost var issued: seq<int>

    /** The IDs handed out so far are FirstSid, FirstSid + 1, ..., and `current` is the next one. */
    ghost predicate Valid()
      reads this
    {
      && current == FirstSid + |issued|
      && forall k :: 0 <= k < |issued| ==> issued[k] == FirstSid + k
    }

    constructor ()
      ensures Valid() && issued == [] && current == FirstSid
    {
      current := FirstSid;
      issued := [];
    }

    /** `get_next_sid()`: returns the counter, then increments it by one. */
    method GetNextSid() returns (sid: int)
      requires Valid()
      modifies this
      ensures Valid()
      ensures sid == old(current) && current == old(current) + 1
      ensures issued == old(issued) + [sid]
      ensures forall k :: 0 <= k < |old(issued)| ==> old(issued)[k] < sid
    {
      sid := current;
      current := current + 1;
      issued := issued + [sid];
    }
  }

  // ---------------------------------------------------------------------
  // convert_to_77_features and predict_attack

  /** The vector `convert_to_77_features` returns, or the exception reading the counters raised. */
  function Features77(names: seq<string>, flow: map<string, Value>): Result<seq<real>, string> {
    match ReadCounters(flow)
    case Err(e) => Err(e)
    case Ok(c) => Ok(Vector(names, Derived18(c)))
  }

  /** One entry per feature name: the derived value for the 18 derived names, 0.0 for every other. */
  lemma Features77Shape(names: seq<string>, flow: map<string, Value>)
    requires ReadCounters(flow).Ok?
    ensures var v := Features77(names, flow).value;
      var derived := Derived18(ReadCounters(flow).value);
      && |v| == |names|
      && (forall i :: 0 <= i < |names| && names[i] in derived ==> v[i] == derived[names[i]])
      && (forall i :: 0 <= i < |names| && names[i] !in derived ==> v[i] == 0.0)
  {
  }

  /** `convert_to_77_features(flow_data)`. */
  method ConvertTo77Features(names: seq<string>, flow: map<string, Value>) returns (r: Result<seq<real>, string>)
    ensures r == Features77(names, flow)
  {
    var counters := ReadCounters(flow);
    if counters.Err? {
      return Err(counters.error);
    }
    var v := FillAndOrder(names, Derived18(counters.value));
    r := Ok(v);
  }

  /** The dict `predict_attack` returns; `error` is present only on the two fail-closed paths. */
  datatype Prediction = Prediction(isMalicious: bool, attackType: string, confidence: real, error: Option<string>)

  /** The result when the prediction raised. */
  function PredictionFailed(text: string): Prediction {
    Prediction(false, "ERROR", 0.0, Some(text))
  }

  /** `predict_attack(flow_data)`: fails closed, never raising. */
  function PredictAttack(model: Option<Classifier>, flow: map<string, Value>): (p: Prediction)
    ensures p.error.Some? ==> !p.isMalicious && p.confidence == 0.0
    ensures p.isMalicious ==> p.error.None? && p.attackType != Benign
  {
    match model
    case None => Prediction(false, "UNKNOWN", 0.0, Some("Model not loaded"))
    case Some(m) =>
      match Features77(m.featureNames, flow)
      case Err(e) => PredictionFailed(e)
      case Ok(v) =>
        match m.classify(v)
        case Failed(e) => PredictionFailed(e)
        case Labelled(predicted, confidence) => Prediction(predicted != Benign, predicted, confidence, None)
  }

  /**
   * A flow is flagged malicious exactly when a model is loaded, the features
   * can be built, and the classifier names a label other than BENIGN; every
   * failure is reported as not malicious with an error.
   */
  lemma PredictAttackMalicious(model: Option<Classifier>, flow: map<string, Value>)
    ensures PredictAttack(model, flow).isMalicious <==>
      && model.Some?
      && Features77(model.value.featureNames, flow).Ok?
      && model.value.classify(Features77(model.value.featureNames, flow).value).Labelled?
      && model.value.classify(Features77(model.value.featureNames, flow).value).predicted != Benign
    ensures PredictAttack(model, flow).error.Some? ==> !PredictAttack(model, flow).isMalicious
    ensures PredictAttack(model, flow).error.None? <==>
      && model.Some?
      && Features77(model.value.featureNames, flow).Ok?
      && model.value.classify(Features77(model.value.featureNames, flow).value).Labelled?
    ensures model.None? ==> PredictAttack(model, flow) == Prediction(false, "UNKNOWN", 0.0, Some("Model not loaded"))
  {
  }

  // ---------------------------------------------------------------------
  // generate_suricata_rule

  /** The per-attack hint placed in the prompt: the `hints` dict lookup with its default. */
  function Hint(attackType: string): string {
    if attackType == "DDoS" then "Use threshold option: type both, track by_src, count 100, seconds 1"
    else if attackType == "PortScan" then "Use threshold option: type both, track by_src, count 50, seconds 1"
    else if attackType == "Web Attack" then "Use content option for HTTP detection, port 80 or 443"
    else if attackType == "Bot" then "Detect C&C communication patterns"
    else if attackType == "DoS" then "Use threshold for rate limiting"
    else "Create appropriate detection rule"
  }

  /** The prompt sent to the language model. */
  function Prompt(attackType: string, src: Value, dest: Value, proto: Value, hint: string, sid: int): string {
    "You are a Suricata IDS expert. Generate ONE line rule ONLY.\n\n"
    + "Attack Information:\n"
    + "- Type: " + attackType + "\n"
    + "- Source IP: " + Show(src) + "\n"
    + "- Destination IP: " + Show(dest) + "\n"
    + "- Protocol: " + Show(proto) + "\n"
    + "- Hint: " + hint + "\n\n"
    + "Requirements:\n"
    + "1. Output ONLY the rule (one line, no explanation)\n"
    + "2. Format: drop tcp $EXTERNAL_NET any -> $HOME_NET any (msg:\"AI_BLOCK:" + attackType + "\"; sid:"
    + PyText.IntToString(sid) + "; rev:1;)\n"
    + "3. Use appropriate options for " + attackType + "\n"
    + "4. Do NOT include markdown, backticks, or any other text\n\n"
    + "Rule:"
  }

  /**
   * The rule read from the language model's answer: None for anything but a
   * 200 with a dict body whose `response` is a string; otherwise the first
   * verb line, or the template when there is none.
   */
  function RuleFromAnswer(answer: HttpOutcome, attackType: string, src: Value, sid: int): Option<string> {
    match answer
    case Unreachable(_) => None
    case Response(status, body) =>
      if status != 200 || body.Err? || !body.value.Obj? then None
      else
        var text := GetOr(body.value.fields, "response", Str(""));
        if !text.Str? then None
        else Some(ReceiverText(text.s, attackType, src, sid))
  }

  /** The rule taken from the model's text: the first verb line cleaned, else the template. */
  function ReceiverText(text: string, attackType: string, src: Value, sid: int): string {
    match RuleText.FirstRule(RuleText.ReplyLines(text), RuleText.ReceiverVerbs)
    case Some(rule) => rule
    case None => RuleText.FallbackRule(Show(src), attackType, sid)
  }

  /** A rule taken from text is a non-empty cleaned verb line, or the template. */
  lemma ReceiverTextShape(text: string, attackType: string, src: Value, sid: int)
    ensures var r := ReceiverText(text, attackType, src, sid);
      && r != []
      && (RuleText.RuleShaped(r, RuleText.ReceiverVerbs) || r == RuleText.FallbackRule(Show(src), attackType, sid))
  {
    var lines := RuleText.ReplyLines(text);
    if RuleText.FirstRule(lines, RuleText.ReceiverVerbs).Some? {
      RuleText.VerbListsPlain();
      RuleText.FirstRuleClean(lines, RuleText.ReceiverVerbs);
    } else {
      assert RuleText.FallbackRule(Show(src), attackType, sid)[0] == 'd';
    }
  }

  /** The `try` block of `generate_suricata_rule`, once the prompt has been sent. */
  method ReadRule(answer: HttpOutcome, attackType: string, src: Value, sid: int) returns (rule: Option<string>)
    ensures rule == RuleFromAnswer(answer, attackType, src, sid)
  {
    if !answer.Response? || answer.status != 200 || answer.body.Err? || !answer.body.value.Obj? {
      return None;
    }
    var text := GetOr(answer.body.value.fields, "response", Str(""));
    if !text.Str? {
      return None;
    }
    rule := RuleText.ExtractRule(RuleText.ReplyLines(text.s), RuleText.ReceiverVerbs);
    if rule.None? {
      rule := Some(RuleText.FallbackRule(Show(src), attackType, sid));
    }
  }

  /** What `generate_suricata_rule` gives back: `(rule, sid)`, or the KeyError building the prompt raised. */
  datatype Synthesis = Synthesized(rule: Option<string>, sid: int) | Escaped(text: string)

  /** `generate_suricata_rule(attack_type, flow_data)` when the counter stands at `sid`. */
  function Synthesize(attackType: string, flow: map<string, Value>, sid: int, llm: string -> HttpOutcome): Synthesis {
    if "src_ip" !in flow then Escaped(KeyErrorText("src_ip"))
    else if "dest_ip" !in flow then Escaped(KeyErrorText("dest_ip"))
    else if "proto" !in flow then Escaped(KeyErrorText("proto"))
    else
      var prompt := Prompt(attackType, flow["src_ip"], flow["dest_ip"], flow["proto"], Hint(attackType), sid);
      Synthesized(RuleFromAnswer(llm(prompt), attackType, flow["src_ip"], sid), sid)
  }

  /**
   * `generate_suricata_rule`: the rule ID is taken before anything else, so it
   * is consumed even when the prompt cannot be built or the model fails.
   */
  method GenerateSuricataRule(alloc: SidAllocator, attackType: string, flow: map<string, Value>, llm: string -> HttpOutcome)
    returns (result: Synthesis)
    requires alloc.Valid()
    modifies alloc
    ensures alloc.Valid()
    ensures result == Synthesize(attackType, flow, old(alloc.current), llm)
    ensures alloc.issued == old(alloc.issued) + [old(alloc.current)]
  {
    var sid := alloc.GetNextSid();
    var hint := Hint(attackType);
    if "src_ip" !in flow {
      return Escaped(KeyErrorText("src_ip"));
    }
    if "dest_ip" !in flow {
      return Escaped(KeyErrorText("dest_ip"));
    }
    if "proto" !in flow {
      return Escaped(KeyErrorText("proto"));
    }
    var prompt := Prompt(attackType, flow["src_ip"], flow["dest_ip"], flow["proto"], hint, sid);
    var rule := ReadRule(llm(prompt), attackType, flow["src_ip"], sid);
    result := Synthesized(rule, sid);
  }

  /**
   * A generated rule is either a cleaned verb line (starting with
   * drop/alert/reject/pass, ending with ';', free of fences and line breaks) or
   * the template for the flow's source address and the allocated ID; and the
   * ID returned is always the one allocated.
   */
  lemma SynthesizedRuleShape(attackType: string, flow: map<string, Value>, sid: int, llm: string -> HttpOutcome)
    requires Synthesize(attackType, flow, sid, llm).Synthesized?
    ensures Synthesize(attackType, flow, sid, llm).sid == sid
    ensures var rule := Synthesize(attackType, flow, sid, llm).rule;
      rule.Some? ==>
        || RuleText.RuleShaped(rule.value, RuleText.ReceiverVerbs)
        || rule.value == RuleText.FallbackRule(Show(flow["src_ip"]), attackType, sid)
    ensures var rule := Synthesize(attackType, flow, sid, llm).rule;
      rule.Some? ==> rule.value != []
  {
    assert "src_ip" in flow && "dest_ip" in flow && "proto" in flow;
    var answer := llm(Prompt(attackType, flow["src_ip"], flow["dest_ip"], flow["proto"], Hint(attackType), sid));
    assert Synthesize(attackType, flow, sid, llm) == Synthesized(RuleFromAnswer(answer, attackType, flow["src_ip"], sid), sid);
    if answer.Response? && answer.status == 200 && answer.body.Ok? && answer.body.value.Obj? {
      var text := GetOr(answer.body.value.fields, "response", Str(""));
      if text.Str? {
        ReceiverTextShape(text.s, attackType, flow["src_ip"], sid);
      }
    }
  }

  // ---------------------------------------------------------------------
  // apply_rule_to_device1

  /** The request body posted to device 1's rule endpoint. */
  function AddRuleRequest(rule: string, sid: int): Value {
    Obj(map["type" := Str("ADD_RULE"), "rule" := Str(rule), "sid" := Int(sid)])
  }

  /** `apply_rule_to_device1` given device 1's answer: True only for a 200 whose dict body says OK. */
  predicate RuleApplied(answer: HttpOutcome)
    ensures answer == Response(200, Ok(RuleCommandClient.AddedReply())) ==> RuleApplied(answer)
    ensures (answer.Response? && answer.body.Ok? && answer.body.value.Obj?
      && GetOr(answer.body.value.fields, "return", Null) == Str("NOK")) ==> !RuleApplied(answer)
    ensures (answer.Unreachable? || answer.status != 200) ==> !RuleApplied(answer)
  {
    && answer.Response? && answer.status == 200
    && answer.body.Ok? && answer.body.value.Obj?
    && SaysOk(answer.body.value.fields)
  }

  /**
   * The request device 2 sends passes device 1's validation for every rule it
   * can generate and every allocated ID, and asks for exactly that rule and ID.
   */
  lemma AddRuleRequestAccepted(rule: string, sid: int)
    requires rule != [] && sid >= FirstSid
    ensures RuleCommandClient.AddRuleCommand(AddRuleRequest(rule, sid).fields)
      == Some(RuleCommandClient.RuleAddCommand(Str(rule), Int(sid)))
  {
    var fields := AddRuleRequest(rule, sid).fields;
    assert GetOr(fields, "rule", Null) == Str(rule);
    assert GetOr(fields, "sid", Null) == Int(sid);
  }

  // ---------------------------------------------------------------------
  // receive_flow

  /** The endpoint's answer: a JSON reply with its status, or an exception Flask turns into a 500 page. */
  datatype HttpReply = JsonReply(status: int, body: Value) | InternalError(text: string)

  function BenignReply(): Value {
    Obj(map["is_malicious" := Bool(false), "attack_type" := Str(Benign)])
  }

  /** The reply for a malicious flow whose rule was generated. */
  function GeneratedReply(p: Prediction, rule: string, sid: int, applied: bool): Value {
    Obj(map[
      "is_malicious" := Bool(true),
      "attack_type" := Str(p.attackType),
      "confidence" := Float(p.confidence),
      "rule_generated" := Bool(true),
      "rule" := Str(rule),
      "sid" := Int(sid),
      "rule_applied" := Bool(applied)])
  }

  /** The reply for a malicious flow for which no rule could be generated. */
  function NoRuleReply(p: Prediction): Value {
    Obj(map[
      "is_malicious" := Bool(true),
      "attack_type" := Str(p.attackType),
      "confidence" := Float(p.confidence),
      "rule_generated" := Bool(false),
      "error" := Str("Rule generation failed")])
  }

  /** Whether handling `body` consults the rule-ID counter at all. */
  predicate TakesSid(model: Option<Classifier>, body: Value) {
    Truthy(body) && body.Obj? && PredictAttack(model, body.fields).isMalicious
  }

  /** `receive_flow()` for the decoded request body, with the counter at `sid`. */
  function FlowReply(model: Option<Classifier>, body: Value, sid: int,
                     llm: string -> HttpOutcome, device1: Value -> HttpOutcome): HttpReply
  {
    if !Truthy(body) then JsonReply(400, Obj(map["error" := Str("No data")]))
    else if !body.Obj? then InternalError(AttributeErrorText(body, "get"))
    else
      var p := PredictAttack(model, body.fields);
      if !p.isMalicious then JsonReply(200, BenignReply())
      else match Synthesize(p.attackType, body.fields, sid, llm)
        case Escaped(e) => InternalError(e)
        case Synthesized(rule, s) =>
          if rule.Some? && rule.value != [] then
            JsonReply(200, GeneratedReply(p, rule.value, s, RuleApplied(device1(AddRuleRequest(rule.value, s)))))
          else
            JsonReply(200, NoRuleReply(p))
  }

  /** `receive_flow()`: the counter moves exactly when a malicious flow reaches rule generation. */
  method ReceiveFlow(alloc: SidAllocator, model: Option<Classifier>, body: Value,
                     llm: string -> HttpOutcome, device1: Value -> HttpOutcome)
    returns (reply: HttpReply)
    requires alloc.Valid()
    modifies alloc
    ensures alloc.Valid()
    ensures reply == FlowReply(model, body, old(alloc.current), llm, device1)
    ensures alloc.current == old(alloc.current) + (if TakesSid(model, body) then 1 else 0)
  {
    if !Truthy(body) {
      return JsonReply(400, Obj(map["error" := Str("No data")]));
    }
    if !body.Obj? {
      return InternalError(AttributeErrorText(body, "get"));
    }
    var p := PredictAttack(model, body.fields);
    if !p.isMalicious {
      return JsonReply(200, BenignReply());
    }
    var synthesis := GenerateSuricataRule(alloc, p.attackType, body.fields, llm);
    if synthesis.Escaped? {
      return InternalError(synthesis.text);
    }
    if synthesis.rule.Some? && synthesis.rule.value != [] {
      var applied := RuleApplied(device1(AddRuleRequest(synthesis.rule.value, synthesis.sid)));
      reply := JsonReply(200, GeneratedReply(p, synthesis.rule.value, synthesis.sid, applied));
    } else {
      reply := JsonReply(200, NoRuleReply(p));
    }
  }

  /**
   * A flow the model cannot judge (no model, unreadable counters, classifier
   * error) is answered exactly like a benign flow.
   */
  lemma FailClosedLooksBenign(model: Option<Classifier>, body: Value, sid: int,
                              llm: string -> HttpOutcome, device1: Value -> HttpOutcome)
    requires Truthy(body) && body.Obj? && PredictAttack(model, body.fields).error.Some?
    ensures FlowReply(model, body, sid, llm, device1) == JsonReply(200, BenignReply())
    ensures !TakesSid(model, body)
  {
    assert !PredictAttack(model, body.fields).isMalicious;
  }

  /**
   * For a malicious flow the reply says so, reports the rule and the
   * allocated ID when a rule was generated, and carries `rule_applied` true
   * exactly when device 1 answered 200 with `'return': 'OK'`; otherwise it
   * says no rule was generated.
   */
  lemma MaliciousReply(model: Option<Classifier>, body: Value, sid: int,
                       llm: string -> HttpOutcome, device1: Value -> HttpOutcome)
    requires Truthy(body) && body.Obj? && PredictAttack(model, body.fields).isMalicious
    requires Synthesize(PredictAttack(model, body.fields).attackType, body.fields, sid, llm).Synthesized?
    ensures var p := PredictAttack(model, body.fields);
      var rule := Synthesize(p.attackType, body.fields, sid, llm).rule;
      var reply := FlowReply(model, body, sid, llm, device1);
      && reply.JsonReply? && reply.status == 200
      && (rule.Some? ==> reply.body == GeneratedReply(p, rule.value, sid, RuleApplied(device1(AddRuleRequest(rule.value, sid)))))
      && (rule.None? ==> reply.body == NoRuleReply(p))
  {
    var p := PredictAttack(model, body.fields);
    SynthesizedRuleShape(p.attackType, body.fields, sid, llm);
  }
}
