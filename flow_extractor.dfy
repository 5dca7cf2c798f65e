/**
 * device1/flow_extractor.py: follows Suricata's EVE log from its end, turns
 * every long-lived established or closed flow event into a 13-key record, and
 * posts each record to device 2's receiver.
 */
module FlowExtractor {
  import opened Wrappers
  import opened Json
  import PyText
  import opened Transport

  /** Flows younger than this many seconds are ignored. */
  const MinFlowAge: int := 5

  /** The 13-key dict the extractor returns. */
  datatype FlowRecord = FlowRecord(
    timestamp: Value, flowId: Value, srcIp: Value, destIp: Value,
    srcPort: Value, destPort: Value, proto: Value,
    flowAge: Value, flowState: Value,
    pktsToServer: Value, pktsToClient: Value, bytesToServer: Value, bytesToClient: Value)

  /** What `extract_flow_features` does with one decoded log entry. */
  datatype Extraction =
    | Emit(record: FlowRecord)   // the dict
    | Skip                       // `return None`
    | Raise(text: string)        // an exception, caught and logged by the stream loop

  /** `str(e)` for `value < 5` on a value Python cannot order against an int. */
  function CompareErrorText(v: Value): string {
    "'<' not supported between instances of '" + TypeName(v) + "' and 'int'"
  }

  predicate AcceptedState(state: Value) {
    state == Str("established") || state == Str("closed")
  }

  /** The event's `flow` object, `{}` when absent. */
  function FlowOf(entry: map<string, Value>): Value {
    GetOr(entry, "flow", Obj(map[]))
  }

  /** `extract_flow_features(log_entry)`. */
  function ExtractFlowFeatures(entry: Value): (x: Extraction)
    ensures x.Emit? ==> Number(x.record.flowAge).Some? && Number(x.record.flowAge).value >= MinFlowAge as real
    ensures x.Emit? ==> AcceptedState(x.record.flowState)
    ensures x.Emit? ==> entry.Obj?
    ensures x.Emit? && entry.Obj? ==>
      && x.record.timestamp == GetOr(entry.fields, "timestamp", Null)
      && x.record.flowId == GetOr(entry.fields, "flow_id", Null)
      && x.record.srcIp == GetOr(entry.fields, "src_ip", Null)
      && x.record.destIp == GetOr(entry.fields, "dest_ip", Null)
      && x.record.srcPort == GetOr(entry.fields, "src_port", Null)
      && x.record.destPort == GetOr(entry.fields, "dest_port", Null)
      && x.record.proto == GetOr(entry.fields, "proto", Null)
  {
    if !entry.Obj? then Raise(AttributeErrorText(entry, "get"))
    else if GetOr(entry.fields, "event_type", Null) != Str("flow") then Skip
    else
      var flow := FlowOf(entry.fields);
      if !flow.Obj? then Raise(AttributeErrorText(flow, "get"))
      else
        var age := GetOr(flow.fields, "age", Int(0));
        if Number(age).None? then Raise(CompareErrorText(age))
        else if Number(age).value < MinFlowAge as real then Skip
        else
          var state := GetOr(flow.fields, "state", Str(""));
          if !AcceptedState(state) then Skip
          else Emit(FlowRecord(
            GetOr(entry.fields, "timestamp", Null),
            GetOr(entry.fields, "flow_id", Null),
            GetOr(entry.fields, "src_ip", Null),
            GetOr(entry.fields, "dest_ip", Null),
            GetOr(entry.fields, "src_port", Null),
            GetOr(entry.fields, "dest_port", Null),
            GetOr(entry.fields, "proto", Null),
            age,
            state,
            GetOr(flow.fields, "pkts_toserver", Int(0)),
            GetOr(flow.fields, "pkts_toclient", Int(0)),
            GetOr(flow.fields, "bytes_toserver", Int(0)),
            GetOr(flow.fields, "bytes_toclient", Int(0))))
  }

  /** The events the filter admits, stated without reference to the extraction's branches. */
  predicate Admissible(entry: Value) {
    && entry.Obj?
    && GetOr(entry.fields, "event_type", Null) == Str("flow")
    && FlowOf(entry.fields).Obj?
    && Number(GetOr(FlowOf(entry.fields).fields, "age", Int(0))).Some?
    && Number(GetOr(FlowOf(entry.fields).fields, "age", Int(0))).value >= 5.0
    && AcceptedState(GetOr(FlowOf(entry.fields).fields, "state", Str("")))
  }

  /** A record is produced exactly for admissible events. */
  lemma EmitIffAdmissible(entry: Value)
    ensures ExtractFlowFeatures(entry).Emit? <==> Admissible(entry)
  {
  }

  /** A dict event that is not a flow event is skipped before its `flow` member is looked at. */
  lemma NonFlowSkipped(entry: Value)
    requires entry.Obj? && GetOr(entry.fields, "event_type", Null) != Str("flow")
    ensures ExtractFlowFeatures(entry) == Skip
  {
  }

  /** A flow younger than 5 s, or in a state other than established or closed, is skipped, not an error. */
  lemma FilteredOut(entry: Value)
    requires entry.Obj? && FlowOf(entry.fields).Obj?
    requires Number(GetOr(FlowOf(entry.fields).fields, "age", Int(0))).Some?
    requires || Number(GetOr(FlowOf(entry.fields).fields, "age", Int(0))).value < 5.0
             || !AcceptedState(GetOr(FlowOf(entry.fields).fields, "state", Str("")))
    ensures ExtractFlowFeatures(entry) == Skip
  {
  }

  /** Counters missing from the flow object are reported as 0; present ones are copied unchanged. */
  lemma CountersDefaultToZero(entry: Value)
    requires ExtractFlowFeatures(entry).Emit?
    ensures var r := ExtractFlowFeatures(entry).record;
      var flow := FlowOf(entry.fields).fields;
      && r.pktsToServer == GetOr(flow, "pkts_toserver", Int(0))
      && r.pktsToClient == GetOr(flow, "pkts_toclient", Int(0))
      && r.bytesToServer == GetOr(flow, "bytes_toserver", Int(0))
      && r.bytesToClient == GetOr(flow, "bytes_toclient", Int(0))
  {
  }

  /** Every key of the posted dict. */
  const RecordKeys: set<string> := {
    "timestamp", "flow_id", "src_ip", "dest_ip", "src_port", "dest_port", "proto",
    "flow_age", "flow_state", "pkts_toserver", "pkts_toclient", "bytes_toserver", "bytes_toclient"
  }

  /** The record as the dict that is posted. */
  function RecordJson(r: FlowRecord): map<string, Value> {
    map[
      "timestamp" := r.timestamp, "flow_id" := r.flowId,
      "src_ip" := r.srcIp, "dest_ip" := r.destIp,
      "src_port" := r.srcPort, "dest_port" := r.destPort, "proto" := r.proto,
      "flow_age" := r.flowAge, "flow_state" := r.flowState,
      "pkts_toserver" := r.pktsToServer, "pkts_toclient" := r.pktsToClient,
      "bytes_toserver" := r.bytesToServer, "bytes_toclient" := r.bytesToClient
    ]
  }

  /** Reading a posted dict back, as the receiving side does key by key. */
  function ParseRecord(m: map<string, Value>): Option<FlowRecord> {
    if RecordKeys <= m.Keys then
      Some(FlowRecord(
        m["timestamp"], m["flow_id"], m["src_ip"], m["dest_ip"],
        m["src_port"], m["dest_port"], m["proto"],
        m["flow_age"], m["flow_state"],
        m["pkts_toserver"], m["pkts_toclient"], m["bytes_toserver"], m["bytes_toclient"]))
    else None
  }

  /** The posted dict has exactly the 13 keys, and every field can be read back from it. */
  lemma RecordJsonRoundTrip(r: FlowRecord)
    ensures RecordJson(r).Keys == RecordKeys
    ensures ParseRecord(RecordJson(r)) == Some(r)
  {
    var m := RecordJson(r);
    assert m.Keys == RecordKeys;
    assert RecordKeys <= m.Keys;
  }

  // ---------------------------------------------------------------------
  // send_to_device2

  /**
   * `send_to_device2(flow_data)` given device 2's answer: True for a 200 whose
   * body is a dict, except that a body flagged malicious must also carry an
   * `attack_type` and a numeric `confidence` for the log line to format.
   */
  function SendToDevice2(answer: HttpOutcome): (delivered: bool)
    ensures delivered ==> answer.Response? && answer.status == 200 && answer.body.Ok? && answer.body.value.Obj?
  {
    match answer
    case Unreachable(_) => false
    case Response(status, body) =>
      status == 200 && body.Ok? && body.value.Obj? &&
      var result := body.value.fields;
      (Truthy(GetOr(result, "is_malicious", Null)) ==>
        "attack_type" in result && "confidence" in result && Number(result["confidence"]).Some?)
  }

  /** A 200 answer whose dict does not flag the flow malicious always counts as delivered. */
  lemma BenignAnswerDelivered(answer: HttpOutcome)
    requires answer.Response? && answer.status == 200 && answer.body.Ok? && answer.body.value.Obj?
    requires !Truthy(GetOr(answer.body.value.fields, "is_malicious", Null))
    ensures SendToDevice2(answer)
  {
  }

  // ---------------------------------------------------------------------
  // stream_eve_log

  /** What one log line leads to: the record posted for it, if any. */
  function Posted(loads: string -> Result<Value, string>, line: string): seq<Value> {
    match loads(PyText.Strip(line))
    case Err(_) => []
    case Ok(entry) =>
      match ExtractFlowFeatures(entry)
      case Emit(record) => [Obj(RecordJson(record))]
      case _ => []
  }

  /** The records posted for a run of lines, in line order. */
  function Emissions(loads: string -> Result<Value, string>, lines: seq<string>): seq<Value> {
    if lines == [] then [] else Emissions(loads, lines[..|lines| - 1]) + Posted(loads, lines[|lines| - 1])
  }

  /** The posts for consecutive runs of lines are the posts for each run, in order. */
  lemma {:induction false} EmissionsAppend(loads: string -> Result<Value, string>, a: seq<string>, b: seq<string>)
    ensures Emissions(loads, a + b) == Emissions(loads, a) + Emissions(loads, b)
  {
    if b == [] {
      assert a + b == a;
    } else {
      var front := b[..|b| - 1];
      var last := b[|b| - 1];
      assert (a + b)[..|a + b| - 1] == a + front;
      assert (a + b)[|a + b| - 1] == last;
      assert Emissions(loads, a + b) == Emissions(loads, a + front) + Posted(loads, last);
      assert Emissions(loads, b) == Emissions(loads, front) + Posted(loads, last);
      EmissionsAppend(loads, a, front);
    }
  }

  /** Each line causes at most one post. */
  lemma {:induction false} EmissionsBound(loads: string -> Result<Value, string>, lines: seq<string>)
    ensures |Emissions(loads, lines)| <= |lines|
  {
    if lines != [] {
      EmissionsBound(loads, lines[..|lines| - 1]);
    }
  }

  /** The posted dict reads back as a record that passed the state filter. */
  predicate IsRecord(v: Value) {
    v.Obj? && ParseRecord(v.fields).Some? && AcceptedState(ParseRecord(v.fields).value.flowState)
  }

  lemma PostedAreRecords(loads: string -> Result<Value, string>, line: string)
    ensures forall k :: 0 <= k < |Posted(loads, line)| ==> IsRecord(Posted(loads, line)[k])
  {
    if Posted(loads, line) != [] {
      var r := ExtractFlowFeatures(loads(PyText.Strip(line)).value).record;
      RecordJsonRoundTrip(r);
    }
  }

  /** One more line adds its own posts after those of the lines before it. */
  lemma EmissionsStep(loads: string -> Result<Value, string>, lines: seq<string>, line: string)
    ensures Emissions(loads, lines + [line]) == Emissions(loads, lines) + Posted(loads, line)
  {
    assert (lines + [line])[..|lines|] == lines;
  }

  /** Every posted record passed the filter: it is one of the extractor's records. */
  lemma {:induction false} EmissionsAreRecords(loads: string -> Result<Value, string>, lines: seq<string>)
    ensures forall k :: 0 <= k < |Emissions(loads, lines)| ==> IsRecord(Emissions(loads, lines)[k])
  {
    if lines != [] {
      var front := lines[..|lines| - 1];
      var last := lines[|lines| - 1];
      EmissionsAreRecords(loads, front);
      PostedAreRecords(loads, last);
      var e := Emissions(loads, lines);
      var a := Emissions(loads, front);
      var b := Posted(loads, last);
      assert e == a + b;
      forall k | 0 <= k < |e|
        ensures IsRecord(e[k])
      {
        if k < |a| {
          assert e[k] == a[k];
        } else {
          assert e[k] == b[k - |a|];
        }
      }
    }
  }

  /** One delivery outcome per post, each the outcome of sending that post. */
  predicate Reported(device2: Value -> HttpOutcome, posted: seq<Value>, delivered: seq<bool>) {
    |delivered| == |posted| && forall k :: 0 <= k < |posted| ==> delivered[k] == SendToDevice2(device2(posted[k]))
  }

  /** Sending one more record adds its outcome after the others. */
  lemma ReportedExtend(device2: Value -> HttpOutcome, posted: seq<Value>, delivered: seq<bool>, record: Value, ok: bool)
    requires Reported(device2, posted, delivered) && ok == SendToDevice2(device2(record))
    ensures Reported(device2, posted + [record], delivered + [ok])
  {
  }

  /**
   * `stream_eve_log()` over a finite log: the file holds `atOpen` when it is
   * opened and `appended` is written afterwards. Reading starts at the end of
   * `atOpen`, every line of `appended` is read once, in order; a line that is
   * not JSON or whose extraction raises is passed over, and a failed delivery
   * does not stop the loop.
   */
  method StreamEveLog(loads: string -> Result<Value, string>, device2: Value -> HttpOutcome,
                      atOpen: seq<string>, appended: seq<string>)
    returns (posted: seq<Value>, delivered: seq<bool>)
    ensures posted == Emissions(loads, appended)
    ensures Reported(device2, posted, delivered)
  {
    var file := atOpen + appended;
    var position := |atOpen|;
    posted, delivered := [], [];
    while position < |file|
      invariant |atOpen| <= position <= |file|
      invariant posted == Emissions(loads, appended[..position - |atOpen|])
      invariant Reported(device2, posted, delivered)
    {
      var line := file[position];
      assert line == appended[position - |atOpen|];
      assert appended[..position + 1 - |atOpen|] == appended[..position - |atOpen|] + [line];
      EmissionsStep(loads, appended[..position - |atOpen|], line);
      position := position + 1;
      var parsed := loads(PyText.Strip(line));
      if parsed.Ok? {
        var extracted := ExtractFlowFeatures(parsed.value);
        if extracted.Emit? {
          var record := Obj(RecordJson(extracted.record));
          var ok := SendToDevice2(device2(record));
          ReportedExtend(device2, posted, delivered, record, ok);
          posted := posted + [record];
          delivered := delivered + [ok];
        }
      }
    }
    assert appended[..|appended|] == appended;
  }
}
