/**
 * The feature vectors device 2 hands to its trained classifier. A received
 * flow record is reduced to five counters, a table of derived features is
 * computed from them (every denominator floored at 1), and the table is laid
 * out in the order of the classifier's own feature-name list, with 0.0 for
 * every name the table does not define.
 */
module Features {
  import opened Wrappers
  import opened Json

  /** The label the label encoder gives benign traffic. */
  const Benign: string := "BENIGN"

  /** What scaling, `predict`, `inverse_transform` and `predict_proba(...).max()` give, or the exception one of them raised. */
  datatype Verdict = Labelled(predicted: string, confidence: real) | Failed(text: string)

  /** The loaded model artifacts: the feature-name list and the opaque classification pipeline. */
  datatype Classifier = Classifier(featureNames: seq<string>, classify: seq<real> -> Verdict)

  /** The counters of a flow record, as numbers. */
  datatype Counters = Counters(
    pktsToServer: real, pktsToClient: real,
    bytesToServer: real, bytesToClient: real,
    flowAge: real)

  /** Stands in for the text of the TypeError raised when a counter is not a number. */
  const NotANumber: string := "unsupported operand type(s)"

  /** The record keys the counters are read from. */
  const CounterKeys: seq<string> := ["pkts_toserver", "pkts_toclient", "bytes_toserver", "bytes_toclient", "flow_age"]

  predicate Numeric(flow: map<string, Value>, key: string) {
    key in flow && Number(flow[key]).Some?
  }

  /** Python's `+` on two texts or two lists joins them without raising. */
  predicate Joinable(x: Value, y: Value) {
    (x.Str? && y.Str?) || (x.Arr? && y.Arr?)
  }

  /** `x + y` does not raise: both are numbers, or both texts, or both lists. */
  predicate Addable(x: Value, y: Value) {
    (Number(x).Some? && Number(y).Some?) || Joinable(x, y)
  }

  /**
   * `flow[a] + flow[b]`: both subscripts are evaluated before the addition.
   * A joined text or list is `Ok(None)`: the TypeError for it comes only
   * later, when the sum is divided, after the remaining keys are read.
   */
  function ReadPair(flow: map<string, Value>, a: string, b: string): Result<Option<(real, real)>, string> {
    if a !in flow then Err(KeyErrorText(a))
    else if b !in flow then Err(KeyErrorText(b))
    else if Number(flow[a]).Some? && Number(flow[b]).Some? then Ok(Some((Number(flow[a]).value, Number(flow[b]).value)))
    else if Joinable(flow[a], flow[b]) then Ok(None)
    else Err(NotANumber)
  }

  /** The counter reads at the head of the feature conversion, in source order, with the exception each can raise. */
  function ReadCounters(flow: map<string, Value>): Result<Counters, string> {
    match ReadPair(flow, "pkts_toserver", "pkts_toclient")
    case Err(e) => Err(e)
    case Ok(pkts) =>
      match ReadPair(flow, "bytes_toserver", "bytes_toclient")
      case Err(e) => Err(e)
      case Ok(bytes) =>
        if "flow_age" !in flow then Err(KeyErrorText("flow_age"))
        else if Number(flow["flow_age"]).None? || pkts.None? || bytes.None? then Err(NotANumber)
        else Ok(Counters(pkts.value.0, pkts.value.1, bytes.value.0, bytes.value.1, Number(flow["flow_age"]).value))
  }

  /**
   * A missing key is the KeyError reported, provided every key before it is
   * present and every sum before it does not raise (two texts or two lists
   * are joined, so a later missing key still wins over their TypeError).
   */
  lemma MissingKeyReported(flow: map<string, Value>, i: nat)
    requires i < |CounterKeys| && CounterKeys[i] !in flow
    requires forall j :: 0 <= j < i ==> CounterKeys[j] in flow
    requires i >= 2 ==> Addable(GetOr(flow, "pkts_toserver", Null), GetOr(flow, "pkts_toclient", Null))
    requires i >= 4 ==> Addable(GetOr(flow, "bytes_toserver", Null), GetOr(flow, "bytes_toclient", Null))
    ensures ReadCounters(flow) == Err(KeyErrorText(CounterKeys[i]))
  {
    if i >= 1 { assert CounterKeys[0] in flow; }
    if i >= 2 { assert CounterKeys[1] in flow; }
    if i >= 3 { assert CounterKeys[2] in flow; }
    if i >= 4 { assert CounterKeys[3] in flow; }
  }

  /** With all five keys present, the only exception the reads can raise is the TypeError. */
  lemma PresentKeysOnlyTypeError(flow: map<string, Value>)
    requires forall k :: 0 <= k < |CounterKeys| ==> CounterKeys[k] in flow
    ensures ReadCounters(flow).Err? ==> ReadCounters(flow).error == NotANumber
  {
    assert CounterKeys[0] in flow && CounterKeys[1] in flow && CounterKeys[2] in flow;
    assert CounterKeys[3] in flow && CounterKeys[4] in flow;
  }

  /** The counters can be read exactly when all five keys hold numbers. */
  lemma ReadCountersSucceeds(flow: map<string, Value>)
    ensures ReadCounters(flow).Ok? <==> forall k :: 0 <= k < |CounterKeys| ==> Numeric(flow, CounterKeys[k])
  {
    if forall k :: 0 <= k < |CounterKeys| ==> Numeric(flow, CounterKeys[k]) {
      assert Numeric(flow, CounterKeys[0]) && Numeric(flow, CounterKeys[1]) && Numeric(flow, CounterKeys[2]);
      assert Numeric(flow, CounterKeys[3]) && Numeric(flow, CounterKeys[4]);
    }
  }

  /** Python's `max(x, 1)`: never below 1, so it is always a safe denominator. */
  function Max1(x: real): (m: real)
    ensures m >= 1.0 && m >= x
    ensures m == x || m == 1.0
  {
    if x >= 1.0 then x else 1.0
  }

  /** The 18 features `convert_to_77_features` derives from the counters. */
  function Derived18(c: Counters): map<string, real> {
    var age := Max1(c.flowAge);
    var packets := c.pktsToServer + c.pktsToClient;
    var bytes := c.bytesToServer + c.bytesToClient;
    map[
      "Flow_Duration" := age * 1000000.0,
      "Total_Fwd_Packets" := c.pktsToServer,
      "Total_Backward_Packets" := c.pktsToClient,
      "Total_Length_of_Fwd_Packets" := c.bytesToServer,
      "Total_Length_of_Bwd_Packets" := c.bytesToClient,
      "Flow_Bytes_s" := bytes / age,
      "Flow_Packets_s" := packets / age,
      "Flow_IAT_Mean" := (age * 1000000.0) / Max1(packets),
      "Fwd_IAT_Mean" := (age * 1000000.0) / Max1(c.pktsToServer),
      "Bwd_IAT_Mean" := (age * 1000000.0) / Max1(c.pktsToClient),
      "Fwd_Packet_Length_Mean" := c.bytesToServer / Max1(c.pktsToServer),
      "Bwd_Packet_Length_Mean" := c.bytesToClient / Max1(c.pktsToClient),
      "Packet_Length_Mean" := bytes / Max1(packets),
      "Packet_Length_Std" := 0.0,
      "Packet_Length_Variance" := 0.0,
      "Average_Packet_Size" := bytes / Max1(packets),
      "Fwd_Header_Length" := c.pktsToServer * 20.0,
      "Bwd_Header_Length" := c.pktsToClient * 20.0
    ]
  }

  /** The 7 features `analyze_network_flow` derives from the counters. */
  function Derived7(c: Counters): map<string, real> {
    var age := Max1(c.flowAge);
    var packets := c.pktsToServer + c.pktsToClient;
    var bytes := c.bytesToServer + c.bytesToClient;
    map[
      "Flow_Duration" := age * 1000000.0,
      "Total_Fwd_Packets" := c.pktsToServer,
      "Total_Backward_Packets" := c.pktsToClient,
      "Total_Length_of_Fwd_Packets" := c.bytesToServer,
      "Total_Length_of_Bwd_Packets" := c.bytesToClient,
      "Flow_Bytes_s" := bytes / age,
      "Flow_Packets_s" := packets / age
    ]
  }

  /** The seven features of the tool are the same computation as the first seven of the receiver. */
  lemma Derived7AgreesWith18(c: Counters)
    ensures Derived7(c).Keys < Derived18(c).Keys
    ensures forall k :: k in Derived7(c) ==> Derived18(c)[k] == Derived7(c)[k]
  {
    assert "Fwd_Header_Length" in Derived18(c).Keys - Derived7(c).Keys;
  }

  lemma DivNonNegative(x: real, y: real)
    requires x >= 0.0 && y >= 1.0
    ensures x / y >= 0.0
  {
  }

  /**
   * With non-negative counters every derived feature is a non-negative real,
   * so the NaN/infinity scrub applied to the vector changes nothing.
   */
  lemma DerivedNonNegative(c: Counters)
    requires c.pktsToServer >= 0.0 && c.pktsToClient >= 0.0
    requires c.bytesToServer >= 0.0 && c.bytesToClient >= 0.0
    ensures forall k :: k in Derived18(c) ==> Derived18(c)[k] >= 0.0
  {
    var age := Max1(c.flowAge);
    var packets := c.pktsToServer + c.pktsToClient;
    var bytes := c.bytesToServer + c.bytesToClient;
    DivNonNegative(bytes, age);
    DivNonNegative(packets, age);
    DivNonNegative(age * 1000000.0, Max1(packets));
    DivNonNegative(age * 1000000.0, Max1(c.pktsToServer));
    DivNonNegative(age * 1000000.0, Max1(c.pktsToClient));
    DivNonNegative(c.bytesToServer, Max1(c.pktsToServer));
    DivNonNegative(c.bytesToClient, Max1(c.pktsToClient));
    DivNonNegative(bytes, Max1(packets));
  }

  /** `features_dict[fname]` once every missing name has been set to 0.0. */
  function Lookup(table: map<string, real>, name: string): real {
    if name in table then table[name] else 0.0
  }

  /** The feature vector: one entry per name, in the list's order. */
  function Vector(names: seq<string>, table: map<string, real>): (v: seq<real>)
    ensures |v| == |names|
    ensures forall i :: 0 <= i < |names| ==> v[i] == Lookup(table, names[i])
  {
    if names == [] then [] else [Lookup(table, names[0])] + Vector(names[1..], table)
  }

  /**
   * The fill-then-order loops shared by both feature builders: every name not
   * in the table is added with 0.0, then the values are listed in name order.
   */
  method FillAndOrder(names: seq<string>, table: map<string, real>) returns (v: seq<real>)
    ensures v == Vector(names, table)
  {
    var filled := table;
    for i := 0 to |names|
      invariant table.Keys <= filled.Keys
      invariant forall k :: k in table ==> filled[k] == table[k]
      invariant forall k :: k in filled && k !in table ==> filled[k] == 0.0
      invariant forall j :: 0 <= j < i ==> names[j] in filled
    {
      if names[i] !in filled {
        filled := filled[names[i] := 0.0];
      }
    }
    v := [];
    for i := 0 to |names|
      invariant |v| == i
      invariant forall j :: 0 <= j < i ==> v[j] == Lookup(table, names[j])
    {
      v := v + [filled[names[i]]];
    }
  }
}
