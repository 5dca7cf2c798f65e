/**
 * device1/device1_api.py: the HTTP query endpoints over Suricata's EVE log.
 * The log file is given as its existence flag and the outcome of reading it
 * (its lines, or the text of the exception `open` raised); `json.loads` is a
 * parameter whose error stands for JSONDecodeError.
 */
module Device1Api {
  import opened Wrappers
  import opened Json
  import PyText

  const EveLogPath: string := "/var/log/suricata/eve.json"

  /** A handler's answer: the status code and the dict `jsonify` encodes. */
  datatype Reply = Reply(status: int, body: Value)

  function ErrorBody(text: string): Value {
    Obj(map["error" := Str(text)])
  }

  function Min(a: int, b: int): int {
    if a <= b then a else b
  }

  // ---------------------------------------------------------------------
  // get_suricata_logs

  /** Python's start index for the slice `lines[-count*2:]` of `n` lines. */
  function WindowStart(count: int, n: nat): (start: nat)
    ensures start <= n
    ensures count >= 1 ==> n - start == Min(2 * count, n)
    ensures count == 0 ==> start == 0
    ensures count < 0 ==> start == Min(-2 * count, n)
  {
    var k := -count * 2;
    if k < 0 then (if n + k < 0 then 0 else n + k)
    else if k > n then n else k
  }

  /** The lines the handler looks at. */
  function Window(count: int, lines: seq<string>): seq<string> {
    lines[WindowStart(count, |lines|)..]
  }

  /** What one line of the window contributes: nothing, a record, or an exception that aborts the request. */
  datatype Step = Skipped | Kept(record: Value) | Broken(text: string)

  /** The record built for a flow event; nested counters default to 0 and the state to 'unknown'. */
  function FlowRecord(log: map<string, Value>, flow: map<string, Value>): Value {
    Obj(map[
      "timestamp" := GetOr(log, "timestamp", Null),
      "src_ip" := GetOr(log, "src_ip", Null),
      "dest_ip" := GetOr(log, "dest_ip", Null),
      "src_port" := GetOr(log, "src_port", Null),
      "dest_port" := GetOr(log, "dest_port", Null),
      "proto" := GetOr(log, "proto", Null),
      "flow_age" := GetOr(flow, "age", Int(0)),
      "pkts_toserver" := GetOr(flow, "pkts_toserver", Int(0)),
      "pkts_toclient" := GetOr(flow, "pkts_toclient", Int(0)),
      "bytes_toserver" := GetOr(flow, "bytes_toserver", Int(0)),
      "bytes_toclient" := GetOr(flow, "bytes_toclient", Int(0)),
      "flow_state" := GetOr(flow, "state", Str("unknown"))])
  }

  /**
   * The body of the `try`: undecodable lines and non-flow events are skipped;
   * `.get` on a decoded value that is not a dict raises AttributeError, which
   * only the outer handler catches.
   */
  function LogStep(loads: string -> Result<Value, string>, line: string): Step {
    match loads(PyText.Strip(line))
    case Err(_) => Skipped
    case Ok(log) =>
      if !log.Obj? then Broken(AttributeErrorText(log, "get"))
      else if GetOr(log.fields, "event_type", Null) != Str("flow") then Skipped
      else
        var flow := GetOr(log.fields, "flow", Obj(map[]));
        if !flow.Obj? then Broken(AttributeErrorText(flow, "get"))
        else Kept(FlowRecord(log.fields, flow.fields))
  }

  /**
   * The loop over `reversed(window)` with `logs` collected so far: the newest
   * line is taken first, and the loop breaks once `count` records are held.
   */
  function Scan(step: string -> Step, window: seq<string>, count: int, logs: seq<Value>)
    : Result<seq<Value>, string>
    decreases |window|
  {
    if window == [] then Ok(logs)
    else match step(window[|window| - 1])
      case Skipped => Scan(step, window[..|window| - 1], count, logs)
      case Broken(e) => Err(e)
      case Kept(r) =>
        if |logs| + 1 >= count then Ok(logs + [r])
        else Scan(step, window[..|window| - 1], count, logs + [r])
  }

  /** `LogStep` for a fixed `json.loads`. */
  function LogSteps(loads: string -> Result<Value, string>): string -> Step {
    line => LogStep(loads, line)
  }

  /** The 404 body for a missing log file. */
  function MissingLogBody(): Value {
    Obj(map["error" := Str("EVE log file not found"), "path" := Str(EveLogPath)])
  }

  /** The 200 body: the records and their number. */
  function LogsBody(logs: seq<Value>): Value {
    Obj(map["logs" := Arr(logs), "count" := Int(|logs|)])
  }

  /** The reply of `get_suricata_logs` for query parameter `count`. */
  function LogsReply(count: int, present: bool, file: Result<seq<string>, string>, loads: string -> Result<Value, string>): Reply {
    if !present then Reply(404, MissingLogBody())
    else match file
      case Err(e) => Reply(500, ErrorBody(e))
      case Ok(lines) =>
        match Scan(LogSteps(loads), Window(count, lines), count, [])
        case Err(e) => Reply(500, ErrorBody(e))
        case Ok(logs) => Reply(200, LogsBody(logs))
  }

  /** The loop over `reversed(window)`: newest line first, stopping at the first exception or once `count` records are held. */
  method ScanWindow(step: string -> Step, window: seq<string>, count: int) returns (result: Result<seq<Value>, string>)
    ensures result == Scan(step, window, count, [])
  {
    var logs: seq<Value> := [];
    var i := |window|;
    assert window[..i] == window;
    while i > 0
      invariant 0 <= i <= |window|
      invariant Scan(step, window, count, []) == Scan(step, window[..i], count, logs)
      decreases i
    {
      assert window[..i][..i - 1] == window[..i - 1];
      var outcome := step(window[i - 1]);
      if outcome.Broken? {
        return Err(outcome.text);
      }
      if outcome.Kept? {
        logs := logs + [outcome.record];
        if |logs| >= count {
          return Ok(logs);
        }
      }
      i := i - 1;
    }
    return Ok(logs);
  }

  /** `get_suricata_logs()`. */
  method GetSuricataLogs(count: int, present: bool, file: Result<seq<string>, string>, loads: string -> Result<Value, string>)
    returns (reply: Reply)
    ensures reply == LogsReply(count, present, file, loads)
  {
    if !present {
      return Reply(404, MissingLogBody());
    }
    if file.Err? {
      return Reply(500, ErrorBody(file.error));
    }
    var logs := ScanWindow(LogSteps(loads), Window(count, file.value), count);
    if logs.Err? {
      return Reply(500, ErrorBody(logs.error));
    }
    reply := Reply(200, LogsBody(logs.value));
  }

  // The reference the loop is measured against.

  /** Every flow record of the window, newest first, with no cap. */
  function Flows(step: string -> Step, window: seq<string>): seq<Value> {
    if window == [] then []
    else
      var newest := match step(window[|window| - 1]) case Kept(r) => [r] case _ => [];
      newest + Flows(step, window[..|window| - 1])
  }

  /** No line of the window raises. */
  predicate Readable(step: string -> Step, window: seq<string>) {
    forall i :: 0 <= i < |window| ==> !step(window[i]).Broken?
  }

  /** How many more records the loop may still take: `count - taken`, but at least one. */
  function Room(count: int, taken: nat): int {
    if count - taken >= 1 then count - taken else 1
  }

  /**
   * On a readable window the loop returns what it already held followed by
   * the newest flow records, as many as there is room for; an error is the
   * text of some line's exception.
   */
  lemma {:induction false} ScanSelects(step: string -> Step, window: seq<string>, count: int, logs: seq<Value>)
    requires logs == [] || |logs| < count
    ensures Readable(step, window) ==>
      Scan(step, window, count, logs)
        == Ok(logs + Flows(step, window)[..Min(|Flows(step, window)|, Room(count, |logs|))])
    ensures Scan(step, window, count, logs).Err? ==>
      exists i :: 0 <= i < |window| && step(window[i]) == Broken(Scan(step, window, count, logs).error)
  {
    if window != [] {
      var older := window[..|window| - 1];
      var flows := Flows(step, window);
      assert forall i :: 0 <= i < |older| ==> older[i] == window[i];
      var last := |window| - 1;
      match step(window[last])
      case Skipped =>
        assert flows == Flows(step, older);
        assert Scan(step, window, count, logs) == Scan(step, older, count, logs);
        ScanSelects(step, older, count, logs);
        if Scan(step, window, count, logs).Err? {
          var i :| 0 <= i < |older| && step(older[i]) == Broken(Scan(step, window, count, logs).error);
          assert window[i] == older[i];
        }
      case Broken(e) =>
        assert Scan(step, window, count, logs) == Err(e);
        assert step(window[last]) == Broken(e);
      case Kept(r) =>
        assert flows == [r] + Flows(step, older);
        if |logs| + 1 >= count {
          assert flows[..Min(|flows|, Room(count, |logs|))] == [r];
        } else {
          assert Scan(step, window, count, logs) == Scan(step, older, count, logs + [r]);
          ScanSelects(step, older, count, logs + [r]);
          var m := Min(|flows|, Room(count, |logs|));
          assert m - 1 == Min(|Flows(step, older)|, Room(count, |logs| + 1));
          assert flows[..m] == [r] + Flows(step, older)[..m - 1];
          assert logs + [r] + Flows(step, older)[..m - 1] == logs + flows[..m];
          assert Readable(step, window) ==> Readable(step, older);
          if Scan(step, window, count, logs).Err? {
            var i :| 0 <= i < |older| && step(older[i]) == Broken(Scan(step, window, count, logs).error);
            assert window[i] == older[i];
          }
        }
    } else {
      assert logs + [] == logs;
    }
  }

  /**
   * Once `count` records have been found, older lines are never looked at:
   * even lines that would raise cannot change the reply.
   */
  lemma {:induction false} ScanStopsAtCap(step: string -> Step, older: seq<string>, newer: seq<string>, count: int, logs: seq<Value>)
    requires logs == [] || |logs| < count
    requires Readable(step, newer) && |Flows(step, newer)| >= Room(count, |logs|)
    ensures Scan(step, older + newer, count, logs) == Scan(step, newer, count, logs)
  {
    var all := older + newer;
    var front := newer[..|newer| - 1];
    assert all[|all| - 1] == newer[|newer| - 1];
    assert all[..|all| - 1] == older + front;
    assert forall i :: 0 <= i < |front| ==> front[i] == newer[i];
    assert !step(newer[|newer| - 1]).Broken?;
    var outcome := step(newer[|newer| - 1]);
    if outcome.Skipped? {
      ScanStopsAtCap(step, older, front, count, logs);
    } else if |logs| + 1 < count {
      ScanStopsAtCap(step, older, front, count, logs + [outcome.record]);
    }
  }

  /**
   * The whole loop on a readable window: the newest flow records, at most
   * `count` of them (at most one when `count` is 0 or negative).
   */
  lemma WindowSelection(step: string -> Step, window: seq<string>, count: int)
    requires Readable(step, window)
    ensures var flows := Flows(step, window);
      var logs := flows[..Min(|flows|, if count >= 1 then count else 1)];
      && Scan(step, window, count, []) == Ok(logs)
      && (count >= 1 ==> |logs| <= count)
      && (count < 1 ==> |logs| <= 1)
  {
    ScanSelects(step, window, count, []);
    assert [] + Flows(step, window)[..Min(|Flows(step, window)|, Room(count, 0))]
      == Flows(step, window)[..Min(|Flows(step, window)|, Room(count, 0))];
  }

  /** A 200 reply for a readable window lists the newest flow records it selects, and their number. */
  lemma LogsSelection(count: int, lines: seq<string>, loads: string -> Result<Value, string>)
    requires Readable(LogSteps(loads), Window(count, lines))
    ensures var flows := Flows(LogSteps(loads), Window(count, lines));
      LogsReply(count, true, Ok(lines), loads)
        == Reply(200, LogsBody(flows[..Min(|flows|, if count >= 1 then count else 1)]))
  {
    WindowSelection(LogSteps(loads), Window(count, lines), count);
  }

  /** The nested fields a flow event leaves out get their defaults; the rest are copied. */
  lemma FlowRecordDefaults(log: map<string, Value>, flow: map<string, Value>)
    ensures var r := FlowRecord(log, flow).fields;
      && r["flow_age"] == (if "age" in flow then flow["age"] else Int(0))
      && r["flow_state"] == (if "state" in flow then flow["state"] else Str("unknown"))
      && r["pkts_toserver"] == (if "pkts_toserver" in flow then flow["pkts_toserver"] else Int(0))
      && r["pkts_toclient"] == (if "pkts_toclient" in flow then flow["pkts_toclient"] else Int(0))
      && r["bytes_toserver"] == (if "bytes_toserver" in flow then flow["bytes_toserver"] else Int(0))
      && r["bytes_toclient"] == (if "bytes_toclient" in flow then flow["bytes_toclient"] else Int(0))
      && r["src_ip"] == (if "src_ip" in log then log["src_ip"] else Null)
      && r["dest_ip"] == (if "dest_ip" in log then log["dest_ip"] else Null)
  {
  }

  // ---------------------------------------------------------------------
  // get_stats

  /**
   * The event type a line is counted under ('unknown' when absent), or None
   * when the bare `except` swallows the line: it does not decode, is not a
   * dict, or its type cannot be a dict key.
   */
  function EventType(loads: string -> Result<Value, string>, line: string): Option<Value> {
    match loads(PyText.Strip(line))
    case Err(_) => None
    case Ok(log) =>
      if !log.Obj? then None
      else
        var t := GetOr(log.fields, "event_type", Str("unknown"));
        if Hashable(t) then Some(t) else None
  }

  /** `EventType` for a fixed `json.loads`. */
  function EventTypes(loads: string -> Result<Value, string>): string -> Option<Value> {
    line => EventType(loads, line)
  }

  /** `event_types.get(t, 0)`. */
  function Tally(histogram: map<Value, int>, t: Value): int {
    if t in histogram then histogram[t] else 0
  }

  /** `event_types` after the loop has seen `lines`. */
  function Histogram(kind: string -> Option<Value>, lines: seq<string>): map<Value, int> {
    if lines == [] then map[]
    else
      Counted(Histogram(kind, lines[..|lines| - 1]), kind(lines[|lines| - 1]))
  }

  /** `event_types[t] = event_types.get(t, 0) + 1` for a counted line; nothing for a swallowed one. */
  function Counted(histogram: map<Value, int>, t: Option<Value>): map<Value, int> {
    match t
    case None => histogram
    case Some(key) => histogram[key := Tally(histogram, key) + 1]
  }

  /** `total_flows` after the loop has seen `lines`. */
  function FlowCount(kind: string -> Option<Value>, lines: seq<string>): nat {
    if lines == [] then 0
    else FlowCount(kind, lines[..|lines| - 1]) + (if kind(lines[|lines| - 1]) == Some(Str("flow")) then 1 else 0)
  }

  /** The number of lines counted under `t`, defined independently of the loop. */
  function Occurrences(kind: string -> Option<Value>, lines: seq<string>, t: Value): nat {
    if lines == [] then 0
    else (if kind(lines[0]) == Some(t) then 1 else 0) + Occurrences(kind, lines[1..], t)
  }

  datatype Stats = Stats(totalFlows: int, eventTypes: map<Value, int>) | StatsError(text: string)

  function StatsOf(file: Result<seq<string>, string>, loads: string -> Result<Value, string>): Stats {
    match file
    case Err(e) => StatsError(e)
    case Ok(lines) => Stats(FlowCount(EventTypes(loads), lines), Histogram(EventTypes(loads), lines))
  }

  /** `get_stats()`: one pass over the file, counting every line's event type. */
  method GetStats(file: Result<seq<string>, string>, loads: string -> Result<Value, string>) returns (stats: Stats)
    ensures stats == StatsOf(file, loads)
  {
    if file.Err? {
      return StatsError(file.error);
    }
    var lines := file.value;
    var kind := EventTypes(loads);
    var totalFlows := 0;
    var eventTypes: map<Value, int> := map[];
    for i := 0 to |lines|
      invariant totalFlows == FlowCount(kind, lines[..i])
      invariant eventTypes == Histogram(kind, lines[..i])
    {
      StatsStep(kind, lines, i);
      var t := kind(lines[i]);
      eventTypes := Counted(eventTypes, t);
      if t == Some(Str("flow")) {
        totalFlows := totalFlows + 1;
      }
    }
    assert lines[..|lines|] == lines;
    stats := Stats(totalFlows, eventTypes);
  }

  /** One more line extends the loop's two tallies by that line's event type. */
  lemma StatsStep(kind: string -> Option<Value>, lines: seq<string>, i: nat)
    requires i < |lines|
    ensures var t := kind(lines[i]);
      && Histogram(kind, lines[..i + 1]) == Counted(Histogram(kind, lines[..i]), t)
      && FlowCount(kind, lines[..i + 1]) == FlowCount(kind, lines[..i]) + (if t == Some(Str("flow")) then 1 else 0)
  {
    assert lines[..i + 1][..i] == lines[..i];
  }

  lemma {:induction false} OccurrencesAppend(kind: string -> Option<Value>, lines: seq<string>, line: string, t: Value)
    ensures Occurrences(kind, lines + [line], t)
      == Occurrences(kind, lines, t) + (if kind(line) == Some(t) then 1 else 0)
  {
    if lines != [] {
      assert (lines + [line])[1..] == lines[1..] + [line];
      OccurrencesAppend(kind, lines[1..], line, t);
    }
  }

  /**
   * Each entry of the histogram is the number of lines of that event type,
   * and the histogram holds exactly the types that occur.
   */
  lemma {:induction false} HistogramCounts(kind: string -> Option<Value>, lines: seq<string>, t: Value)
    ensures Tally(Histogram(kind, lines), t) == Occurrences(kind, lines, t)
    ensures t in Histogram(kind, lines) <==> Occurrences(kind, lines, t) > 0
  {
    if lines != [] {
      var front := lines[..|lines| - 1];
      HistogramCounts(kind, front, t);
      assert front + [lines[|lines| - 1]] == lines;
      OccurrencesAppend(kind, front, lines[|lines| - 1], t);
    }
  }

  /** `total_flows` equals the histogram's count for 'flow'. */
  lemma {:induction false} TotalFlowsIsFlowTally(kind: string -> Option<Value>, lines: seq<string>)
    ensures FlowCount(kind, lines) == Tally(Histogram(kind, lines), Str("flow"))
    ensures FlowCount(kind, lines) == Occurrences(kind, lines, Str("flow"))
  {
    if lines != [] {
      TotalFlowsIsFlowTally(kind, lines[..|lines| - 1]);
    }
    HistogramCounts(kind, lines, Str("flow"));
  }
}
