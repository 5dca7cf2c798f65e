# Intrusion-response pipeline: a Dafny model of its decision logic

The system watches network flows on one machine and reacts on another.

- **Device 1, watching:** `flow_extractor` follows Suricata's EVE log. It keeps long-lived established or closed flows and posts each one as a 13-key record to device 2.
- **Device 2, deciding:** `flow_receiver` turns the record into the classifier's feature vector. A trained classifier labels it. When the label is not `BENIGN`, a language model is asked for one Suricata rule line. A fresh rule ID (SID) is allocated, and the rule is sent back to device 1.
- **Device 1, applying:** `rule_command_client` validates the rule request and forwards a `rule-add` command to `suricata_tcp_relay`. The relay writes it to Suricata's command socket and hands the reply back.
- **Tools:** `mcp_server` exposes the same steps (analyse, generate, apply) as tools for an agent.
- **Log queries:** `device1_api` serves the newest flow events and a histogram of event types.

The model keeps the branching, defaults, error texts and loops of these components. It abstracts their surroundings:

- **JSON and UTF-8:** encoding and decoding are functions passed in (`Transport.Codec`, or a `loads` parameter).
- **Sockets:** a `Transport.Socket` object with a scripted sequence of `recv` results, a connect fault, a send fault, an outbox and a closed flag.
- **HTTP and the language model:** calls to the language model and to the other device are functions from the request to an `HttpOutcome`.
- **The classifier:** an opaque function from the feature vector to a label and confidence, or to the exception it raised.

Files:

- `wrappers.dfy`: `Option` and `Result`.
- `pytext.dfy`: the Python string operations the source relies on: `strip`, `split('\n')`, `replace('```', '')`, `startswith` with a tuple, and `str(int)`.
- `json.dfy`: decoded JSON values, `dict.get`, truthiness, and the texts of `AttributeError` and `KeyError`.
- `transport.dfy`: sockets, the codec, HTTP outcomes and the `{'return': 'NOK', ...}` reply shape.
- `flow_extractor.dfy`, `rule_command_client.dfy`, `suricata_tcp_relay.dfy`, `device1_api.dfy`: device 1.
- `features.dfy`, `rule_text.dfy`, `flow_receiver.dfy`, `mcp_server.dfy`: device 2. The first two hold the feature tables and the rule-line logic that the receiver and the tools share.
- `relay_chain.dfy`: how the two device-1 hops compare on the same input.

Three behaviours of the code worth knowing:

- **Errors look benign.** A prediction that failed (no model, or an exception) gets the same reply from `receive_flow` as benign traffic: `{'is_malicious': False, 'attack_type': 'BENIGN'}` (`FlowReceiver.FailClosedLooksBenign`).
- **Outbound sockets are closed explicitly only on success.** The sockets opened by `send_to_suricata_relay` and `send_command_to_suricata` get an explicit `close()` only when the read loop finishes. On a connect, send or receive failure they are not closed explicitly; being local variables, they are left to the interpreter's finaliser when the function returns. `closed` in the model records explicit `close()` calls only (see the ensures of `RuleCommandClient.SendToSuricataRelay` and `SuricataTcpRelay.SendCommandToSuricata`). The client sockets are closed explicitly on every path.
- **The status key is `return`.** Every hop reports its status under `'return'` (`'OK'`/`'NOK'`).

## Model

| member | source | states |
|---|---|---|
| FlowExtractor.ExtractFlowFeatures | device1/flow_extractor.py:28-64 | an emitted record comes from a dict entry whose flow age is a number of at least 5 and whose state is `established` or `closed`; timestamp, flow id, addresses, ports and protocol are copied from the entry (absent ones as None) |
| FlowExtractor.EmitIffAdmissible | device1/flow_extractor.py:35-48 | a record is emitted exactly when the entry is a flow event, its age (0 when absent) is at least `MIN_FLOW_AGE` and its state (`''` when absent) is accepted |
| FlowExtractor.NonFlowSkipped | device1/flow_extractor.py:35-36 | a dict event that is not a flow event yields nothing, whatever its `flow` member holds |
| FlowExtractor.FilteredOut | device1/flow_extractor.py:38-48 | a flow younger than 5 s, or in a state other than established or closed, yields nothing |
| FlowExtractor.CountersDefaultToZero | device1/flow_extractor.py:59-62 | the four packet and byte counters of an emitted record are the flow's, or 0 when missing |
| FlowExtractor.RecordJsonRoundTrip | device1/flow_extractor.py:50-64 | the posted dict has exactly the 13 listed keys, and the record can be read back from it |
| FlowExtractor.SendToDevice2 | device1/flow_extractor.py:67-112 | delivery counts as successful only for an HTTP 200 answer whose body decodes to a dict; a timeout, a connection error, any other status or an undecodable body reports failure |
| FlowExtractor.BenignAnswerDelivered | device1/flow_extractor.py:84-99 | a 200 answer holding a dict that does not flag the flow malicious always counts as delivered |
| FlowExtractor.EmissionsAppend | device1/flow_extractor.py:140-162 | the records posted for a log are those of its first part followed by those of the rest, so sends follow file order |
| FlowExtractor.EmissionsBound | device1/flow_extractor.py:140-162 | each line causes at most one send |
| FlowExtractor.EmissionsAreRecords | device1/flow_extractor.py:140-162 | everything posted is a dict that reads back as a complete 13-key record in an accepted state |
| FlowExtractor.StreamEveLog | device1/flow_extractor.py:115-162 | the loop posts exactly the records of the lines appended after start-up (lines present at start-up are skipped by seeking to the end), in order, and one delivery outcome is recorded per post whatever the previous ones were |
| FlowReceiver.SidAllocator.constructor | device2/flow_receiver.py:34 | the counter starts at 900000001 with nothing issued |
| FlowReceiver.SidAllocator.GetNextSid | device2/flow_receiver.py:53-59 | returns the current counter and increments it by exactly 1; the new ID is larger than every ID issued before |
| FlowReceiver.Features77Shape | device2/flow_receiver.py:72-104 | the vector has one entry per feature name, in the names' order: the derived value for the 18 derived names and 0.0 for every other name |
| FlowReceiver.ConvertTo77Features | device2/flow_receiver.py:62-104 | the fill-then-list loops compute the vector above, or the KeyError/TypeError the counter reads raise |
| FlowReceiver.PredictAttack | device2/flow_receiver.py:107-158 | the prediction fails closed: a result carrying an error is not malicious and has confidence 0.0; a malicious result carries no error and a label other than BENIGN |
| FlowReceiver.PredictAttackMalicious | device2/flow_receiver.py:107-158 | `is_malicious` holds exactly when a model is loaded, the features and the classifier succeed, and the label is not BENIGN; the result carries no error exactly when a model is loaded and the features and the classifier succeed, and without a model it is `UNKNOWN` with `Model not loaded` |
| FlowReceiver.ReadRule | device2/flow_receiver.py:217-242 | the early-return line loop yields the first qualifying line cleaned, the fallback rule when none qualifies, and no rule for a non-200 answer or an exception inside the `try` |
| FlowReceiver.GenerateSuricataRule | device2/flow_receiver.py:161-245 | exactly one SID, the counter's current value, is consumed on every path, even when a KeyError stops the prompt from being built; the result is the synthesis for that SID |
| FlowReceiver.SynthesizedRuleShape | device2/flow_receiver.py:172-237 | a rule is non-empty and either starts with drop/alert/reject/pass, ends with `;` and holds no fence or newline, or is the fallback template for the source address and this SID |
| FlowReceiver.RuleApplied | device2/flow_receiver.py:248-284 | device 1's success reply with status 200 counts as applied; a 200 dict saying NOK, another status or an unreachable device 1 does not |
| FlowReceiver.AddRuleRequestAccepted | device2/flow_receiver.py:253-262 | the posted JSON body, read as a bare request, passes `process_add_rule_command`'s validation and becomes exactly the `rule-add` command for that rule and SID |
| FlowReceiver.ReceiveFlow | device2/flow_receiver.py:298-360 | the reply is the endpoint's decision, and a SID is consumed exactly when a malicious prediction reaches rule generation |
| FlowReceiver.FailClosedLooksBenign | device2/flow_receiver.py:355-360 | a prediction that failed gets the benign reply and consumes no SID |
| FlowReceiver.MaliciousReply | device2/flow_receiver.py:317-353 | a malicious flow answers 200: with a rule, `rule_applied` is the apply result for that rule and SID; without one, `rule_generated` is False with an error |
| Features.ReadCountersSucceeds | device2/flow_receiver.py:72-74 | the counters can be read exactly when all five keys hold numbers |
| Features.MissingKeyReported | device2/flow_receiver.py:72-74 | a missing counter key raises its KeyError when every key before it is present and no earlier sum raised; two texts or two lists are joined by `+`, so a later missing key still wins over their TypeError |
| Features.PresentKeysOnlyTypeError | device2/flow_receiver.py:72-74 | with all five keys present the only exception the reads raise is the TypeError |
| Features.Max1 | device2/flow_receiver.py:74-90 | `max(x, 1)` is at least 1 and at least x, so no denominator is zero |
| Features.Derived7AgreesWith18 | device2/mcp_server.py:89-97 | the tool's seven derived features are a strict subset of the receiver's eighteen and computed the same way |
| Features.DerivedNonNegative | device2/flow_receiver.py:77-96 | with non-negative counters every one of the eighteen derived features is non-negative |
| Features.Vector | device2/flow_receiver.py:99-104 | one entry per name: the table's value, or 0.0 for a name the table lacks |
| Features.FillAndOrder | device2/mcp_server.py:99-103 | the in-place fill loop and the ordered listing compute that vector |
| RuleText.Clean | device2/flow_receiver.py:226-231 | a cleaned line ends with `;` and holds no triple backtick |
| RuleText.ExtractRule | device2/flow_receiver.py:222-232 | the early-return loop returns the same rule as the specification of the first qualifying line |
| RuleText.FirstRuleAt | device2/flow_receiver.py:222-225 | when line i is the first whose stripped form starts with a verb, the rule is line i cleaned, whatever follows it |
| RuleText.FirstRuleNone | device2/flow_receiver.py:222-225 | no rule is found exactly when no line qualifies |
| RuleText.CleanShape | device2/flow_receiver.py:226-231 | a cleaned line still starts with its verb, ends with `;`, holds no fence, and gains no newline |
| RuleText.CleanIdempotent | device2/flow_receiver.py:229-231 | `;` is appended only when absent: cleaning a cleaned line changes nothing |
| RuleText.FirstRuleClean | device2/flow_receiver.py:220-232 | whatever rule the lines yield is verb-led, `;`-terminated and free of fences and newlines |
| RuleText.PassOnlyForReceiver | device2/flow_receiver.py:225 | a line starting with `pass` qualifies for the receiver but not for the tool |
| RuleText.FallbackRule | device2/flow_receiver.py:235 | the fallback starts with `drop`, does not end with `;`, and names the source address right after `drop tcp ` |
| RuleText.FallbackShape | device2/flow_receiver.py:235 | the fallback starts with `drop`, does not end with `;`, and its sid field reads back as the SID |
| PyText.Strip | device2/flow_receiver.py:220-224 | the result is no longer than the input and neither starts nor ends with whitespace |
| PyText.Split | device2/flow_receiver.py:223 | the lines are never empty as a list and none contains the separator |
| PyText.JoinSplit | device2/flow_receiver.py:223 | joining the split pieces with the separator restores the text |
| PyText.RemoveLeavesNoFence | device2/flow_receiver.py:227 | after deleting every triple backtick no triple backtick remains, even one formed by the deletion |
| PyText.DigitsRoundTrip | device2/flow_receiver.py:235 | the decimal digits written for a SID read back as that SID |
| McpServer.AnalyzeNetworkFlow | device2/mcp_server.py:68-121 | the tool's loops compute its answer: an error without a model, for a failed counter read or for a classifier exception, otherwise label, confidence and verdict |
| McpServer.AnalysisVerdict | device2/mcp_server.py:78-116 | without a model the answer is only `{'error': 'Model not loaded'}`; a verdict is present exactly when the classifier labels the vector, and `is_malicious` is label ≠ BENIGN |
| McpServer.ToolVectorAgainstReceiver | device2/mcp_server.py:89-103 | the tool's vector has one entry per name, agrees with the receiver's on the seven shared names and on names neither derives, and is 0.0 on the eleven names only the receiver derives |
| McpServer.GenerateSuricataRule | device2/mcp_server.py:125-181 | the tool answers `Ollama HTTP <code>` for a non-200 reply, the exception text on failure, and otherwise the first qualifying line or the fallback |
| McpServer.ToolRuleShape | device2/mcp_server.py:163-176 | a rule from the tool is a cleaned drop/alert/reject line, never a `pass` line, or the template built from the source address with sid 900000001; the destination plays no part |
| McpServer.ApplyResult | device2/mcp_server.py:203-217 | a 200 body is passed through unchanged; any other status, an undecodable body or an exception gives an `error` dict that does not say OK |
| McpServer.ApplyRuleToSuricata | device2/mcp_server.py:184-217 | the tool posts the receiver's request and says OK exactly when the receiver would count the same answer as applied |
| McpServer.ApplyAgreesWithReceiver | device2/mcp_server.py:184-217 | a 200 body is passed through unchanged, and the tool reports `'return': 'OK'` exactly when the receiver would count the same answer as applied |
| RuleCommandClient.UntilClosedAt | device1/rule_command_client.py:51-56 | the reply is every chunk before the first empty one, concatenated |
| RuleCommandClient.UntilClosedFault | device1/rule_command_client.py:51-66 | an error raised by `recv` ends the read with that error |
| RuleCommandClient.UntilClosedDeadline | device1/rule_command_client.py:43-56 | a peer that never closes ends the read with a timeout |
| RuleCommandClient.ReceiveUntilClosed | device1/rule_command_client.py:51-56 | the accumulation loop computes exactly that read |
| RuleCommandClient.RelayReply | device1/rule_command_client.py:40-66 | a connect, send or read failure always yields a dict that does not say OK, so an OK reply means all three succeeded |
| RuleCommandClient.SendToSuricataRelay | device1/rule_command_client.py:30-66 | one frame (JSON text plus newline) is sent when connect succeeds; the socket is closed only after a completed read |
| RuleCommandClient.AddRuleCommand | device1/rule_command_client.py:76-94 | a command is built exactly when `rule` and `sid` are truthy and the rule can be sliced for the log line; it has exactly the keys command, rule and sid |
| RuleCommandClient.ProcessAddRuleCommand | device1/rule_command_client.py:69-101 | a command is sent to the relay exactly when validation passed and connect and send succeed; the outcome maps the relay's reply |
| RuleCommandClient.MissingFieldRefused | device1/rule_command_client.py:79-81 | a missing or falsy rule or sid gives NOK `Missing rule or sid` and nothing is forwarded |
| RuleCommandClient.RelayVerdictMapped | device1/rule_command_client.py:96-101 | an OK relay reply becomes `Rule added successfully`; any other reply is returned unchanged |
| RuleCommandClient.HandleClientConnection | device1/rule_command_client.py:104-136 | the client socket is closed on every path; the reply sent and the command forwarded are the dispatch's |
| RuleCommandClient.OkOnlyFromRelay | device1/rule_command_client.py:96-119 | the success reply is only ever sent for a forwarded request the relay accepted |
| RuleCommandClient.UnknownTypeRefused | device1/rule_command_client.py:116-121 | a type other than ADD_RULE gives NOK `Unknown command: <type>` and nothing is forwarded |
| SuricataTcpRelay.UntilNewlineClosed | device1/suricata_tcp_relay.py:51-56 | with no newline seen, the read ends at the first empty chunk with everything before it |
| SuricataTcpRelay.UntilNewlineLine | device1/suricata_tcp_relay.py:51-60 | the read stops right after the first chunk containing a newline and keeps that whole chunk |
| SuricataTcpRelay.UntilNewlineFault | device1/suricata_tcp_relay.py:51-80 | a `recv` error ends the read with that error |
| SuricataTcpRelay.ReceiveUntilNewline | device1/suricata_tcp_relay.py:51-60 | the two-exit accumulation loop computes exactly that read |
| SuricataTcpRelay.FaultReply | device1/suricata_tcp_relay.py:70-80 | a missing socket file, a timeout or any other socket error is answered with a dict that does not say OK |
| SuricataTcpRelay.SuricataReply | device1/suricata_tcp_relay.py:40-80 | a connect, send or read failure always yields a dict that does not say OK, so an OK reply means all three succeeded |
| SuricataTcpRelay.SendCommandToSuricata | device1/suricata_tcp_relay.py:30-80 | one frame is sent when connect succeeds; the socket is closed only after a completed read |
| SuricataTcpRelay.HandleClientCommand | device1/suricata_tcp_relay.py:83-117 | the parsed command is forwarded unchanged and Suricata's reply written back unchanged; the client socket is closed on every path |
| SuricataTcpRelay.MalformedRequestDropped | device1/suricata_tcp_relay.py:93-111 | a request that does not decode to a dict is neither forwarded nor answered |
| RelayChain.NewlineReadIsPrefix | device1/suricata_tcp_relay.py:51-60 | on the same chunks, the relay's read is a prefix of the client's read |
| RelayChain.NewlineFreeReadsAgree | device1/rule_command_client.py:51-56 | without newlines in the chunks the two reads are the same |
| RelayChain.InvalidJsonTreatedDifferently | device1/rule_command_client.py:127-130 | an undecodable request gets NOK `Invalid JSON` from the client hop but no reply from the relay |
| RelayChain.RuleAddReachesSuricata | device1/suricata_tcp_relay.py:93-99 | the frame the client hop sends is forwarded by the relay as exactly the `rule-add` command |
| Device1Api.WindowStart | device1/device1_api.py:64 | for count ≥ 1 the window is the last min(2·count, n) lines; count 0 scans the whole file; a negative count scans the suffix from index min(−2·count, n) |
| Device1Api.ScanWindow | device1/device1_api.py:64-91 | the reversed loop with its break computes the specified scan |
| Device1Api.GetSuricataLogs | device1/device1_api.py:38-104 | 404 with error and path for a missing file, 500 with the text of an exception, otherwise 200 with the logs and `count` equal to their number |
| Device1Api.ScanSelects | device1/device1_api.py:64-91 | on a window whose lines do not raise, the result is the newest flow records, as many as there is room for; an error is some line's exception text |
| Device1Api.ScanStopsAtCap | device1/device1_api.py:87-88 | once `count` records are found, older lines are never read, even ones that would raise |
| Device1Api.WindowSelection | device1/device1_api.py:64-88 | the scan returns the newest flow records: at most `count` of them, and at most one when count ≤ 0 |
| Device1Api.LogsSelection | device1/device1_api.py:64-98 | the 200 reply lists those records newest first with their number |
| Device1Api.FlowRecordDefaults | device1/device1_api.py:72-85 | a missing age or counter defaults to 0, a missing state to `unknown`, and a missing source or destination address to None; present values are copied |
| Device1Api.GetStats | device1/device1_api.py:108-133 | the per-line loop computes the histogram and the flow total |
| Device1Api.HistogramCounts | device1/device1_api.py:115-125 | each histogram entry is the number of counted lines of that type, and the histogram holds exactly the types that occur |
| Device1Api.TotalFlowsIsFlowTally | device1/device1_api.py:118-122 | `total_flows` equals the histogram's count for `flow` |

## Left out

- Device 2's training script and the agent client: they are outside the decision logic. The classifier artifacts are the opaque `Classifier` value.
- Transport and wiring: socket listen/accept/thread loops (`start_server`, `start_relay_server`), Flask and FastMCP routing, the health endpoints, logging, `time.sleep` polling and waiting for the log file to appear. Each is replaced by inputs to the modelled functions.
- End to end over HTTP: the receiver and the tool post HTTP to the port where the rule client reads a bare JSON request. Each hop is modelled on its own.
- JSON encoding and decoding, and UTF-8: opaque functions passed in. Replies are modelled as the dicts that would be encoded.
- Floating point: derived features are reals, so NaN, infinity and rounding do not exist in the model. The NaN/infinity scrub is an identity (see `Features.DerivedNonNegative`).
- Integer width: Python integers are unbounded, so the model's `int` needs no wrap-around.
- The lock around the SID counter and per-connection threads: the counter is modelled as a sequential object.
- device1_api.py lines 151-208: dead code after `app.run`.
- The `mcp_server` tool `get_suricata_logs`: an HTTP pass-through to device 1, not part of the decision logic.
- Device1Api.GetSuricataLogs: the `count` query parameter is an already-parsed integer. Its default of 10 and the fallback for a non-integer value are left to the caller.
- Device1Api.Histogram: keys are compared as JSON values. Python would merge the keys `1`, `1.0` and `True` into one entry. Encoding non-string keys in the reply is not modelled either.
- Json.Show: `str()` is exact for None, booleans, integers and strings. Floats, lists and dicts print as placeholders. This affects the `Unknown command: <type>` text and the receiver's fallback rule only for such values.
- Features.ReadCounters: the text of a TypeError from a non-numeric counter is a fixed stand-in. Which key is missing is reported exactly, in the source's read order; a pair of texts or of lists is joined without raising and its TypeError is reported only after all five keys are read.
- Transport.Socket: an exhausted script of `recv` results reads as the socket timeout. The timeout length itself is not modelled.
