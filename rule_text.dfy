/**
 * The rule text device 2 derives from a language model's reply: the first
 * line that, once stripped, starts with an action verb, cleaned of markdown
 * fences and terminated by ';'; or, when no line qualifies, a fixed `drop`
 * template naming the source address.
 */
module RuleText {
  import opened Wrappers
  import opened PyText

  /** The verbs `flow_receiver` accepts. */
  const ReceiverVerbs: seq<string> := ["drop", "alert", "reject", "pass"]

  /** The verbs the rule-generation tool accepts. */
  const ToolVerbs: seq<string> := ["drop", "alert", "reject"]

  /** A verb neither stripping nor fence deletion can disturb: non-empty, no whitespace, no backtick. */
  predicate PlainWord(w: string) {
    w != [] && forall i :: 0 <= i < |w| ==> !IsSpace(w[i]) && w[i] != '`'
  }

  predicate PlainWords(verbs: seq<string>) {
    forall k :: 0 <= k < |verbs| ==> PlainWord(verbs[k])
  }

  /** A non-empty word of lower-case ASCII letters is plain. */
  lemma LowerWordPlain(w: string)
    requires w != [] && forall i :: 0 <= i < |w| ==> 'a' <= w[i] <= 'z'
    ensures PlainWord(w)
  {
  }

  lemma VerbListsPlain()
    ensures PlainWords(ReceiverVerbs) && PlainWords(ToolVerbs)
  {
    forall k | 0 <= k < |ReceiverVerbs|
      ensures PlainWord(ReceiverVerbs[k])
    {
      LowerWordPlain(ReceiverVerbs[k]);
    }
    assert ToolVerbs == ReceiverVerbs[..3];
  }

  /** An accepted line after cleaning: every fence deleted, stripped again, ';' appended when absent. */
  function Clean(line: string): (r: string)
    ensures EndsWith(r, ";") && FenceFree(r)
  {
    var t := Strip(Remove(line, Fence));
    StrippedFenceFree(line);
    if EndsWith(t, ";") then t
    else AppendKeepsFenceFree(t, ';'); t + ";"
  }

  lemma StrippedFenceFree(line: string)
    ensures FenceFree(Strip(Remove(line, Fence)))
  {
    RemoveLeavesNoFence(line);
    StripKeepsFenceFree(Remove(line, Fence));
  }

  /** The rule chosen from the reply's lines: the first whose stripped form starts with a verb, cleaned. */
  function FirstRule(lines: seq<string>, verbs: seq<string>): Option<string> {
    if lines == [] then None
    else if StartsWithAny(Strip(lines[0]), verbs) then Some(Clean(Strip(lines[0])))
    else FirstRule(lines[1..], verbs)
  }

  /** The lines of the generated text: `generated_text.strip().split('\n')`. */
  function ReplyLines(text: string): seq<string> {
    Split(Strip(text), '\n')
  }

  /** The early-return `for line in ...` loop that picks the rule line. */
  method ExtractRule(lines: seq<string>, verbs: seq<string>) returns (rule: Option<string>)
    ensures rule == FirstRule(lines, verbs)
  {
    for i := 0 to |lines|
      invariant FirstRule(lines, verbs) == FirstRule(lines[i..], verbs)
    {
      assert lines[i..][1..] == lines[i + 1..];
      var line := Strip(lines[i]);
      if StartsWithAny(line, verbs) {
        return Some(Clean(line));
      }
    }
    assert lines[|lines|..] == [];
    return None;
  }

  /** The chosen rule comes from the first qualifying line, whatever follows it. */
  lemma {:induction false} FirstRuleAt(lines: seq<string>, verbs: seq<string>, i: nat)
    requires i < |lines| && StartsWithAny(Strip(lines[i]), verbs)
    requires forall j :: 0 <= j < i ==> !StartsWithAny(Strip(lines[j]), verbs)
    ensures FirstRule(lines, verbs) == Some(Clean(Strip(lines[i])))
  {
    if i > 0 {
      var rest := lines[1..];
      assert !StartsWithAny(Strip(lines[0]), verbs);
      assert rest[i - 1] == lines[i];
      forall j | 0 <= j < i - 1
        ensures !StartsWithAny(Strip(rest[j]), verbs)
      {
        assert rest[j] == lines[j + 1];
      }
      FirstRuleAt(rest, verbs, i - 1);
    }
  }

  /** No rule is chosen exactly when no line qualifies. */
  lemma {:induction false} FirstRuleNone(lines: seq<string>, verbs: seq<string>)
    ensures FirstRule(lines, verbs) == None <==> forall j :: 0 <= j < |lines| ==> !StartsWithAny(Strip(lines[j]), verbs)
  {
    if lines != [] {
      FirstRuleNone(lines[1..], verbs);
      if !StartsWithAny(Strip(lines[0]), verbs) {
        assert forall j :: 1 <= j < |lines| ==> lines[j] == lines[1..][j - 1];
      }
    }
  }

  lemma AppendKeepsFenceFree(t: string, c: char)
    requires FenceFree(t) && c != '`'
    ensures FenceFree(t + [c])
  {
    var u := t + [c];
    forall i | 0 <= i && i + 2 < |u|
      ensures !(u[i] == '`' && u[i + 1] == '`' && u[i + 2] == '`')
    {
      if i + 2 < |t| {
        assert u[i] == t[i] && u[i + 1] == t[i + 1] && u[i + 2] == t[i + 2];
      }
    }
  }

  lemma CleanKeepsVerb(line: string, verb: string)
    requires PlainWord(verb) && StartsWith(line, verb)
    ensures StartsWith(Clean(line), verb)
  {
    var removed := Remove(line, Fence);
    var t := Strip(removed);
    RemoveKeepsPrefix(line, verb);
    StripKeepsPrefix(removed, verb);
    if !EndsWith(t, ";") {
      assert (t + ";")[..|verb|] == t[..|verb|];
    }
  }

  lemma CleanNoNewline(line: string)
    requires '\n' !in line
    ensures '\n' !in Clean(line)
  {
    var removed := Remove(line, Fence);
    var t := Strip(removed);
    StripChars(removed);
    assert '\n' !in t;
    assert Clean(line) == t || Clean(line) == t + ";";
  }

  /**
   * A cleaned line still starts with its verb, ends with ';', holds no fence,
   * and gains no line break.
   */
  lemma CleanShape(line: string, verbs: seq<string>)
    requires PlainWords(verbs) && StartsWithAny(line, verbs)
    ensures StartsWithAny(Clean(line), verbs)
    ensures EndsWith(Clean(line), ";")
    ensures FenceFree(Clean(line))
    ensures '\n' !in line ==> '\n' !in Clean(line)
  {
    var k :| 0 <= k < |verbs| && StartsWith(line, verbs[k]);
    CleanKeepsVerb(line, verbs[k]);
    if '\n' !in line {
      CleanNoNewline(line);
    }
  }

  /** Cleaning an already cleaned line changes nothing: ';' is never doubled. */
  lemma CleanIdempotent(line: string, verbs: seq<string>)
    requires PlainWords(verbs) && StartsWithAny(line, verbs)
    ensures Clean(Clean(line)) == Clean(line)
  {
    var c := Clean(line);
    CleanShape(line, verbs);
    RemoveFenceFree(c);
    var k :| 0 <= k < |verbs| && StartsWith(c, verbs[k]);
    assert c[0] == verbs[k][0];
    assert c[|c| - 1] == ';';
    StripTrimmed(c);
  }

  predicate RuleShaped(r: string, verbs: seq<string>) {
    StartsWithAny(r, verbs) && EndsWith(r, ";") && FenceFree(r) && '\n' !in r
  }

  lemma CleanStripped(raw: string, verbs: seq<string>)
    requires PlainWords(verbs) && StartsWithAny(Strip(raw), verbs) && '\n' !in raw
    ensures RuleShaped(Clean(Strip(raw)), verbs)
  {
    StripChars(raw);
    assert '\n' !in Strip(raw);
    CleanShape(Strip(raw), verbs);
  }

  /** Whatever rule is chosen starts with a verb, ends with ';' and holds no fence or line break. */
  lemma {:induction false} FirstRuleClean(lines: seq<string>, verbs: seq<string>)
    requires PlainWords(verbs) && FirstRule(lines, verbs).Some?
    requires forall j :: 0 <= j < |lines| ==> '\n' !in lines[j]
    ensures RuleShaped(FirstRule(lines, verbs).value, verbs)
  {
    if StartsWithAny(Strip(lines[0]), verbs) {
      CleanStripped(lines[0], verbs);
    } else {
      var rest := lines[1..];
      assert forall j :: 0 <= j < |rest| ==> rest[j] == lines[j + 1];
      FirstRuleClean(rest, verbs);
    }
  }

  /** A line starting with `pass` is a rule for the receiver but not for the tool. */
  lemma PassOnlyForReceiver(line: string)
    requires StartsWith(line, "pass")
    ensures StartsWithAny(line, ReceiverVerbs)
    ensures !StartsWithAny(line, ToolVerbs)
  {
    assert StartsWith(line, ReceiverVerbs[3]);
    forall k | 0 <= k < |ToolVerbs|
      ensures !StartsWith(line, ToolVerbs[k])
    {
      assert line[0] == 'p';
      assert ToolVerbs[k][0] != 'p';
    }
  }

  // ---------------------------------------------------------------------
  // The fallback template

  /** Text of the fallback rule up to its sid number. */
  function FallbackHead(source: string, attackType: string): string {
    "drop tcp " + source + " any -> $HOME_NET any (msg:\"AI_BLOCK:" + attackType + "\"; sid:"
  }

  /** `drop tcp <src> any -> $HOME_NET any (msg:"AI_BLOCK:<type>"; sid:<sid>; rev:1;)`. */
  function FallbackRule(source: string, attackType: string, sid: int): (r: string)
    ensures StartsWith(r, "drop") && !EndsWith(r, ";")
    ensures |r| >= 9 + |source| && r[9..9 + |source|] == source
  {
    var head := FallbackHead(source, attackType);
    var tail := IntToString(sid) + "; rev:1;)";
    FallbackHeadShape(source, attackType);
    SliceOfConcat(head, tail, 0, 4);
    SliceOfConcat(head, tail, 9, 9 + |source|);
    assert tail[|tail| - 1] == ')';
    var r := head + tail;
    assert r[|r| - 1] == ')';
    assert r[|r| - 1..] == [')'];
    r
  }

  lemma FallbackHeadShape(source: string, attackType: string)
    ensures var head := FallbackHead(source, attackType);
      |head| >= 9 + |source| && head[..4] == "drop" && head[9..9 + |source|] == source
  {
    var head := FallbackHead(source, attackType);
    var rest := " any -> $HOME_NET any (msg:\"AI_BLOCK:" + attackType + "\"; sid:";
    assert head == "drop tcp " + source + rest;
    SliceOfConcat("drop tcp " + source, rest, 9, 9 + |source|);
    SliceOfConcat("drop tcp " + source, rest, 0, 4);
  }

  lemma SliceOfConcat(a: string, b: string, i: nat, j: nat)
    requires i <= j <= |a|
    ensures (a + b)[i..j] == a[i..j]
  {
  }

  /**
   * The fallback starts with `drop`, ends with `)` rather than `;` (so it can
   * never be mistaken for a cleaned line), and its sid field reads back as `sid`.
   */
  lemma FallbackShape(source: string, attackType: string, sid: nat)
    ensures StartsWith(FallbackRule(source, attackType, sid), "drop")
    ensures !EndsWith(FallbackRule(source, attackType, sid), ";")
    ensures var head := FallbackHead(source, attackType);
      var digits := FallbackRule(source, attackType, sid)[|head|..|head| + |NatToString(sid)|];
      (forall i :: 0 <= i < |digits| ==> '0' <= digits[i] <= '9') && DigitsValue(digits) == sid
  {
    var head := FallbackHead(source, attackType);
    var r := FallbackRule(source, attackType, sid);
    assert r == head + NatToString(sid) + "; rev:1;)";
    assert r[..4] == "drop";
    assert r[|r| - 1] == ')';
    assert r[|head|..|head| + |NatToString(sid)|] == NatToString(sid);
    DigitsRoundTrip(sid);
  }
}
