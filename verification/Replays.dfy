/**
  The replay provider of agents-python/app/llm/provider.py with the scripts of transcripts.py, and
  what a replayed investigation and a replayed pipeline run come to.
 */
module Replays {
  import opened Investigators
  import opened Models
  import Pipeline
  import RiskRules
  import opened Wrappers

  /** The names of the tool calls by id, and the tool results by name. */
  datatype Digest = Digest(names: map<string, string>, evidence: map<string, ToolOutput>)

  const NOTHING_YET := Digest(map[], map[])

  function WithUses(d: Digest, uses: seq<ToolCall>): Digest {
    if uses == [] then d
    else
      var n := |uses| - 1;
      var before := WithUses(d, uses[..n]);
      before.(names := before.names[uses[n].id := uses[n].name])
  }

  /** A result counts under the name of the latest call with its id, if there is one. */
  function WithResult(d: Digest, r: ToolResult): Digest {
    if r.toolUseId in d.names && d.names[r.toolUseId] != "" then
      d.(evidence := d.evidence[d.names[r.toolUseId] := r.content])
    else d
  }

  function WithResults(d: Digest, results: seq<ToolResult>): Digest {
    if results == [] then d
    else WithResult(WithResults(d, results[..|results| - 1]), results[|results| - 1])
  }

  function WithMessage(d: Digest, m: Message): Digest {
    match m
    case Prompt(_) => d
    case Assistant(uses) => WithUses(d, uses)
    case Results(results) => WithResults(d, results)
  }

  function DigestOf(messages: seq<Message>): Digest {
    if messages == [] then NOTHING_YET
    else WithMessage(DigestOf(messages[..|messages| - 1]), messages[|messages| - 1])
  }

  // ---------------------------------------------------------------- what the digest says

  /** The blocks of all messages, one after the other. */
  datatype Block = Use(id: string, name: string) | Got(id: string, content: ToolOutput)

  function UseBlocks(uses: seq<ToolCall>): seq<Block> {
    if uses == [] then []
    else UseBlocks(uses[..|uses| - 1]) + [Use(uses[|uses| - 1].id, uses[|uses| - 1].name)]
  }

  function ResultBlocks(results: seq<ToolResult>): seq<Block> {
    if results == [] then []
    else ResultBlocks(results[..|results| - 1])
         + [Got(results[|results| - 1].toolUseId, results[|results| - 1].content)]
  }

  function Blocks(messages: seq<Message>): seq<Block> {
    if messages == [] then []
    else
      var before := Blocks(messages[..|messages| - 1]);
      match messages[|messages| - 1]
      case Prompt(_) => before
      case Assistant(uses) => before + UseBlocks(uses)
      case Results(results) => before + ResultBlocks(results)
  }

  /** The latest call with this id among the first k blocks has this name. */
  ghost predicate Named(bs: seq<Block>, k: nat, id: string, name: string)
    requires k <= |bs|
  {
    exists i :: 0 <= i < k && bs[i] == Use(id, name) && forall j | i < j < k && bs[j].Use? :: bs[j].id != id
  }

  /** Block k is a result of a call to the tool. */
  ghost predicate ResultFor(bs: seq<Block>, k: nat, name: string)
    requires k < |bs|
  {
    bs[k].Got? && name != "" && Named(bs, k, bs[k].id, name)
  }

  /** The latest result of a call to the tool has this content. */
  ghost predicate Found(bs: seq<Block>, name: string, content: ToolOutput) {
    exists k: nat :: k < |bs| && ResultFor(bs, k, name) && bs[k].content == content
                     && forall j: nat | k < j < |bs| :: !ResultFor(bs, j, name)
  }

  ghost predicate Digests(d: Digest, bs: seq<Block>) {
    && (forall id, name :: Named(bs, |bs|, id, name) <==> id in d.names && d.names[id] == name)
    && (forall name, out :: Found(bs, name, out) <==> name in d.evidence && d.evidence[name] == out)
  }

  lemma NamedKept(bs: seq<Block>, b: Block, k: nat, id: string, name: string)
    requires k <= |bs|
    ensures Named(bs + [b], k, id, name) <==> Named(bs, k, id, name)
  {
    assert forall i | 0 <= i < k :: (bs + [b])[i] == bs[i];
  }

  lemma NamedNext(bs: seq<Block>, b: Block, id: string, name: string)
    ensures Named(bs + [b], |bs| + 1, id, name) <==>
            if b.Use? && b.id == id then b.name == name else Named(bs, |bs|, id, name)
  {
    var cs, n := bs + [b], |bs|;
    assert cs[n] == b && forall i | 0 <= i < n :: cs[i] == bs[i];
    if Named(cs, n + 1, id, name) {
      var i :| 0 <= i < n + 1 && cs[i] == Use(id, name) && forall j | i < j < n + 1 && cs[j].Use? :: cs[j].id != id;
      if i < n { assert bs[i] == Use(id, name); }
    }
    if !(b.Use? && b.id == id) && Named(bs, n, id, name) {
      var i :| 0 <= i < n && bs[i] == Use(id, name) && forall j | i < j < n && bs[j].Use? :: bs[j].id != id;
      assert cs[i] == Use(id, name);
    }
  }

  lemma ResultForNext(bs: seq<Block>, b: Block, k: nat, name: string)
    requires k <= |bs|
    ensures ResultFor(bs + [b], k, name) <==>
            if k < |bs| then ResultFor(bs, k, name) else b.Got? && name != "" && Named(bs, |bs|, b.id, name)
  {
    NamedKept(bs, b, k, (bs + [b])[k].id, name);
  }

  lemma FoundNext(bs: seq<Block>, b: Block, name: string, out: ToolOutput)
    ensures Found(bs + [b], name, out) <==>
            if b.Got? && name != "" && Named(bs, |bs|, b.id, name) then b.content == out else Found(bs, name, out)
  {
    var cs, n := bs + [b], |bs|;
    forall k: nat | k <= n
      ensures ResultFor(cs, k, name) <==>
              if k < n then ResultFor(bs, k, name) else b.Got? && name != "" && Named(bs, n, b.id, name)
    {
      ResultForNext(bs, b, k, name);
    }
    hide Named, ResultFor;
    assert cs[n] == b && forall k | 0 <= k < n :: cs[k] == bs[k];
    if Found(cs, name, out) && !ResultFor(cs, n, name) {
      var k: nat :| k < |cs| && ResultFor(cs, k, name) && cs[k].content == out
                    && forall j: nat | k < j < |cs| :: !ResultFor(cs, j, name);
      assert k < n && ResultFor(bs, k, name);
    }
    if Found(bs, name, out) && !ResultFor(cs, n, name) {
      var k: nat :| k < n && ResultFor(bs, k, name) && bs[k].content == out
                    && forall j: nat | k < j < n :: !ResultFor(bs, j, name);
      assert ResultFor(cs, k, name);
    }
  }

  lemma DigestsUse(d: Digest, bs: seq<Block>, id: string, name: string)
    requires Digests(d, bs)
    ensures Digests(d.(names := d.names[id := name]), bs + [Use(id, name)])
  {
    var b := Use(id, name);
    var e := d.(names := d.names[id := name]);
    hide Named, Found;
    var cs, n := bs + [b], |bs| + 1;
    forall i, m ensures Named(cs, n, i, m) <==> i in e.names && e.names[i] == m {
      NamedNext(bs, b, i, m);
    }
    forall m, out ensures Found(cs, m, out) <==> m in e.evidence && e.evidence[m] == out {
      FoundNext(bs, b, m, out);
    }
  }

  lemma DigestsResult(d: Digest, bs: seq<Block>, r: ToolResult)
    requires Digests(d, bs)
    ensures Digests(WithResult(d, r), bs + [Got(r.toolUseId, r.content)])
  {
    var b := Got(r.toolUseId, r.content);
    var e := WithResult(d, r);
    hide Named, Found;
    var cs, n := bs + [b], |bs| + 1;
    forall i, m ensures Named(cs, n, i, m) <==> i in e.names && e.names[i] == m {
      NamedNext(bs, b, i, m);
    }
    forall m, out ensures Found(cs, m, out) <==> m in e.evidence && e.evidence[m] == out {
      FoundNext(bs, b, m, out);
    }
  }

  lemma {:induction false} DigestsUses(d: Digest, bs: seq<Block>, uses: seq<ToolCall>)
    requires Digests(d, bs)
    ensures Digests(WithUses(d, uses), bs + UseBlocks(uses))
  {
    if uses == [] {
      assert bs + [] == bs;
    } else {
      var n := |uses| - 1;
      hide Digests;
      DigestsUses(d, bs, uses[..n]);
      DigestsUse(WithUses(d, uses[..n]), bs + UseBlocks(uses[..n]), uses[n].id, uses[n].name);
      assert bs + UseBlocks(uses) == bs + UseBlocks(uses[..n]) + [Use(uses[n].id, uses[n].name)];
    }
  }

  lemma {:induction false} DigestsResults(d: Digest, bs: seq<Block>, results: seq<ToolResult>)
    requires Digests(d, bs)
    ensures Digests(WithResults(d, results), bs + ResultBlocks(results))
  {
    if results == [] {
      assert bs + [] == bs;
    } else {
      var n := |results| - 1;
      hide Digests, WithResult;
      DigestsResults(d, bs, results[..n]);
      DigestsResult(WithResults(d, results[..n]), bs + ResultBlocks(results[..n]), results[n]);
      assert bs + ResultBlocks(results)
          == bs + ResultBlocks(results[..n]) + [Got(results[n].toolUseId, results[n].content)];
    }
  }

  /** The provider's evidence for a tool is the latest result whose id, by then, last named a call to that tool. */
  lemma {:induction false} EvidenceIsLatest(messages: seq<Message>)
    ensures Digests(DigestOf(messages), Blocks(messages))
  {
    if messages != [] {
      var n := |messages| - 1;
      EvidenceIsLatest(messages[..n]);
      hide Digests, WithUses, WithResults, UseBlocks, ResultBlocks;
      match messages[n]
      case Prompt(_) =>
      case Assistant(uses) => DigestsUses(DigestOf(messages[..n]), Blocks(messages[..n]), uses);
      case Results(results) => DigestsResults(DigestOf(messages[..n]), Blocks(messages[..n]), results);
    }
  }

  // ---------------------------------------------------------------- the scripts

  datatype Vars = Vars(accountId: string, beneficiaryName: string, amount: real, rulesScore: nat)

  datatype ScriptStep = ScriptStep(tool: string, input: Input)

  function HistoryIn(evidence: map<string, ToolOutput>): seq<real> {
    if HISTORY_TOOL in evidence && evidence[HISTORY_TOOL].History? then evidence[HISTORY_TOOL].amounts else []
  }

  function LinkedIn(evidence: map<string, ToolOutput>): seq<string> {
    if GRAPH_TOOL in evidence && evidence[GRAPH_TOOL].Graph? then evidence[GRAPH_TOOL].linkedAccounts else []
  }

  function HitIn(evidence: map<string, ToolOutput>): bool {
    SANCTIONS_TOOL in evidence && evidence[SANCTIONS_TOOL].Screening? && evidence[SANCTIONS_TOOL].hit
  }

  function Score(vars: Vars, history: seq<real>, linked: nat, hit: bool): nat {
    var mean := if history == [] then 0.0 else RiskRules.Mean(history);
    var base := if vars.rulesScore >= 50 || (mean > 0.0 && vars.amount >= mean * 3.0) then 70 else 40;
    var score := (if hit then 85 else base) + linked * 3;
    if score < 95 then score else 95
  }

  function ScriptedCase(vars: Vars, evidence: map<string, ToolOutput>): RawCase {
    var linked, hit := LinkedIn(evidence), HitIn(evidence);
    var score := Score(vars, HistoryIn(evidence), |linked|, hit);
    RawCase(score, linked, hit, score >= 70 || hit)
  }

  function AccountInput(accountId: string): Input {
    Input(Some(accountId), None, None)
  }

  function NameInput(name: string): Input {
    Input(None, Some(name), None)
  }

  function Filing(c: RawCase): Input {
    Input(None, None, Some(c))
  }

  function InvestigationSteps(high: bool, vars: Vars, evidence: map<string, ToolOutput>): (steps: seq<ScriptStep>)
    ensures steps != []
  {
    if high then
      [ScriptStep(HISTORY_TOOL, AccountInput(vars.accountId)),
       ScriptStep(GRAPH_TOOL, AccountInput(vars.accountId)),
       ScriptStep(SANCTIONS_TOOL, NameInput(vars.beneficiaryName)),
       ScriptStep(EMIT_TOOL, Filing(ScriptedCase(vars, evidence)))]
    else [ScriptStep(EMIT_TOOL, Filing(RawCase(12, [], false, false)))]
  }

  /** The script's step for this many turns and this evidence; the last step repeats. */
  function StepFor(high: bool, vars: Vars, messages: seq<Message>): ScriptStep {
    var steps := InvestigationSteps(high, vars, DigestOf(messages).evidence);
    var turn := AssistantTurns(messages);
    steps[if turn < |steps| - 1 then turn else |steps| - 1]
  }

  /** The replay provider as the investigator meets it; `freshId` makes up the call ids, distinct or not. */
  function Replay(high: bool, vars: Vars, freshId: seq<Message> -> string): Provider {
    (messages: seq<Message>) =>
      var step := StepFor(high, vars, messages);
      Some([ToolCall(freshId(messages), step.tool, step.input)])
  }

  method NoteUses(names: map<string, string>, uses: seq<ToolCall>, ghost evidence: map<string, ToolOutput>)
    returns (r: map<string, string>)
    ensures Digest(r, evidence) == WithUses(Digest(names, evidence), uses)
  {
    r := names;
    for i := 0 to |uses|
      invariant Digest(r, evidence) == WithUses(Digest(names, evidence), uses[..i])
    {
      assert uses[..i + 1][..i] == uses[..i];
      r := r[uses[i].id := uses[i].name];
    }
    assert uses[..|uses|] == uses;
  }

  method NoteResults(names: map<string, string>, evidence: map<string, ToolOutput>, results: seq<ToolResult>)
    returns (r: map<string, ToolOutput>)
    ensures Digest(names, r) == WithResults(Digest(names, evidence), results)
  {
    r := evidence;
    for i := 0 to |results|
      invariant Digest(names, r) == WithResults(Digest(names, evidence), results[..i])
    {
      assert results[..i + 1][..i] == results[..i];
      var id := results[i].toolUseId;
      if id in names && names[id] != "" {
        r := r[names[id] := results[i].content];
      }
    }
    assert results[..|results|] == results;
  }

  /** ReplayProvider.complete for the investigation: one pass over the blocks of all messages. */
  method Complete(high: bool, vars: Vars, freshId: seq<Message> -> string, messages: seq<Message>)
    returns (calls: seq<ToolCall>)
    ensures Replay(high, vars, freshId)(messages) == Some(calls)
  {
    hide InvestigationSteps;
    var turn := 0;
    var names: map<string, string>, evidence: map<string, ToolOutput> := map[], map[];
    for i := 0 to |messages|
      invariant turn == AssistantTurns(messages[..i])
      invariant Digest(names, evidence) == DigestOf(messages[..i])
    {
      assert messages[..i + 1][..i] == messages[..i];
      match messages[i]
      case Prompt(_) =>
      case Assistant(uses) =>
        turn := turn + 1;
        names := NoteUses(names, uses, evidence);
      case Results(results) =>
        evidence := NoteResults(names, evidence, results);
    }
    assert messages[..|messages|] == messages;
    var steps := InvestigationSteps(high, vars, evidence);
    var step := steps[if turn < |steps| - 1 then turn else |steps| - 1];
    return [ToolCall(freshId(messages), step.tool, step.input)];
  }

  // ---------------------------------------------------------------- a replayed investigation

  /** The messages after one more tool call and its result. */
  function Exchange(messages: seq<Message>, call: ToolCall, out: ToolOutput): seq<Message> {
    messages + [Assistant([call])] + [Results([ToolResult(call.id, out)])]
  }

  /** One call a turn: the result is filed under the call's own name, whatever the ids. */
  lemma {:induction false} DigestExchange(messages: seq<Message>, call: ToolCall, out: ToolOutput)
    requires call.name != ""
    ensures DigestOf(Exchange(messages, call, out)).evidence == DigestOf(messages).evidence[call.name := out]
    ensures AssistantTurns(Exchange(messages, call, out)) == AssistantTurns(messages) + 1
  {
    var one := messages + [Assistant([call])];
    var r := ToolResult(call.id, out);
    assert one[..|messages|] == messages;
    assert (one + [Results([r])])[..|one|] == one;
    assert [call][..0] == [] && [r][..0] == [];
    var d := DigestOf(messages);
    assert WithUses(d, [call]) == d.(names := d.names[call.id := call.name]);
    var d1 := DigestOf(one);
    assert WithResults(d1, [r]) == WithResult(d1, r);
    assert AssistantTurns(one) == AssistantTurns(messages) + 1;
    assert AssistantTurns(one + [Results([r])]) == AssistantTurns(one);
  }

  lemma OneTurn(complete: Provider, tools: Tools, messages: seq<Message>, turns: nat, call: ToolCall, out: ToolOutput)
    requires turns > 0 && complete(messages) == Some([call])
    requires call.name != EMIT_TOOL && Execute(tools, call.name, call.input) == Some(out)
    ensures var rest := Investigate(complete, tools, Exchange(messages, call, out), turns - 1);
            Investigate(complete, tools, messages, turns) == rest.(completions := rest.completions + 1)
  {
    assert FirstFiling([call]) == None by {
      assert [call][1..] == [];
      assert FirstFiling([]) == None;
    }
    assert ResultsOf(tools, [call]) == Some([ToolResult(call.id, out)]) by {
      assert [call][..0] == [];
      assert ResultsOf(tools, []) == Some([]);
      assert [] + [ToolResult(call.id, out)] == [ToolResult(call.id, out)];
    }
    hide FirstFiling, ResultsOf;
  }

  lemma {:induction false} LastTurn(complete: Provider, tools: Tools, messages: seq<Message>, turns: nat,
                                    call: ToolCall)
    requires turns > 0 && complete(messages) == Some([call]) && call.name == EMIT_TOOL
    ensures Investigate(complete, tools, messages, turns) == Inquest(Validated(call.input), messages, 1)
  {
  }

  lemma ScoreRange(vars: Vars, history: seq<real>, linked: nat, hit: bool)
    ensures 40 <= Score(vars, history, linked, hit) <= 95
    ensures hit || vars.rulesScore >= 50 ==> Score(vars, history, linked, hit) >= 70
  {
  }

  /** The case that a replay at high likelihood files. */
  function ReplayedCase(tools: Tools, vars: Vars): CaseFile {
    var linked, hit := tools.graph(vars.accountId), tools.listed(vars.beneficiaryName);
    var score := Score(vars, tools.history(vars.accountId), |linked|, hit);
    CaseFile(score, linked, hit, score >= 70 || hit)
  }

  /** The research calls of the script, before the filing. */
  function Research(vars: Vars, k: nat): (string, Input)
    requires k < 3
  {
    if k == 0 then (HISTORY_TOOL, AccountInput(vars.accountId))
    else if k == 1 then (GRAPH_TOOL, AccountInput(vars.accountId))
    else (SANCTIONS_TOOL, NameInput(vars.beneficiaryName))
  }

  function ToolAnswer(tools: Tools, vars: Vars, k: nat): ToolOutput
    requires k < 3
  {
    if k == 0 then History(tools.history(vars.accountId))
    else if k == 1 then Graph(tools.graph(vars.accountId))
    else Screening(tools.listed(vars.beneficiaryName))
  }

  lemma ResearchTurn(tools: Tools, vars: Vars, freshId: seq<Message> -> string, messages: seq<Message>, turns: nat)
    returns (next: seq<Message>)
    requires AssistantTurns(messages) < 3 && turns > 0
    ensures var k := AssistantTurns(messages);
            var (name, input) := Research(vars, k);
            var call := ToolCall(freshId(messages), name, input);
            && next == Exchange(messages, call, ToolAnswer(tools, vars, k))
            && UsesIn(next) == UsesIn(messages) + [call]
            && AssistantTurns(next) == k + 1
            && DigestOf(next).evidence == DigestOf(messages).evidence[name := ToolAnswer(tools, vars, k)]
    ensures var complete := Replay(true, vars, freshId);
            var rest := Investigate(complete, tools, next, turns - 1);
            Investigate(complete, tools, messages, turns) == rest.(completions := rest.completions + 1)
  {
    hide DigestOf, UsesIn, Investigate, ScriptedCase;
    var k := AssistantTurns(messages);
    var (name, input) := Research(vars, k);
    var call := ToolCall(freshId(messages), name, input);
    var out := ToolAnswer(tools, vars, k);
    next := Exchange(messages, call, out);
    DigestExchange(messages, call, out);
    UsesAppend(messages, [call], [ToolResult(call.id, out)]);
    OneTurn(Replay(true, vars, freshId), tools, messages, turns, call, out);
  }

  lemma StartOfReplay(prompt: string)
    ensures var m := [Prompt(prompt)];
            AssistantTurns(m) == 0 && UsesIn(m) == [] && DigestOf(m) == NOTHING_YET
  {
    var m := [Prompt(prompt)];
    assert m[..0] == [];
    assert UsesIn([]) == [] && DigestOf([]) == NOTHING_YET && AssistantTurns([]) == 0;
  }

  /**
    At high likelihood a replayed investigation ends with its fourth completion, after exactly the
    three research calls in order, and files what the tools returned.
   */
  lemma {:induction false} HighReplay(tools: Tools, vars: Vars, freshId: seq<Message> -> string, prompt: string)
    ensures var inq := Investigate(Replay(true, vars, freshId), tools, [Prompt(prompt)], MAX_TURNS);
            var uses := UsesIn(inq.messages);
            && inq.ending == Filed(ReplayedCase(tools, vars)) && inq.completions == 4
            && |uses| == 3
            && forall k | 0 <= k < 3 :: (uses[k].name, uses[k].input) == Research(vars, k)
  {
    hide DigestOf, UsesIn, Investigate, Exchange, Score;
    var complete := Replay(true, vars, freshId);
    var m0 := [Prompt(prompt)];
    StartOfReplay(prompt);
    var m1 := ResearchTurn(tools, vars, freshId, m0, 6);
    var m2 := ResearchTurn(tools, vars, freshId, m1, 5);
    var m3 := ResearchTurn(tools, vars, freshId, m2, 4);
    var evidence := DigestOf(m3).evidence;
    assert HistoryIn(evidence) == tools.history(vars.accountId);
    assert LinkedIn(evidence) == tools.graph(vars.accountId);
    assert HitIn(evidence) == tools.listed(vars.beneficiaryName);
    var call := ToolCall(freshId(m3), EMIT_TOOL, Filing(ScriptedCase(vars, evidence)));
    LastTurn(complete, tools, m3, 3, call);
    ScoreRange(vars, tools.history(vars.accountId), |tools.graph(vars.accountId)|, tools.listed(vars.beneficiaryName));
  }

  /** Three times the mean of past amounts that come to something. */
  ghost predicate ThriceUsual(amounts: seq<real>, amount: real) {
    amounts != [] && RiskRules.Sum(amounts) > 0.0 && amount * |amounts| as real >= 3.0 * RiskRules.Sum(amounts)
  }

  lemma Thrice(n: real, s: real, m: real, amount: real)
    requires n > 0.0 && m == s / n
    ensures m > 0.0 <==> s > 0.0
    ensures amount >= m * 3.0 <==> amount * n >= 3.0 * s
  {
    assert m * n == s;
    assert (amount - m * 3.0) * n == amount * n - 3.0 * s;
  }

  lemma ThriceTheMean(amounts: seq<real>, amount: real)
    requires amounts != []
    ensures var mean := RiskRules.Mean(amounts);
            ThriceUsual(amounts, amount) <==> mean > 0.0 && amount >= mean * 3.0
  {
    Thrice(|amounts| as real, RiskRules.Sum(amounts), RiskRules.Mean(amounts), amount);
  }

  /** What the filed case says: the tools' own answers, the score they come to, and when compliance is called in. */
  lemma ReplayedCaseIsEvidence(tools: Tools, vars: Vars)
    ensures var c := ReplayedCase(tools, vars);
            var amounts, linked := tools.history(vars.accountId), tools.graph(vars.accountId);
            var score := if tools.listed(vars.beneficiaryName) then 85 + 3 * |linked|
                         else if vars.rulesScore >= 50 || ThriceUsual(amounts, vars.amount) then 70 + 3 * |linked|
                         else 40 + 3 * |linked|;
            && c.linkedAccounts == linked && c.sanctionsHit == tools.listed(vars.beneficiaryName)
            && c.riskScore == (if score > 95 then 95 else score)
            && (c.recommendComplianceReview <==> c.riskScore >= 70 || c.sanctionsHit)
  {
    var amounts := tools.history(vars.accountId);
    if amounts != [] { ThriceTheMean(amounts, vars.amount); }
    hide RiskRules.Mean, ThriceUsual;
  }

  /** At low likelihood it ends with the first completion and asks no tool. */
  lemma {:induction false} LowReplay(tools: Tools, vars: Vars, freshId: seq<Message> -> string, prompt: string)
    ensures Investigate(Replay(false, vars, freshId), tools, [Prompt(prompt)], MAX_TURNS) ==
            Inquest(Filed(CaseFile(12, [], false, false)), [Prompt(prompt)], 1)
  {
    var m := [Prompt(prompt)];
    var call := ToolCall(freshId(m), EMIT_TOOL, Filing(RawCase(12, [], false, false)));
    LastTurn(Replay(false, vars, freshId), tools, m, 6, call);
  }

  // ---------------------------------------------------------------- a replayed pipeline run

  /** triage_step for TriageAgent's choice of scenario; the texts depend on the triggered rules. */
  function ReplayTriage(rules: RuleVerdict, prefilter: PreFilterVerdict, category: string, reasoning: string)
    : TriageVerdict
  {
    if rules.riskScore >= 50 || prefilter.isAnomaly then TriageVerdict(0.82, category, true, reasoning)
    else TriageVerdict(0.04, "normal_activity", false, reasoning)
  }

  /** replay_vars of the investigator. */
  function VarsFor(tx: Transaction, rulesScore: nat): Vars {
    var name := if tx.beneficiaryName.Some? && tx.beneficiaryName.value != "" then tx.beneficiaryName.value
                else "Unspecified demo beneficiary";
    Vars(tx.accountId, name, tx.amount, rulesScore)
  }

  /** How InvestigatorAgent.run goes with the replay provider, for a triage verdict. */
  function ReplayInquest(tools: Tools, tx: Transaction, rules: RuleVerdict, triage: TriageVerdict,
                         freshId: seq<Message> -> string, prompt: string): Inquest
  {
    Investigate(Replay(triage.fraudLikelihood >= 0.5, VarsFor(tx, rules.riskScore), freshId),
                tools, [Prompt(prompt)], MAX_TURNS)
  }

  predicate FromInquest(inq: Inquest, a: Pipeline.Answers) {
    inq.ending == Filed(a.caseFile) && |a.calls| == |UsesIn(inq.messages)|
  }

  /** The answers of a run in replay mode, as far as they are asked for: scripted triage and the replayed case. */
  ghost predicate Replayed(tools: Tools, tx: Transaction, a: Pipeline.Answers) {
    && (!Pipeline.ClosesAtStageZero(a) ==>
          a.triage == ReplayTriage(a.rules, a.prefilter, a.triage.category, a.triage.reasoning))
    && (Pipeline.Investigated(a) ==>
          exists freshId, prompt :: FromInquest(ReplayInquest(tools, tx, a.rules, a.triage, freshId, prompt), a))
  }

  /**
    In replay mode, with bands derived from scores: a transaction is investigated exactly at a rule
    score of 50 or an anomaly, and then with three tool calls.  Only an investigated transaction can
    be blocked: on a watchlist match, or on a recent security event with a case score of 50, which
    from a rule score of 50 on is certain.  Where the rules alone would block, the investigation may hold.
   */
  lemma ReplayedPayment(tools: Tools, tx: Transaction, a: Pipeline.Answers, audited: bool, rs: seq<Pipeline.Reply>)
    requires Replayed(tools, tx, a) && Pipeline.Complete(a, audited, rs)
    requires a.rules.riskBand == RiskRules.FromScore(a.rules.riskScore)
    ensures Pipeline.Investigated(a) <==> a.rules.riskScore >= 50 || a.prefilter.isAnomaly
    ensures Pipeline.Investigated(a) ==> |a.calls| == 3
    ensures var p := Pipeline.Outcome(tx, a, audited, rs).payment;
            var hit := tools.listed(if tx.beneficiaryName.Some? && tx.beneficiaryName.value != ""
                                    then tx.beneficiaryName.value else "Unspecified demo beneficiary");
            && p.Some?
            && (Pipeline.Investigated(a) ==>
                  && a.caseFile.linkedAccounts == tools.graph(tx.accountId) && a.caseFile.sanctionsHit == hit
                  && (a.rules.riskScore >= 50 ==> a.caseFile.riskScore >= 70))
            && (p.value.action == Pipeline.Block <==>
                Pipeline.Investigated(a) && (hit || (a.security.Some? && a.caseFile.riskScore >= 50)))
            && (a.rules.riskScore >= 50 ==> (p.value.action == Pipeline.Block <==> hit || a.security.Some?))
            && (p.value.action == Pipeline.Allow <==>
                Pipeline.ClosesAtStageZero(a) && Pipeline.FullyBacked(a, audited, rs))
  {
    hide Pipeline.Outcome, Pipeline.FullyBacked, Pipeline.Trace, Pipeline.Complete, Investigate, Score;
    Pipeline.FinalAction(tx, a, audited, rs);
    if Pipeline.Investigated(a) {
      var freshId, prompt :| FromInquest(ReplayInquest(tools, tx, a.rules, a.triage, freshId, prompt), a);
      var vars := VarsFor(tx, a.rules.riskScore);
      HighReplay(tools, vars, freshId, prompt);
      ScoreRange(vars, tools.history(vars.accountId), |tools.graph(vars.accountId)|,
                 tools.listed(vars.beneficiaryName));
    }
  }
}
