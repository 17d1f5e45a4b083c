/**
  The investigator's bounded tool loop (agents-python/app/llm/investigator_agent.py) and the replay
  provider that rebuilds its state from the message list (provider.py, transcripts.py).

  A provider is any function from the messages so far to tool calls, or to None where it raises:
  every completion sees a longer list, so this covers a live model.  The research tools are
  functions of their argument.  JSON printing and parsing of tool results is the identity.
 */
module Investigators {
  import opened Models
  import opened Wrappers

  const MAX_TURNS: nat := 6

  const HISTORY_TOOL := "get_transaction_history"
  const GRAPH_TOOL := "get_entity_graph"
  const SANCTIONS_TOOL := "check_sanctions_list"
  const EMIT_TOOL := "emit_case_file"

  /** The fields of a case file as a model gives them, not yet validated. */
  datatype RawCase = RawCase(
    riskScore: int, linkedAccounts: seq<string>, sanctionsHit: bool, recommendComplianceReview: bool)

  /** The input dictionary of a tool call: an account id, a name, and the required case fields, if present. */
  datatype Input = Input(accountId: Option<string>, name: Option<string>, caseFields: Option<RawCase>)

  datatype ToolCall = ToolCall(id: string, name: string, input: Input)

  datatype ToolOutput = History(amounts: seq<real>) | Graph(linkedAccounts: seq<string>) | Screening(hit: bool)

  datatype ToolResult = ToolResult(toolUseId: string, content: ToolOutput)

  datatype Message = Prompt(text: string) | Assistant(uses: seq<ToolCall>) | Results(results: seq<ToolResult>)

  type Provider = seq<Message> -> Option<seq<ToolCall>>

  datatype Tools = Tools(history: string -> seq<real>, graph: string -> seq<string>, listed: string -> bool)

  /** execute_research_tool; None where it raises: unknown tool or missing argument. */
  function Execute(tools: Tools, name: string, input: Input): Option<ToolOutput> {
    if name == HISTORY_TOOL && input.accountId.Some? then Some(History(tools.history(input.accountId.value)))
    else if name == GRAPH_TOOL && input.accountId.Some? then Some(Graph(tools.graph(input.accountId.value)))
    else if name == SANCTIONS_TOOL && input.name.Some? then Some(Screening(tools.listed(input.name.value)))
    else None
  }

  // ---------------------------------------------------------------- the loop

  datatype Ending = Filed(caseFile: CaseFile) | Raised

  /** How an investigation ends, the messages by then, and the number of completions. */
  datatype Inquest = Inquest(ending: Ending, messages: seq<Message>, completions: nat)

  /** The input of the first call that files the case. */
  function FirstFiling(calls: seq<ToolCall>): Option<Input> {
    if calls == [] then None
    else if calls[0].name == EMIT_TOOL then Some(calls[0].input)
    else FirstFiling(calls[1..])
  }

  /** CaseFile(**input): the required fields, and a score from 0 to 100. */
  function Validated(input: Input): Ending {
    match input.caseFields
    case Some(c) =>
      if 0 <= c.riskScore <= 100 then
        Filed(CaseFile(c.riskScore, c.linkedAccounts, c.sanctionsHit, c.recommendComplianceReview))
      else Raised
    case None => Raised
  }

  /** Result j carries the id of call j and what the tool returned for its input. */
  ghost predicate Answered(tools: Tools, calls: seq<ToolCall>, results: seq<ToolResult>) {
    && |results| == |calls|
    && forall j | 0 <= j < |calls| ::
         && results[j].toolUseId == calls[j].id
         && Execute(tools, calls[j].name, calls[j].input) == Some(results[j].content)
  }

  function ResultsOf(tools: Tools, calls: seq<ToolCall>): (r: Option<seq<ToolResult>>)
    ensures r.Some? ==> Answered(tools, calls, r.value)
  {
    if calls == [] then Some([])
    else
      var n := |calls| - 1;
      match (ResultsOf(tools, calls[..n]), Execute(tools, calls[n].name, calls[n].input))
      case (Some(rs), Some(out)) => Some(rs + [ToolResult(calls[n].id, out)])
      case _ => None
  }

  function Investigate(complete: Provider, tools: Tools, messages: seq<Message>, turns: nat): Inquest
    decreases turns
  {
    if turns == 0 then Inquest(Raised, messages, 0)
    else match complete(messages)
      case None => Inquest(Raised, messages, 1)
      case Some(calls) =>
        match FirstFiling(calls)
        case Some(input) => Inquest(Validated(input), messages, 1)
        case None =>
          if calls == [] then Inquest(Raised, messages, 1)
          else match ResultsOf(tools, calls)
            case None => Inquest(Raised, messages + [Assistant(calls)], 1)
            case Some(results) =>
              var inq := Investigate(complete, tools, messages + [Assistant(calls)] + [Results(results)], turns - 1);
              inq.(completions := inq.completions + 1)
  }

  /** The tool calls of the messages, in order. */
  function UsesIn(messages: seq<Message>): seq<ToolCall> {
    if messages == [] then []
    else
      var m := messages[|messages| - 1];
      UsesIn(messages[..|messages| - 1]) + if m.Assistant? then m.uses else []
  }

  /** Every list of tool results answers, call by call, the tool calls of the message just before it. */
  ghost predicate Paired(tools: Tools, messages: seq<Message>) {
    forall i | 0 <= i < |messages| && messages[i].Results? ::
      i > 0 && messages[i - 1].Assistant? && Answered(tools, messages[i - 1].uses, messages[i].results)
  }

  lemma PairedGrows(tools: Tools, messages: seq<Message>, calls: seq<ToolCall>, results: seq<ToolResult>)
    requires Paired(tools, messages) && Answered(tools, calls, results)
    ensures Paired(tools, messages + [Assistant(calls)] + [Results(results)])
  {
    hide Answered;
    var more := messages + [Assistant(calls)] + [Results(results)];
    forall i | 0 <= i < |more| && more[i].Results?
      ensures i > 0 && more[i - 1].Assistant? && Answered(tools, more[i - 1].uses, more[i].results)
    {
      if i < |messages| { assert more[i] == messages[i] && more[i - 1] == messages[i - 1]; }
    }
  }

  /** For any provider: at most `turns` completions, paired results, and only a valid score is filed. */
  lemma {:induction false} LoopIsBounded(complete: Provider, tools: Tools, messages: seq<Message>, turns: nat)
    requires Paired(tools, messages)
    ensures var inq := Investigate(complete, tools, messages, turns);
            && inq.completions <= turns
            && messages <= inq.messages && Paired(tools, inq.messages)
            && (inq.ending.Filed? ==> inq.ending.caseFile.riskScore <= 100 && inq.completions > 0)
    decreases turns
  {
    hide Answered;
    if turns > 0 && complete(messages).Some? {
      var calls := complete(messages).value;
      if FirstFiling(calls).None? && calls != [] && ResultsOf(tools, calls).Some? {
        var more := messages + [Assistant(calls)] + [Results(ResultsOf(tools, calls).value)];
        PairedGrows(tools, messages, calls, ResultsOf(tools, calls).value);
        LoopIsBounded(complete, tools, more, turns - 1);
      }
    }
  }

  /** How many completions the messages show. */
  function AssistantTurns(messages: seq<Message>): nat {
    if messages == [] then 0
    else AssistantTurns(messages[..|messages| - 1]) + if messages[|messages| - 1].Assistant? then 1 else 0
  }

  /** Call j is the first that files the case. */
  ghost predicate FilesFirst(calls: seq<ToolCall>, j: nat) {
    j < |calls| && calls[j].name == "emit_case_file" && forall k | 0 <= k < j :: calls[k].name != "emit_case_file"
  }

  /** The input has all fields of the case and a score from 0 to 100. */
  predicate Gives(input: Input, c: CaseFile) {
    input.caseFields == Some(RawCase(c.riskScore, c.linkedAccounts, c.sanctionsHit, c.recommendComplianceReview))
    && c.riskScore <= 100
  }

  ghost predicate FiledIn(calls: seq<ToolCall>, c: CaseFile) {
    exists j: nat :: FilesFirst(calls, j) && Gives(calls[j].input, c)
  }

  ghost predicate NoneFiles(calls: seq<ToolCall>) {
    forall j | 0 <= j < |calls| :: calls[j].name != "emit_case_file"
  }

  lemma {:induction false} FilingFound(calls: seq<ToolCall>) returns (j: nat)
    ensures FirstFiling(calls).None? <==> NoneFiles(calls)
    ensures FirstFiling(calls).Some? ==> FilesFirst(calls, j) && FirstFiling(calls).value == calls[j].input
  {
    j := 0;
    if calls != [] && calls[0].name != EMIT_TOOL {
      j := FilingFound(calls[1..]);
      assert forall k | 0 < k < |calls| :: calls[k] == calls[1..][k - 1];
      j := j + 1;
    }
  }

  lemma {:induction false} FiledExactly(calls: seq<ToolCall>, c: CaseFile)
    ensures FirstFiling(calls).Some? && Validated(FirstFiling(calls).value) == Filed(c) <==> FiledIn(calls, c)
  {
    var j := FilingFound(calls);
    hide FirstFiling;
    if FiledIn(calls, c) {
      var k: nat :| FilesFirst(calls, k) && Gives(calls[k].input, c);
      assert k == j;
    }
    if FirstFiling(calls).Some? && Validated(FirstFiling(calls).value) == Filed(c) {
      assert FilesFirst(calls, j) && Gives(calls[j].input, c);
    }
  }

  /** The research tools and what they need; anything else raises. */
  lemma ToolsAnswer(tools: Tools, name: string, input: Input)
    ensures var out := Execute(tools, name, input);
            && (out.None? <==>
                && (name != "get_transaction_history" || input.accountId.None?)
                && (name != "get_entity_graph" || input.accountId.None?)
                && (name != "check_sanctions_list" || input.name.None?))
            && (out.Some? ==>
                  out.value == (if name == "get_transaction_history" then History(tools.history(input.accountId.value))
                                else if name == "get_entity_graph" then Graph(tools.graph(input.accountId.value))
                                else Screening(tools.listed(input.name.value))))
  {
  }

  /** Some call raises. */
  ghost predicate SomeRaises(tools: Tools, calls: seq<ToolCall>) {
    exists j :: 0 <= j < |calls| && Execute(tools, calls[j].name, calls[j].input).None?
  }

  lemma {:induction false} ResultsUnlessRaised(tools: Tools, calls: seq<ToolCall>)
    ensures ResultsOf(tools, calls).None? <==> SomeRaises(tools, calls)
  {
    if calls != [] {
      var n := |calls| - 1;
      ResultsUnlessRaised(tools, calls[..n]);
      assert forall j | 0 <= j < n :: calls[..n][j] == calls[j];
    }
  }

  /** From message `from` on, each research turn is what the provider answered to the messages before it. */
  ghost predicate Answers(complete: Provider, messages: seq<Message>, from: nat) {
    forall i | from <= i < |messages| && messages[i].Assistant? ::
      complete(messages[..i]) == Some(messages[i].uses) && messages[i].uses != [] && NoneFiles(messages[i].uses)
  }

  /** The loop stopped in or behind its last research turn: out of turns, or on a tool that raised. */
  ghost predicate StoppedResearching(tools: Tools, inq: Inquest, from: nat, turns: nat) {
    var n := |inq.messages|;
    || inq.completions == turns
    || (n > from && inq.messages[n - 1].Assistant? && SomeRaises(tools, inq.messages[n - 1].uses))
  }

  /** The last completion ended it: the provider raised, called no tool, or filed a case, valid or not. */
  ghost predicate StoppedByAnswer(complete: Provider, inq: Inquest) {
    complete(inq.messages).Some? ==> complete(inq.messages).value == [] || !NoneFiles(complete(inq.messages).value)
  }

  /** A case is filed by the last answer, and no other than the one it gives. */
  ghost predicate FiledExactlyBy(answer: Option<seq<ToolCall>>, ending: Ending) {
    forall c :: ending == Filed(c) <==> answer.Some? && FiledIn(answer.value, c)
  }

  /**
    For any provider: the messages hold one research turn for each completion, or for each but the last; a
    case is filed exactly if the last completion's first filing call has all its fields and a score from 0
    to 100; and otherwise the investigation raised in one of five ways.
   */
  ghost predicate Followed(complete: Provider, tools: Tools, messages: seq<Message>, turns: nat, inq: Inquest) {
    var k := AssistantTurns(inq.messages) - AssistantTurns(messages);
    && messages <= inq.messages && Answers(complete, inq.messages, |messages|)
    && inq.completions <= turns && (inq.completions == k || inq.completions == k + 1)
    && (inq.completions == k ==> inq.ending.Raised? && StoppedResearching(tools, inq, |messages|, turns))
    && (inq.completions == k + 1 ==>
          StoppedByAnswer(complete, inq) && FiledExactlyBy(complete(inq.messages), inq.ending))
  }

  lemma {:induction false} TurnsAppend(messages: seq<Message>, m: Message)
    ensures AssistantTurns(messages + [m]) == AssistantTurns(messages) + if m.Assistant? then 1 else 0
  {
    assert (messages + [m])[..|messages|] == messages;
  }

  lemma OneStep(complete: Provider, tools: Tools, messages: seq<Message>, turns: nat)
    requires turns > 0
    ensures Investigate(complete, tools, messages, turns) ==
            match complete(messages)
            case None => Inquest(Raised, messages, 1)
            case Some(calls) =>
              match FirstFiling(calls)
              case Some(input) => Inquest(Validated(input), messages, 1)
              case None =>
                if calls == [] then Inquest(Raised, messages, 1)
                else match ResultsOf(tools, calls)
                  case None => Inquest(Raised, messages + [Assistant(calls)], 1)
                  case Some(results) =>
                    var more := messages + [Assistant(calls)] + [Results(results)];
                    var inq := Investigate(complete, tools, more, turns - 1);
                    inq.(completions := inq.completions + 1)
  {
  }

  lemma {:induction false} OutOfTurns(complete: Provider, tools: Tools, messages: seq<Message>)
    ensures Investigate(complete, tools, messages, 0) == Inquest(Raised, messages, 0)
  {
  }

  /** One research turn more in front. */
  lemma FollowedFromNext(complete: Provider, tools: Tools, messages: seq<Message>, turns: nat, calls: seq<ToolCall>,
                         results: seq<ToolResult>, rest: Inquest)
    requires turns > 0 && complete(messages) == Some(calls) && calls != [] && NoneFiles(calls)
    requires Followed(complete, tools, messages + [Assistant(calls)] + [Results(results)], turns - 1, rest)
    ensures Followed(complete, tools, messages, turns, rest.(completions := rest.completions + 1))
  {
    hide NoneFiles, FiledIn, SomeRaises, AssistantTurns;
    var one := messages + [Assistant(calls)];
    var more, all := one + [Results(results)], rest.messages;
    TurnsAppend(messages, Assistant(calls));
    TurnsAppend(one, Results(results));
    assert all[..|messages|] == messages by { assert more[..|messages|] == messages; }
    assert all[|messages|] == more[|messages|] == Assistant(calls);
    assert all[|messages| + 1] == more[|messages| + 1] == Results(results);
  }

  /** The last completion, when it is no research, and how it ends the investigation. */
  lemma FollowedAtEnd(complete: Provider, tools: Tools, messages: seq<Message>, turns: nat, ending: Ending)
    requires turns > 0
    requires complete(messages).Some? ==> complete(messages).value == [] || !NoneFiles(complete(messages).value)
    requires FiledExactlyBy(complete(messages), ending)
    ensures Followed(complete, tools, messages, turns, Inquest(ending, messages, 1))
  {
    hide NoneFiles, FiledIn, AssistantTurns;
  }

  lemma EndingOf(calls: seq<ToolCall>) returns (ending: Ending)
    ensures ending == if FirstFiling(calls).Some? then Validated(FirstFiling(calls).value) else Raised
    ensures FiledExactlyBy(Some(calls), ending)
  {
    ending := if FirstFiling(calls).Some? then Validated(FirstFiling(calls).value) else Raised;
    forall c ensures ending == Filed(c) <==> FiledIn(calls, c) {
      FiledExactly(calls, c);
    }
  }

  /** A tool that raises. */
  lemma FollowedToRaise(complete: Provider, tools: Tools, messages: seq<Message>, turns: nat, calls: seq<ToolCall>)
    requires turns > 0 && complete(messages) == Some(calls) && calls != [] && NoneFiles(calls)
    requires SomeRaises(tools, calls)
    ensures Followed(complete, tools, messages, turns, Inquest(Raised, messages + [Assistant(calls)], 1))
  {
    hide NoneFiles, FiledIn, SomeRaises, AssistantTurns;
    TurnsAppend(messages, Assistant(calls));
    assert (messages + [Assistant(calls)])[..|messages|] == messages;
  }

  lemma NothingFollows(complete: Provider, tools: Tools, messages: seq<Message>)
    ensures Followed(complete, tools, messages, 0, Inquest(Raised, messages, 0))
  {
    hide AssistantTurns;
  }

  lemma {:induction false} LoopFollowsProvider(complete: Provider, tools: Tools, messages: seq<Message>, turns: nat)
    ensures Followed(complete, tools, messages, turns, Investigate(complete, tools, messages, turns))
    decreases turns
  {
    hide Investigate, Followed, NoneFiles, ResultsOf, FirstFiling, SomeRaises, FiledIn, Validated;
    if turns == 0 {
      OutOfTurns(complete, tools, messages);
      NothingFollows(complete, tools, messages);
      return;
    }
    OneStep(complete, tools, messages, turns);
    if complete(messages).None? {
      FollowedAtEnd(complete, tools, messages, turns, Raised);
      return;
    }
    var calls := complete(messages).value;
    var j := FilingFound(calls);
    if calls == [] || !NoneFiles(calls) {
      var ending := EndingOf(calls);
      FollowedAtEnd(complete, tools, messages, turns, ending);
      return;
    }
    ResultsUnlessRaised(tools, calls);
    if ResultsOf(tools, calls).None? {
      FollowedToRaise(complete, tools, messages, turns, calls);
      return;
    }
    var results := ResultsOf(tools, calls).value;
    var more := messages + [Assistant(calls)] + [Results(results)];
    LoopFollowsProvider(complete, tools, more, turns - 1);
    FollowedFromNext(complete, tools, messages, turns, calls, results, Investigate(complete, tools, more, turns - 1));
  }

  /** The for loop that looks for the case file among the calls. */
  method FindFiling(calls: seq<ToolCall>) returns (r: Option<Input>)
    ensures r == FirstFiling(calls)
  {
    for i := 0 to |calls|
      invariant FirstFiling(calls) == FirstFiling(calls[i..])
    {
      if calls[i].name == EMIT_TOOL {
        return Some(calls[i].input);
      }
    }
    return None;
  }

  lemma {:induction false} FailureSticks(tools: Tools, calls: seq<ToolCall>, k: nat)
    requires k <= |calls| && ResultsOf(tools, calls[..k]).None?
    ensures ResultsOf(tools, calls).None?
    decreases |calls| - k
  {
    if k == |calls| {
      assert calls[..k] == calls;
    } else {
      assert calls[..k + 1][..k] == calls[..k];
      FailureSticks(tools, calls, k + 1);
    }
  }

  /** The for loop that runs the tools; `observed` are the calls shown to the observer before it ended. */
  method RunTools(tools: Tools, calls: seq<ToolCall>) returns (r: Option<seq<ToolResult>>, observed: seq<ToolCall>)
    ensures r == ResultsOf(tools, calls)
    ensures observed <= calls && (r.Some? ==> observed == calls)
  {
    var results := [];
    observed := [];
    for i := 0 to |calls|
      invariant observed == calls[..i] && ResultsOf(tools, calls[..i]) == Some(results)
    {
      var call := calls[i];
      assert calls[..i + 1][..i] == calls[..i];
      var output := Execute(tools, call.name, call.input);
      if output.None? {
        FailureSticks(tools, calls, i + 1);
        return None, observed;
      }
      observed := observed + [call];
      results := results + [ToolResult(call.id, output.value)];
    }
    assert calls[..|calls|] == calls;
    return Some(results), observed;
  }

  lemma {:induction false} UsesAppend(messages: seq<Message>, calls: seq<ToolCall>, results: seq<ToolResult>)
    ensures UsesIn(messages + [Assistant(calls)] + [Results(results)]) == UsesIn(messages) + calls
  {
    var one := messages + [Assistant(calls)];
    assert one[..|messages|] == messages;
    assert (one + [Results(results)])[..|one|] == one;
    assert UsesIn(one + [Results(results)]) == UsesIn(one) + [];
  }

  /** InvestigatorAgent.run. */
  method Investigation(complete: Provider, tools: Tools, prompt: string)
    returns (inq: Inquest, observed: seq<ToolCall>)
    ensures inq == Investigate(complete, tools, [Prompt(prompt)], 6)
    ensures Followed(complete, tools, [Prompt(prompt)], 6, inq)
    ensures inq.ending.Filed? ==> observed == UsesIn(inq.messages)
  {
    hide ResultsOf, FirstFiling, Validated, Followed, Investigate;
    LoopFollowsProvider(complete, tools, [Prompt(prompt)], 6);
    var messages := [Prompt(prompt)];
    observed := [];
    assert UsesIn(messages) == [] by { assert messages[..0] == []; assert UsesIn([]) == []; }
    hide UsesIn;
    for turn := 0 to MAX_TURNS
      invariant observed == UsesIn(messages)
      invariant var rest := Investigate(complete, tools, messages, MAX_TURNS - turn);
                Investigate(complete, tools, [Prompt(prompt)], MAX_TURNS) ==
                rest.(completions := rest.completions + turn)
    {
      OneStep(complete, tools, messages, MAX_TURNS - turn);
      var response := complete(messages);
      if response.None? {
        return Inquest(Raised, messages, turn + 1), observed;
      }
      var filing := FindFiling(response.value);
      if filing.Some? {
        return Inquest(Validated(filing.value), messages, turn + 1), observed;
      }
      if response.value == [] {
        return Inquest(Raised, messages, turn + 1), observed;
      }
      var results, seen := RunTools(tools, response.value);
      if results.None? {
        return Inquest(Raised, messages + [Assistant(response.value)], turn + 1), observed + seen;
      }
      UsesAppend(messages, response.value, results.value);
      messages := messages + [Assistant(response.value)] + [Results(results.value)];
      observed := observed + seen;
    }
    OutOfTurns(complete, tools, messages);
    return Inquest(Raised, messages, MAX_TURNS), observed;
  }
}
