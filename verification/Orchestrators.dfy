/**
  Orchestrator.process_transaction of agents-python/app/orchestrator.py and apply_payment_control of
  agents-python/app/payments.py as they run: a PipelineResult is filled in step by step while the
  audit service is called.  The result is proved to be `Pipeline.Outcome` and the calls to be those
  of `Pipeline.NextCommand`.
 */
module Orchestrators {
  import A = AuditChain
  import opened Models
  import opened Pipeline
  import opened SlidingWindow
  import opened Wrappers

  /** PipelineResult; its last fields hold what the stages returned. */
  class PipelineResult {
    var events: seq<Event>
    var receipts: seq<A.Entry>
    var errors: seq<Problem>
    var status: AuditStatus
    var verification: Option<A.VerifyResponse>
    var stageReached: Step
    var rules: Option<RuleVerdict>
    var prefilter: Option<PreFilterVerdict>
    var triage: Option<TriageVerdict>
    var caseFile: Option<CaseFile>
    var compliance: Option<ComplianceReport>
    var alert: Option<Alert>
    var payment: Option<PaymentRecord>

    function AsDict(): View
      reads this
    {
      View(events, receipts, errors, status, verification, stageReached, rules, prefilter, triage, caseFile,
           compliance, alert, payment)
    }

    constructor ()
      ensures AsDict() == NEW_RESULT
    {
      events, receipts, errors, status, verification, stageReached := [], [], [], NotConfigured, None, Closed;
      rules, prefilter, triage, caseFile, compliance, alert, payment := None, None, None, None, None, None, None;
    }
  }

  /** The audit service as one transaction meets it: call k gets the reply `script(k)`. */
  class AuditClient {
    const script: nat -> Reply
    var sent: seq<Command>
    var heard: seq<Reply>

    constructor (script: nat -> Reply)
      ensures this.script == script && sent == [] && heard == []
    {
      this.script, sent, heard := script, [], [];
    }

    method Append(c: Command) returns (r: Result<A.Entry>)
      modifies this
      ensures sent == old(sent) + [c] && heard == old(heard) + [script(|old(heard)|)]
      ensures var reply := script(|old(heard)|);
              r == if reply.Receipt? then Success(reply.entry) else Failure
    {
      var reply := script(|heard|);
      sent, heard := sent + [c], heard + [reply];
      return if reply.Receipt? then Success(reply.entry) else Failure;
    }

    method Verify() returns (r: Result<A.VerifyResponse>)
      modifies this
      ensures sent == old(sent) + [Command.Verify] && heard == old(heard) + [script(|old(heard)|)]
      ensures var reply := script(|old(heard)|);
              r == if reply.Verification? then Success(reply.response) else Failure
    {
      var reply := script(|heard|);
      sent, heard := sent + [Command.Verify], heard + [reply];
      return if reply.Verification? then Success(reply.response) else Failure;
    }
  }

  /** What the result shows of the records sent so far, and nothing else. */
  ghost predicate Recorded(audit: AuditClient?, receipts: seq<A.Entry>, errors: seq<Problem>, cs: seq<Command>)
    reads audit
    requires forall i | 0 <= i < |cs| :: cs[i].Append?
  {
    if audit == null then receipts == [] && errors == []
    else
      && audit.sent == cs && |audit.heard| == |cs|
      && receipts == Receipts(audit.heard) && errors == Unpersisted(cs, audit.heard)
  }

  lemma {:induction false} ReceiptsAppend(rs: seq<Reply>, r: Reply)
    ensures Receipts(rs + [r]) == Receipts(rs) + if r.Receipt? then [r.entry] else []
  {
    assert (rs + [r])[..|rs|] == rs;
  }

  lemma {:induction false} UnpersistedAppend(cs: seq<Command>, c: Command, rs: seq<Reply>, r: Reply)
    requires |cs| == |rs| && c.Append? && forall i | 0 <= i < |cs| :: cs[i].Append?
    ensures Unpersisted(cs + [c], rs + [r]) ==
            Unpersisted(cs, rs) + if r.Receipt? then [] else [NotPersisted(c.recordType)]
  {
    assert (cs + [c])[..|cs|] == cs && (rs + [r])[..|rs|] == rs;
  }

  /** record: one append; an exception leaves an error message. */
  method Record(result: PipelineResult, audit: AuditClient?, c: Command, ghost cs: seq<Command>)
    requires c.Append? && forall i | 0 <= i < |cs| :: cs[i].Append?
    requires Recorded(audit, result.receipts, result.errors, cs)
    modifies result`receipts, result`errors, audit
    ensures Recorded(audit, result.receipts, result.errors, cs + [c])
  {
    hide Receipts, Unpersisted;
    if audit != null {
      ReceiptsAppend(audit.heard, audit.script(|audit.heard|));
      UnpersistedAppend(cs, c, audit.heard, audit.script(|audit.heard|));
      var receipt := audit.Append(c);
      if receipt.Success? {
        result.receipts := result.receipts + [receipt.value];
      } else {
        result.errors := result.errors + [NotPersisted(c.recordType)];
      }
    }
  }

  /** The records sent when the events so far have been emitted. */
  ghost function SentFor(tx: Transaction, es: seq<Event>): (cs: seq<Command>)
    ensures forall i | 0 <= i < |cs| :: cs[i].Append?
  {
    [Append(CaseOpened, Opening(tx))] + EventRecords(es)
  }

  /** The result after stage 0. */
  function AfterStageZero(a: Answers): View {
    NEW_RESULT.(events := [] + [RulesScored(a.rules)] + [Prefiltered(a.prefilter)], rules := Some(a.rules),
                prefilter := Some(a.prefilter))
  }

  function AfterTriage(a: Answers): View {
    var v := AfterStageZero(a);
    v.(events := v.events + [Triaged(a.triage)], triage := Some(a.triage), stageReached := Triage)
  }

  function AfterInvestigation(a: Answers): View {
    var v := AfterTriage(a);
    v.(events := v.events + ToolEvents(a.calls) + [CaseFiled(a.caseFile)], caseFile := Some(a.caseFile),
       stageReached := Investigation)
  }

  function AfterCompliance(a: Answers): View {
    var v := AfterInvestigation(a);
    if !a.caseFile.recommendComplianceReview then v
    else v.(events := v.events + [ReportDrafted(a.report)], compliance := Some(a.report), stageReached := Compliance)
  }

  function AfterFusion(a: Answers): View {
    var v := AfterCompliance(a);
    if a.security.None? then v
    else v.(events := v.events + [Fused(a.security.value)], stageReached := Fusion)
  }

  /** Up to the compliance report, and for a case closed before it, the security event is not looked at. */
  lemma SecurityComesLast(a: Answers, security: Option<SecurityEvent>)
    ensures var b := a.(security := security);
            && Investigated(b) == Investigated(a)
            && AfterCompliance(b) == AfterCompliance(a)
            && (!Investigated(a) ==> Stages(b) == Stages(a))
  {
    hide ToolEvents;
  }

  lemma SkippedStages(a: Answers)
    ensures !a.caseFile.recommendComplianceReview ==> AfterCompliance(a) == AfterInvestigation(a)
    ensures a.security.None? ==> AfterFusion(a) == AfterCompliance(a)
  {
  }

  lemma Regroup(p: seq<Event>, t: Event, tools: seq<Event>, k: Event, c: seq<Event>, f: seq<Event>, e: Event)
    ensures p + [t] + tools + [k] + c + f + [e] == p + ([t] + (tools + [k] + (c + f + [e])))
  {
  }

  lemma FusionEvents(a: Answers)
    ensures AfterFusion(a).events ==
            AfterInvestigation(a).events
            + (if a.caseFile.recommendComplianceReview then [ReportDrafted(a.report)] else [])
            + if a.security.Some? then [Fused(a.security.value)] else []
  {
    hide AfterInvestigation;
    var es := AfterInvestigation(a).events;
    assert es + [] == es;
    assert es + [ReportDrafted(a.report)] + [] == es + [ReportDrafted(a.report)];
  }

  lemma AlertCompletes(a: Answers)
    requires Investigated(a)
    ensures var v := AfterFusion(a);
            v.(events := v.events + [Alerted(RaisedAlert(a))], alert := Some(RaisedAlert(a))) == Stages(a)
  {
    assert AfterFusion(a).events + [Alerted(RaisedAlert(a))] == Trace(a) by {
      hide ToolEvents, RaisedAlert, AfterFusion;
      FusionEvents(a);
      assert [] + [RulesScored(a.rules)] + [Prefiltered(a.prefilter)]
          == [RulesScored(a.rules), Prefiltered(a.prefilter)];
      Regroup([RulesScored(a.rules), Prefiltered(a.prefilter)], Triaged(a.triage), ToolEvents(a.calls),
              CaseFiled(a.caseFile),
              if a.caseFile.recommendComplianceReview then [ReportDrafted(a.report)] else [],
              if a.security.Some? then [Fused(a.security.value)] else [], Alerted(RaisedAlert(a)));
    }
    hide Trace, RaisedAlert, ToolEvents;
  }

  lemma ClosingCompletes(a: Answers)
    requires !Investigated(a)
    ensures var v := if ClosesAtStageZero(a) then AfterStageZero(a) else AfterTriage(a);
            v.(events := v.events + [ClosedEarly(!ClosesAtStageZero(a))], stageReached := Closed) == Stages(a)
  {
  }

  /** The result with one more event for every call. */
  function WithToolCalls(v: View, calls: seq<ToolUse>): View {
    if calls == [] then v
    else
      var u := WithToolCalls(v, calls[..|calls| - 1]);
      u.(events := u.events + [ToolCalled(calls[|calls| - 1])])
  }

  lemma {:induction false} WithToolCallsStart(v: View, calls: seq<ToolUse>)
    ensures WithToolCalls(v, calls[..0]) == v
  {
  }

  lemma {:induction false} WithToolCallsStep(v: View, calls: seq<ToolUse>, i: nat)
    requires i < |calls|
    ensures var u := WithToolCalls(v, calls[..i]);
            WithToolCalls(v, calls[..i + 1]) == u.(events := u.events + [ToolCalled(calls[i])])
  {
    assert calls[..i + 1][..i] == calls[..i];
  }

  lemma ToolEventsAppend(calls: seq<ToolUse>, i: nat)
    requires i < |calls|
    ensures ToolEvents(calls[..i + 1]) == ToolEvents(calls[..i]) + [ToolCalled(calls[i])]
  {
  }

  lemma {:induction false} WithToolCallsEvents(v: View, calls: seq<ToolUse>)
    ensures WithToolCalls(v, calls) == v.(events := v.events + ToolEvents(calls))
  {
    if calls == [] {
      assert v.events + ToolEvents(calls) == v.events;
    } else {
      var n := |calls| - 1;
      WithToolCallsEvents(v, calls[..n]);
      ToolEventsAppend(calls, n);
      assert calls[..n + 1] == calls;
      hide ToolEvents;
      assert v.events + ToolEvents(calls[..n]) + [ToolCalled(calls[n])] == v.events + ToolEvents(calls);
    }
  }

  lemma NothingSent(audit: AuditClient?)
    requires audit != null ==> audit.sent == [] && audit.heard == []
    ensures Recorded(audit, [], [], [])
  {
  }

  lemma OpeningSent(tx: Transaction)
    ensures SentFor(tx, []) == [] + [Append(CaseOpened, Opening(tx))]
  {
  }

  /** The result reads like `v` apart from its audit trail, which shows the records of v's events. */
  ghost predicate OnTrack(result: PipelineResult, audit: AuditClient?, tx: Transaction, v: View)
    reads result, audit
  {
    && result.AsDict() == v.(receipts := result.receipts, errors := result.errors)
    && Recorded(audit, result.receipts, result.errors, SentFor(tx, v.events))
  }

  /** emit: the event joins the result and goes on record. */
  method Emit(result: PipelineResult, audit: AuditClient?, tx: Transaction, e: Event, ghost v: View)
    requires OnTrack(result, audit, tx, v)
    modifies result`events, result`receipts, result`errors, audit
    ensures OnTrack(result, audit, tx, v.(events := v.events + [e]))
  {
    hide Recorded;
    ghost var cs := SentFor(tx, result.events);
    assert SentFor(tx, result.events + [e]) == cs + [EventRecord(e)] by {
      assert (result.events + [e])[..|result.events|] == result.events;
    }
    result.events := result.events + [e];
    Record(result, audit, EventRecord(e), cs);
  }

  /** The calls of apply_payment_control: append and, if that did not raise, verify. */
  method AppendAndVerify(audit: AuditClient, c: Command)
    returns (receipt: Result<A.Entry>, verification: Result<A.VerifyResponse>)
    requires c.Append?
    modifies audit
    ensures var appended, last := audit.script(|old(audit.heard)|), audit.script(|old(audit.heard)| + 1);
            && receipt == (if appended.Receipt? then Success(appended.entry) else Failure)
            && verification == (if appended.Receipt? && last.Verification? then Success(last.response) else Failure)
            && audit.heard == old(audit.heard) + (if appended.Receipt? then [appended, last] else [appended])
            && audit.sent == old(audit.sent) + (if appended.Receipt? then [c, Command.Verify] else [c])
  {
    receipt := audit.Append(c);
    verification := Failure;
    if receipt.Success? {
      verification := audit.Verify();
    }
  }

  /** The try block of apply_payment_control: the policy goes on record and the chain is verified again. */
  method RecordPolicy(result: PipelineResult, audit: AuditClient, c: Command) returns (verified: bool)
    requires c.Append?
    modifies result`receipts, result`errors, result`status, result`verification, audit
    ensures var appended, last := audit.script(|old(audit.heard)|), audit.script(|old(audit.heard)| + 1);
            var reply := if appended.Receipt? then last else NoAnswer;
            && result.AsDict() == PolicyRecorded(old(result.AsDict()), appended, reply)
            && verified == (SaysValid(reply) && old(result.errors) == [])
            && audit.heard == old(audit.heard) + (if appended.Receipt? then [appended, last] else [appended])
            && audit.sent == old(audit.sent) + (if appended.Receipt? then [c, Command.Verify] else [c])
  {
    verified := false;
    var receipt, verification := AppendAndVerify(audit, c);
    if receipt.Success? {
      result.receipts := result.receipts + [receipt.value];
    }
    if verification.Success? {
      result.verification := Some(verification.value);
      verified := verification.value.valid && result.errors == [];
      result.status := if verified then Verified else Failed;
    } else {
      result.errors := result.errors + [PolicyNotVerified];
      if result.status != Failed {
        result.status := Unavailable;
      }
    }
  }

  /** What the payment control makes of a result, given the replies it gets. */
  ghost function Controlled(v: View, tx: Transaction, audited: bool, appended: Reply, verified: Reply): View {
    var u := v.(events := v.events + [PolicyEvent(v)]);
    var reply := if appended.Receipt? then verified else NoAnswer;
    if audited then
      Decided(PolicyRecorded(u, appended, reply), tx, PaymentPolicy(v), SaysValid(reply) && v.errors == [])
    else Decided(u, tx, PaymentPolicy(v), false)
  }

  /** apply_payment_control; the simulator is called for nothing but a recorded and verified allow. */
  method ApplyPaymentControl(result: PipelineResult, audit: AuditClient?, tx: Transaction)
    modifies result, audit
    ensures result.payment.Some? && result.payment.value.policyAction == PaymentPolicy(old(result.AsDict())).0
    ensures result.payment.value.execution.Some? <==> result.payment.value.action == Allow
    ensures result.payment.value.execution.Some? ==> Pays(result.payment.value.execution.value, tx)
    ensures audit == null ==> result.AsDict() == Controlled(old(result.AsDict()), tx, false, NoAnswer, NoAnswer)
    ensures audit != null ==>
              var appended, last := audit.script(|old(audit.heard)|), audit.script(|old(audit.heard)| + 1);
              var c := PolicyRecord(old(result.AsDict()));
              && result.AsDict() == Controlled(old(result.AsDict()), tx, true, appended, last)
              && audit.heard == old(audit.heard) + (if appended.Receipt? then [appended, last] else [appended])
              && audit.sent == old(audit.sent) + (if appended.Receipt? then [c, Command.Verify] else [c])
  {
    hide PaymentPolicy, PolicyRecorded, SaysValid;
    var (action, reason) := PaymentPolicy(result.AsDict());
    var policyAction := action;
    var event := PaymentDecided(action, reason);
    result.events := result.events + [event];
    var verified := false;
    if audit != null {
      verified := RecordPolicy(result, audit, Append(PaymentPolicyApplied, Occurred(event)));
    }
    if action == Allow && !verified {
      action, reason := Hold, NotRecorded;
    }
    var execution := if action == Allow then Some(SimulateExecution(tx)) else None;
    result.payment := Some(PaymentRecord(action, policyAction, reason, execution));
  }

  /** What the audit service was asked and answered is a complete run of the protocol, with this result. */
  ghost predicate Completed(v: View, tx: Transaction, a: Answers, sent: seq<Command>, heard: seq<Reply>) {
    && Complete(a, true, heard) && v == Outcome(tx, a, true, heard)
    && |sent| == |heard| && forall k | 0 <= k < |sent| :: NextCommand(tx, a, true, heard[..k]) == Some(sent[k])
  }

  /** finish, as far as the first verification. */
  method CheckTrail(result: PipelineResult, audit: AuditClient)
    modifies result`errors, result`status, result`verification, audit
    ensures var reply := audit.script(|old(audit.heard)|);
            && result.AsDict() == Checked(old(result.AsDict()), reply)
            && audit.heard == old(audit.heard) + [reply] && audit.sent == old(audit.sent) + [Command.Verify]
  {
    var verification := audit.Verify();
    if verification.Success? {
      result.verification := Some(verification.value);
      result.status := if verification.value.valid && result.errors == [] then Verified else Failed;
    } else {
      result.errors := result.errors + [VerificationUnavailable];
      result.status := Unavailable;
    }
  }

  /** The replies up to the payment decide what the payment control starts from. */
  lemma BeforePaymentPrefix(tx: Transaction, a: Answers, rs: seq<Reply>, more: seq<Reply>)
    requires |rs| == RecordCount(a) + 1
    ensures BeforePayment(tx, a, true, rs + more) == BeforePayment(tx, a, true, rs)
    ensures BeforePayment(tx, a, true, rs) == Checked(Gathered(tx, a, true, rs[..|rs| - 1]), rs[|rs| - 1])
  {
    assert (rs + more)[..RecordCount(a)] == rs[..RecordCount(a)];
  }

  /** A run of all records, a verification and the payment control is complete. */
  lemma RunCompletes(tx: Transaction, a: Answers, rs: seq<Reply>, appended: Reply, last: Reply)
    requires |rs| == RecordCount(a) + 1
    ensures var v := BeforePayment(tx, a, true, rs);
            var heard := rs + if appended.Receipt? then [appended, last] else [appended];
            var sent := Records(tx, a) + [Command.Verify]
                        + if appended.Receipt? then [PolicyRecord(v), Command.Verify] else [PolicyRecord(v)];
            Completed(Controlled(v, tx, true, appended, last), tx, a, sent, heard)
  {
    hide Records, Trace, PolicyRecord, Checked, Gathered, PaymentPolicy, RecordCount, BeforePayment;
    var n := RecordCount(a);
    var v := BeforePayment(tx, a, true, rs);
    var heard := rs + if appended.Receipt? then [appended, last] else [appended];
    var sent := Records(tx, a) + [Command.Verify]
                + if appended.Receipt? then [PolicyRecord(v), Command.Verify] else [PolicyRecord(v)];
    BeforePaymentPrefix(tx, a, rs, heard[n + 1..]);
    assert heard == rs + heard[n + 1..];
    assert heard[..n + 1] == rs;
  }

  /** finish: case.completed, the first verification, and the payment control. */
  method Finish(result: PipelineResult, audit: AuditClient?, tx: Transaction, ghost a: Answers)
    requires Recorded(audit, result.receipts, result.errors, SentFor(tx, Trace(a)))
    requires result.AsDict() == Stages(a).(receipts := result.receipts, errors := result.errors)
    modifies result, audit
    ensures audit == null ==> result.AsDict() == Outcome(tx, a, false, [])
    ensures audit != null ==> Completed(result.AsDict(), tx, a, audit.sent, audit.heard)
  {
    hide PaymentPolicy, Trace, Unpersisted, Investigated, RaisedAlert, StageReached, ClosesAtStageZero,
         Checked, Decided, PolicyRecorded, Completed;
    var c := Append(CaseCompleted, Completion(result.stageReached, result.caseFile, result.compliance));
    assert c == CompletionRecord(a) && SentFor(tx, Trace(a)) + [c] == Records(tx, a);
    Record(result, audit, c, SentFor(tx, Trace(a)));
    if audit == null {
      assert result.AsDict() == Gathered(tx, a, false, []);
      ApplyPaymentControl(result, null, tx);
    } else {
      assert result.AsDict() == Gathered(tx, a, true, audit.heard);
      CheckTrail(result, audit);
      ghost var rs, v := audit.heard, result.AsDict();
      BeforePaymentPrefix(tx, a, rs, []);
      ApplyPaymentControl(result, audit, tx);
      RunCompletes(tx, a, rs, audit.script(|rs|), audit.script(|rs| + 1));
    }
  }

  // ---------------------------------------------------------------- recent security events

  const SECURITY_EVENT_WINDOW: int := 600_000_000

  datatype Noted = Noted(at: int, event: SecurityEvent)

  const TIME: Noted -> int := (n: Noted) => n.at

  /** The events after the cutoff, in order. */
  function Late(bucket: seq<Noted>, cutoff: int): seq<Noted> {
    Select(bucket, TIME, cutoff)
  }

  /** What record_security_event keeps for an account after these events. */
  function Kept(history: seq<Noted>): seq<Noted> {
    if history == [] then []
    else
      var n := |history| - 1;
      Late(Kept(history[..n]) + [history[n]], history[n].at - SECURITY_EVENT_WINDOW)
  }

  /** The last of the kept events that is still recent. */
  function Latest(bucket: seq<Noted>, now: int): Option<SecurityEvent> {
    var late := Late(bucket, now - SECURITY_EVENT_WINDOW);
    if late == [] then None else Some(late[|late| - 1].event)
  }

  /** Event i is later than the cutoff, and no later record found it out of the window. */
  ghost predicate Remembered(history: seq<Noted>, cutoff: int, i: nat)
    requires i < |history|
  {
    && history[i].at > cutoff
    && forall j | i < j < |history| :: history[i].at > history[j].at - 600_000_000
  }

  /** `i` is the last remembered event; -1 if there is none. */
  ghost predicate LastRemembered(history: seq<Noted>, cutoff: int, i: int) {
    && -1 <= i < |history| && (i >= 0 ==> Remembered(history, cutoff, i))
    && forall k: nat | i < k < |history| :: !Remembered(history, cutoff, k)
  }

  lemma LastRememberedStep(history: seq<Noted>, x: Noted, cutoff: int, i: int)
    requires var pruned := x.at - SECURITY_EVENT_WINDOW;
             LastRemembered(history, if pruned < cutoff then cutoff else pruned, i)
    ensures LastRemembered(history + [x], cutoff, if x.at > cutoff then |history| else i)
  {
    var all, n := history + [x], |history|;
    var pruned := x.at - SECURITY_EVENT_WINDOW;
    var late := if pruned < cutoff then cutoff else pruned;
    forall k: nat | k < n ensures Remembered(all, cutoff, k) <==> Remembered(history, late, k) {
      assert all[k] == history[k] && all[n] == x;
      assert forall j | k < j < n :: all[j] == history[j];
    }
    assert Remembered(all, cutoff, n) <==> x.at > cutoff;
  }

  lemma {:induction false} LateKeptStep(history: seq<Noted>, x: Noted, cutoff: int)
    ensures var pruned := x.at - SECURITY_EVENT_WINDOW;
            var late := if pruned < cutoff then cutoff else pruned;
            Late(Kept(history + [x]), cutoff) == Late(Kept(history), late) + if x.at > cutoff then [x] else []
  {
    var pruned := x.at - SECURITY_EVENT_WINDOW;
    assert (history + [x])[..|history|] == history;
    assert Kept(history + [x]) == Late(Kept(history) + [x], pruned);
    hide Select, Kept;
    SelectTwice(Kept(history) + [x], TIME, pruned, cutoff);
    SelectAppend(Kept(history), TIME, x, if pruned < cutoff then cutoff else pruned);
  }

  /** The last of the kept events after the cutoff is the last remembered one. */
  lemma {:induction false} LastKept(history: seq<Noted>, cutoff: int) returns (i: int)
    ensures LastRemembered(history, cutoff, i)
    ensures var late := Late(Kept(history), cutoff);
            (late == [] <==> i == -1) && (late != [] ==> late[|late| - 1] == history[i])
  {
    if history == [] {
      i := -1;
    } else {
      hide Select, Kept, LastRemembered;
      var n := |history| - 1;
      var p, x := history[..n], history[n];
      assert history == p + [x];
      var pruned := x.at - SECURITY_EVENT_WINDOW;
      i := LastKept(p, if pruned < cutoff then cutoff else pruned);
      assert i >= 0 ==> p[i] == history[i];
      LastRememberedStep(p, x, cutoff, i);
      LateKeptStep(p, x, cutoff);
      i := if x.at > cutoff then n else i;
    }
  }

  /** Which event an alert is fused with, for any clock: the last remembered one. */
  lemma FusesWithLastRemembered(history: seq<Noted>, now: int) returns (i: int)
    ensures LastRemembered(history, now - SECURITY_EVENT_WINDOW, i)
    ensures Latest(Kept(history), now) == if i == -1 then None else Some(history[i].event)
  {
    hide Select, Kept, LastRemembered;
    i := LastKept(history, now - SECURITY_EVENT_WINDOW);
  }

  /**
    An alert is always fused with the account's newest security event if that is less than ten
    minutes old.  If it is older, nothing is fused exactly if no other event is still remembered.
   */
  lemma {:induction false} FusesWithNewest(history: seq<Noted>, now: int)
    requires history != []
    ensures var newest, cutoff := history[|history| - 1], now - 600_000_000;
            && (newest.at > cutoff ==> Latest(Kept(history), now) == Some(newest.event))
            && (newest.at <= cutoff ==>
                  (Latest(Kept(history), now) == None <==>
                   forall i: nat | i < |history| :: !Remembered(history, cutoff, i)))
  {
    var n := |history| - 1;
    var i := FusesWithLastRemembered(history, now);
    assert Remembered(history, now - SECURITY_EVENT_WINDOW, n) <==> history[n].at > now - SECURITY_EVENT_WINDOW;
    hide Select, Kept, Latest, Remembered;
  }

  /** With a clock that does not step back a stale newest event means that nothing is fused. */
  lemma {:induction false} SteadyClockFusesNewest(history: seq<Noted>, now: int)
    requires history != [] && forall i | 0 <= i < |history| :: history[i].at <= history[|history| - 1].at
    ensures var newest := history[|history| - 1];
            Latest(Kept(history), now) ==
            if newest.at > now - 600_000_000 then Some(newest.event) else None
  {
    FusesWithNewest(history, now);
    hide Select, Kept, Latest;
    var cutoff := now - SECURITY_EVENT_WINDOW;
    assert history[|history| - 1].at <= cutoff ==>
             forall i: nat | i < |history| :: !Remembered(history, cutoff, i);
  }

  /** When the clock steps back between two events, an alert is fused with the older one once the newer is stale. */
  lemma SteppedBackClockFusesOlder(older: Noted, newer: Noted, now: int)
    requires newer.at <= now - SECURITY_EVENT_WINDOW < older.at
    ensures Latest(Kept([older] + [newer]), now) == Some(older.event)
  {
    var history, cutoff := [older] + [newer], now - SECURITY_EVENT_WINDOW;
    assert history[0] == older && history[1] == newer;
    assert Remembered(history, cutoff, 0) && !Remembered(history, cutoff, 1);
    var i := FusesWithLastRemembered(history, now);
    hide Select, Kept, Latest, Remembered;
    assert i == 0;
  }

  // ---------------------------------------------------------------- the orchestrator

  class Orchestrator {
    const audit: AuditClient?
    var recentSecurityEvents: map<string, seq<Noted>>

    constructor (audit: AuditClient?)
      ensures this.audit == audit && recentSecurityEvents == map[]
    {
      this.audit, recentSecurityEvents := audit, map[];
    }

    function Bucket(accountId: string): seq<Noted>
      reads this
    {
      if accountId in recentSecurityEvents then recentSecurityEvents[accountId] else []
    }

    /** If the account's bucket is what `history` leaves, it stays so; no other account's bucket changes. */
    method RecordSecurityEvent(event: SecurityEvent, now: int, ghost history: seq<Noted>)
      requires event.accountId.Some? ==> Bucket(event.accountId.value) == Kept(history)
      modifies this`recentSecurityEvents
      ensures event.accountId.Some? && event.accountId.value != "" ==>
                Bucket(event.accountId.value) == Kept(history + [Noted(now, event)])
      ensures forall id | event.accountId != Some(id) || id == "" :: Bucket(id) == old(Bucket(id))
    {
      if event.accountId.None? || event.accountId.value == "" {
        return;
      }
      var id := event.accountId.value;
      var bucket := Bucket(id) + [Noted(now, event)];
      assert (history + [Noted(now, event)])[..|history|] == history;
      recentSecurityEvents := recentSecurityEvents[id := Late(bucket, now - SECURITY_EVENT_WINDOW)];
    }

    method Open(result: PipelineResult, tx: Transaction)
      requires result.AsDict() == NEW_RESULT && (audit != null ==> audit.sent == [] && audit.heard == [])
      modifies result, audit
      ensures OnTrack(result, audit, tx, NEW_RESULT)
    {
      hide Recorded, SentFor;
      OpeningSent(tx);
      NothingSent(audit);
      Record(result, audit, Append(CaseOpened, Opening(tx)), []);
    }

    /** The rules and the pre-filter. */
    method StageZero(result: PipelineResult, tx: Transaction, services: Answers)
      requires OnTrack(result, audit, tx, NEW_RESULT)
      modifies result, audit
      ensures OnTrack(result, audit, tx, AfterStageZero(services))
    {
      hide Recorded, SentFor;
      ghost var v := NEW_RESULT.(rules := Some(services.rules));
      result.rules := Some(services.rules);
      Emit(result, audit, tx, RulesScored(services.rules), v);
      v := v.(events := v.events + [RulesScored(services.rules)], prefilter := Some(services.prefilter));
      result.prefilter := Some(services.prefilter);
      Emit(result, audit, tx, Prefiltered(services.prefilter), v);
    }

    method StartTriage(result: PipelineResult, tx: Transaction, a: Answers)
      requires OnTrack(result, audit, tx, AfterStageZero(a))
      modifies result, audit
      ensures OnTrack(result, audit, tx, AfterTriage(a))
    {
      hide Recorded, SentFor, AfterStageZero;
      ghost var v := AfterStageZero(a).(triage := Some(a.triage), stageReached := Triage);
      result.triage := Some(a.triage);
      result.stageReached := Triage;
      Emit(result, audit, tx, Triaged(a.triage), v);
    }

    /** An early exit, at stage 0 or at triage. */
    method Close(result: PipelineResult, tx: Transaction, a: Answers, ghost v: View)
      requires OnTrack(result, audit, tx, v) && !Investigated(a)
      requires v == if ClosesAtStageZero(a) then AfterStageZero(a) else AfterTriage(a)
      modifies result, audit
      ensures OnTrack(result, audit, tx, Stages(a))
    {
      hide Recorded, SentFor, Stages, AfterStageZero, AfterTriage;
      result.stageReached := Closed;
      var event := ClosedEarly(!ClosesAtStageZero(a));
      Emit(result, audit, tx, event, v.(stageReached := Closed));
      ClosingCompletes(a);
    }

    /** One event for every tool call the investigator made. */
    method EmitToolCalls(result: PipelineResult, tx: Transaction, calls: seq<ToolUse>, ghost v: View)
      requires OnTrack(result, audit, tx, v)
      modifies result`events, result`receipts, result`errors, audit
      ensures OnTrack(result, audit, tx, v.(events := v.events + ToolEvents(calls)))
    {
      hide OnTrack, ToolEvents;
      ghost var u := v;
      WithToolCallsStart(v, calls);
      hide WithToolCalls;
      for i := 0 to |calls|
        invariant u == WithToolCalls(v, calls[..i])
        invariant OnTrack(result, audit, tx, u)
      {
        WithToolCallsStep(v, calls, i);
        Emit(result, audit, tx, ToolCalled(calls[i]), u);
        u := WithToolCalls(v, calls[..i + 1]);
      }
      assert calls[..|calls|] == calls;
      WithToolCallsEvents(v, calls);
    }

    /** The investigator's tool calls and its case file. */
    method FileCase(result: PipelineResult, tx: Transaction, a: Answers)
      requires OnTrack(result, audit, tx, AfterTriage(a))
      modifies result, audit
      ensures OnTrack(result, audit, tx, AfterInvestigation(a))
    {
      hide Recorded, SentFor, ToolEvents, AfterTriage;
      ghost var v := AfterTriage(a).(caseFile := Some(a.caseFile), stageReached := Investigation);
      result.caseFile := Some(a.caseFile);
      result.stageReached := Investigation;
      EmitToolCalls(result, tx, a.calls, v);
      Emit(result, audit, tx, CaseFiled(a.caseFile), v.(events := v.events + ToolEvents(a.calls)));
    }

    method DraftReport(result: PipelineResult, tx: Transaction, a: Answers)
      requires OnTrack(result, audit, tx, AfterInvestigation(a)) && a.caseFile.recommendComplianceReview
      modifies result, audit
      ensures OnTrack(result, audit, tx, AfterCompliance(a))
    {
      hide Recorded, SentFor, AfterInvestigation;
      ghost var v := AfterInvestigation(a).(compliance := Some(a.report), stageReached := Compliance);
      result.compliance := Some(a.report);
      result.stageReached := Compliance;
      Emit(result, audit, tx, ReportDrafted(a.report), v);
    }

    method Fuse(result: PipelineResult, tx: Transaction, a: Answers)
      requires OnTrack(result, audit, tx, AfterCompliance(a)) && a.security.Some?
      modifies result, audit
      ensures OnTrack(result, audit, tx, AfterFusion(a))
    {
      hide Recorded, SentFor, AfterCompliance;
      ghost var v := AfterCompliance(a).(stageReached := Fusion);
      result.stageReached := Fusion;
      Emit(result, audit, tx, Fused(a.security.value), v);
    }

    method RaiseAlert(result: PipelineResult, tx: Transaction, a: Answers)
      requires OnTrack(result, audit, tx, AfterFusion(a)) && Investigated(a)
      modifies result, audit
      ensures OnTrack(result, audit, tx, Stages(a))
    {
      hide Recorded, SentFor, AfterFusion, Stages;
      var severity := SeverityFor(a.caseFile.riskScore, a.security.Some?);
      var alert := Alert(severity, a.caseFile, a.security);
      ghost var v := AfterFusion(a).(alert := Some(alert));
      result.alert := Some(alert);
      Emit(result, audit, tx, Alerted(alert), v);
      AlertCompletes(a);
    }

    method RecentSecurityEvent(accountId: string, now: int) returns (r: Option<SecurityEvent>)
      ensures r == Latest(Bucket(accountId), now)
    {
      var late := Late(Bucket(accountId), now - SECURITY_EVENT_WINDOW);
      r := if late == [] then None else Some(late[|late| - 1].event);
    }

    /** The answers of the services, with the security event found at `now`. */
    ghost function AnswersAt(tx: Transaction, services: Answers, now: int): Answers
      reads this
    {
      services.(security := Latest(Bucket(tx.accountId), now))
    }

    /**
      One transaction, from the start to the alert or to where it is closed.  The account's recent
      security event is looked up when the case and its report are done.
     */
    method RunStages(result: PipelineResult, tx: Transaction, services: Answers, now: int)
      requires result.AsDict() == NEW_RESULT && (audit != null ==> audit.sent == [] && audit.heard == [])
      modifies result, audit
      ensures OnTrack(result, audit, tx, Stages(AnswersAt(tx, services, now)))
    {
      hide OnTrack, AfterInvestigation, AfterCompliance, AfterFusion, Stages, Latest, Select;
      Open(result, tx);
      StageZero(result, tx, services);
      if services.rules.riskScore < RULES_ESCALATION_THRESHOLD && !services.prefilter.isAnomaly {
        Close(result, tx, services, AfterStageZero(services));
        SecurityComesLast(services, Latest(Bucket(tx.accountId), now));
        return;
      }
      StartTriage(result, tx, services);
      if !services.triage.escalate {
        Close(result, tx, services, AfterTriage(services));
        SecurityComesLast(services, Latest(Bucket(tx.accountId), now));
        return;
      }
      FileCase(result, tx, services);
      if services.caseFile.recommendComplianceReview {
        DraftReport(result, tx, services);
      }
      assert !services.caseFile.recommendComplianceReview ==>
               AfterCompliance(services) == AfterInvestigation(services) by {
        SkippedStages(services);
      }
      var security := RecentSecurityEvent(tx.accountId, now);
      var a := services.(security := security);
      SecurityComesLast(services, security);
      if a.security.Some? {
        Fuse(result, tx, a);
      }
      assert a.security.None? ==> AfterFusion(a) == AfterCompliance(a) by { SkippedStages(a); }
      RaiseAlert(result, tx, a);
    }

    /**
      process_transaction.  `services` are the answers of the risk engine and the agents, `now` is
      the clock when a finished case looks for a recent security event.
     */
    method ProcessTransaction(tx: Transaction, services: Answers, now: int) returns (result: PipelineResult)
      requires audit != null ==> audit.sent == [] && audit.heard == []
      modifies audit
      ensures fresh(result)
      ensures var a := AnswersAt(tx, services, now);
              && (audit == null ==> result.AsDict() == Outcome(tx, a, false, []))
              && (audit != null ==> Completed(result.AsDict(), tx, a, audit.sent, audit.heard))
    {
      hide Recorded, SentFor, Trace, Outcome, Completed, Select, Latest, Receipts, Unpersisted;
      result := new PipelineResult();
      RunStages(result, tx, services, now);
      Finish(result, audit, tx, AnswersAt(tx, services, now));
    }
  }
}
