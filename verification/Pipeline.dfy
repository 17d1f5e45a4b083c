/**
  One transaction's way through the pipeline of agents-python/app/orchestrator.py and the payment
  gate of agents-python/app/payments.py.

  A run is determined by what the risk engine, the models and the security feed answer
  (`Answers`) and by the replies of the audit service, in order (`Reply`).  `Outcome` is the
  resulting PipelineResult and `NextCommand` the next call to the audit service; the theorems say
  what the payment decision depends on (`FinalAction`), which event traces exist
  (`TraceIsInLanguage`, `LanguageIsTraced`) and what is on record (`StoredPlusFailed`).
 */
module Pipeline {
  import AuditChain
  import opened Models
  import RiskRules
  import opened Wrappers

  const RULES_ESCALATION_THRESHOLD: nat := 25

  datatype Step =
    | Rules | Prefilter | Triage | Investigation | Compliance | Fusion | Closed | AlertRaised | Payment

  datatype Action = Allow | Hold | Block

  /** Which of its fixed sentences the payment policy gives. */
  datatype Reason =
    | WatchlistMatch | CriticalRisk | HighRisk | EvidenceUnverified | ChecksMissing | SignalRemains | NoSignal
    | NotRecorded

  datatype ToolUse = ToolUse(name: string, subject: string)

  datatype Event =
    | RulesScored(rules: RuleVerdict)
    | Prefiltered(prefilter: PreFilterVerdict)
    | Triaged(triage: TriageVerdict)
    | ToolCalled(call: ToolUse)
    | CaseFiled(caseFile: CaseFile)
    | ReportDrafted(report: ComplianceReport)
    | Fused(security: SecurityEvent)
    | ClosedEarly(atTriage: bool)
    | Alerted(alert: Alert)
    | PaymentDecided(action: Action, reason: Reason)

  function StepOf(e: Event): Step {
    match e
    case RulesScored(_) => Rules
    case Prefiltered(_) => Prefilter
    case Triaged(_) => Triage
    case ToolCalled(_) => Investigation
    case CaseFiled(_) => Investigation
    case ReportDrafted(_) => Compliance
    case Fused(_) => Fusion
    case ClosedEarly(_) => Closed
    case Alerted(_) => AlertRaised
    case PaymentDecided(_, _) => Payment
  }

  // ---------------------------------------------------------------- calls to the audit service

  datatype RecordType = CaseOpened | PipelineStep(step: Step) | CaseCompleted | PaymentPolicyApplied

  function TypeName(t: RecordType): string {
    match t
    case CaseOpened => "case.opened"
    case CaseCompleted => "case.completed"
    case PaymentPolicyApplied => "payment.policy"
    case PipelineStep(step) =>
      "pipeline." + match step
      case Rules => "rules"
      case Prefilter => "prefilter"
      case Triage => "triage"
      case Investigation => "investigation"
      case Compliance => "compliance"
      case Fusion => "fusion"
      case Closed => "closed"
      case AlertRaised => "alert"
      case Payment => "payment"
  }

  datatype Payload =
    | Opening(tx: Transaction)
    | Occurred(event: Event)
    | Completion(stage: Step, caseFile: Option<CaseFile>, compliance: Option<ComplianceReport>)

  datatype Command = Append(recordType: RecordType, payload: Payload) | Verify

  /**
    What comes back from a call: the stored entry, the verification with the log it looked at, or
    an exception (no connection, no answer, an error status).
   */
  datatype Reply =
    | Receipt(entry: AuditChain.Entry)
    | Verification(response: AuditChain.VerifyResponse, seen: AuditChain.LogState)
    | NoAnswer

  predicate SaysValid(r: Reply) {
    r.Verification? && r.response.valid
  }

  // ---------------------------------------------------------------- the result

  datatype AuditStatus = NotConfigured | Verified | Failed | Unavailable

  /** The messages collected in result.audit["errors"]. */
  datatype Problem = NotPersisted(recordType: RecordType) | VerificationUnavailable | PolicyNotVerified

  datatype SimulationReceipt = SimulationReceipt(transactionId: string, amount: real, currency: string)

  datatype PaymentRecord = PaymentRecord(
    action: Action, policyAction: Action, reason: Reason, execution: Option<SimulationReceipt>)

  /** PipelineResult.as_dict. */
  datatype View = View(
    events: seq<Event>, receipts: seq<AuditChain.Entry>, errors: seq<Problem>, status: AuditStatus,
    verification: Option<AuditChain.VerifyResponse>, stageReached: Step,
    rules: Option<RuleVerdict>, prefilter: Option<PreFilterVerdict>, triage: Option<TriageVerdict>,
    caseFile: Option<CaseFile>, compliance: Option<ComplianceReport>, alert: Option<Alert>,
    payment: Option<PaymentRecord>)

  const NEW_RESULT :=
    View([], [], [], NotConfigured, None, Closed, None, None, None, None, None, None, None)

  function SeverityFor(riskScore: nat, hasSecurityEvent: bool): RiskBand {
    if hasSecurityEvent && riskScore >= 50 then RiskRules.Critical
    else if riskScore >= 70 then RiskRules.High
    else if riskScore >= 40 then RiskRules.Medium
    else RiskRules.Low
  }

  /** The policy: evidence in a fixed order of precedence. */
  function PaymentPolicy(v: View): (Action, Reason) {
    if v.caseFile.Some? && v.caseFile.value.sanctionsHit then (Block, WatchlistMatch)
    else
      var severity := if v.alert.Some? then Some(v.alert.value.severity)
                      else if v.rules.Some? then Some(v.rules.value.riskBand)
                      else None;
      if severity == Some(RiskRules.Critical) then (Block, CriticalRisk)
      else if severity == Some(RiskRules.High) then (Hold, HighRisk)
      else if v.status != Verified then (Hold, EvidenceUnverified)
      else if v.rules.None? || v.prefilter.None? then (Hold, ChecksMissing)
      else
        var signal := || v.alert.Some?
                      || v.rules.value.riskScore >= 25
                      || v.prefilter.value.isAnomaly
                      || (v.triage.Some? && v.triage.value.escalate)
                      || (v.caseFile.Some? && v.caseFile.value.recommendComplianceReview);
        if signal then (Hold, SignalRemains) else (Allow, NoSignal)
  }

  function SimulateExecution(tx: Transaction): SimulationReceipt {
    SimulationReceipt(tx.id, tx.amount, tx.currency)
  }

  // ---------------------------------------------------------------- what a run does

  /** What each service answers if it is asked; `calls` are the investigator's tool calls. */
  datatype Answers = Answers(
    rules: RuleVerdict, prefilter: PreFilterVerdict, triage: TriageVerdict, calls: seq<ToolUse>,
    caseFile: CaseFile, report: ComplianceReport, security: Option<SecurityEvent>)

  predicate ClosesAtStageZero(a: Answers) {
    a.rules.riskScore < RULES_ESCALATION_THRESHOLD && !a.prefilter.isAnomaly
  }

  predicate Investigated(a: Answers) {
    !ClosesAtStageZero(a) && a.triage.escalate
  }

  function ToolEvents(calls: seq<ToolUse>): (es: seq<Event>)
    ensures |es| == |calls| && forall i | 0 <= i < |calls| :: es[i] == ToolCalled(calls[i])
  {
    if calls == [] then [] else [ToolCalled(calls[0])] + ToolEvents(calls[1..])
  }

  function RaisedAlert(a: Answers): Alert {
    Alert(SeverityFor(a.caseFile.riskScore, a.security.Some?), a.caseFile, a.security)
  }

  function AfterCase(a: Answers): seq<Event> {
    (if a.caseFile.recommendComplianceReview then [ReportDrafted(a.report)] else [])
    + (if a.security.Some? then [Fused(a.security.value)] else [])
    + [Alerted(RaisedAlert(a))]
  }

  /** The events after stage 0. */
  function Rest(a: Answers): seq<Event> {
    if ClosesAtStageZero(a) then [ClosedEarly(false)]
    else if !a.triage.escalate then [Triaged(a.triage)] + [ClosedEarly(true)]
    else [Triaged(a.triage)] + (ToolEvents(a.calls) + [CaseFiled(a.caseFile)] + AfterCase(a))
  }

  /** The events emitted before the payment decision. */
  function Trace(a: Answers): seq<Event> {
    [RulesScored(a.rules), Prefiltered(a.prefilter)] + Rest(a)
  }

  function StageReached(a: Answers): Step {
    if !Investigated(a) then Closed
    else if a.security.Some? then Fusion
    else if a.caseFile.recommendComplianceReview then Compliance
    else Investigation
  }

  function EventRecord(e: Event): Command {
    Append(PipelineStep(StepOf(e)), Occurred(e))
  }

  function EventRecords(es: seq<Event>): (cs: seq<Command>)
    ensures |cs| == |es|
    ensures forall i | 0 <= i < |es| :: cs[i] == Append(PipelineStep(StepOf(es[i])), Occurred(es[i]))
  {
    if es == [] then [] else EventRecords(es[..|es| - 1]) + [EventRecord(es[|es| - 1])]
  }

  function CompletionRecord(a: Answers): Command {
    Append(CaseCompleted, Completion(
      StageReached(a), if Investigated(a) then Some(a.caseFile) else None,
      if Investigated(a) && a.caseFile.recommendComplianceReview then Some(a.report) else None))
  }

  /** The number of records before the first verification. */
  function RecordCount(a: Answers): nat {
    |Trace(a)| + 2
  }

  /** The records up to case.completed. */
  function Records(tx: Transaction, a: Answers): (cs: seq<Command>)
    ensures |cs| == RecordCount(a) && forall i | 0 <= i < |cs| :: cs[i].Append?
  {
    [Append(CaseOpened, Opening(tx))] + EventRecords(Trace(a)) + [CompletionRecord(a)]
  }

  function Receipts(rs: seq<Reply>): seq<AuditChain.Entry> {
    if rs == [] then []
    else Receipts(rs[..|rs| - 1]) + if rs[|rs| - 1].Receipt? then [rs[|rs| - 1].entry] else []
  }

  /** One problem for every record that did not get its receipt. */
  function Unpersisted(cs: seq<Command>, rs: seq<Reply>): seq<Problem>
    requires |cs| == |rs| && forall i | 0 <= i < |cs| :: cs[i].Append?
  {
    if rs == [] then []
    else
      var n := |rs| - 1;
      Unpersisted(cs[..n], rs[..n]) + if rs[n].Receipt? then [] else [NotPersisted(cs[n].recordType)]
  }

  /** What the stages leave in the result, the audit trail apart. */
  function Stages(a: Answers): View {
    var inv := Investigated(a);
    View(
      Trace(a), [], [], NotConfigured, None,
      StageReached(a), Some(a.rules), Some(a.prefilter), if ClosesAtStageZero(a) then None else Some(a.triage),
      if inv then Some(a.caseFile) else None,
      if inv && a.caseFile.recommendComplianceReview then Some(a.report) else None,
      if inv then Some(RaisedAlert(a)) else None, None)
  }

  /** The result when the stages are over, after the replies `rs` to their records. */
  function Gathered(tx: Transaction, a: Answers, audited: bool, rs: seq<Reply>): View
    requires |rs| == if audited then RecordCount(a) else 0
  {
    Stages(a).(receipts := Receipts(rs), errors := if audited then Unpersisted(Records(tx, a), rs) else [])
  }

  /** The verification in finish. */
  function Checked(v: View, r: Reply): View {
    if r.Verification? then
      v.(verification := Some(r.response),
         status := if r.response.valid && v.errors == [] then Verified else Failed)
    else v.(errors := v.errors + [VerificationUnavailable], status := Unavailable)
  }

  function PolicyEvent(v: View): Event {
    PaymentDecided(PaymentPolicy(v).0, PaymentPolicy(v).1)
  }

  function PolicyRecord(v: View): Command {
    Append(PaymentPolicyApplied, Occurred(PolicyEvent(v)))
  }

  /** apply_payment_control's try block, after the replies to its append and its verify. */
  function PolicyRecorded(v: View, appended: Reply, verified: Reply): View {
    if appended.Receipt? && verified.Verification? then
      v.(receipts := v.receipts + [appended.entry], verification := Some(verified.response),
         status := if verified.response.valid && v.errors == [] then Verified else Failed)
    else
      v.(receipts := if appended.Receipt? then v.receipts + [appended.entry] else v.receipts,
         errors := v.errors + [PolicyNotVerified],
         status := if v.status == Failed then Failed else Unavailable)
  }

  /** The payment decision; `verified` is what the try block found. */
  function Decided(v: View, tx: Transaction, policy: (Action, Reason), verified: bool): View {
    var withheld := policy.0 == Allow && !verified;
    var action := if withheld then Hold else policy.0;
    v.(payment := Some(PaymentRecord(
         action, policy.0, if withheld then NotRecorded else policy.1,
         if action == Allow then Some(SimulateExecution(tx)) else None)))
  }

  /** The result when finish applies the payment control, given the replies so far. */
  function BeforePayment(tx: Transaction, a: Answers, audited: bool, rs: seq<Reply>): View
    requires audited ==> |rs| > RecordCount(a)
  {
    if audited then Checked(Gathered(tx, a, true, rs[..RecordCount(a)]), rs[RecordCount(a)])
    else Gathered(tx, a, false, [])
  }

  /** The next call to the audit service, or None when the run is complete. */
  function NextCommand(tx: Transaction, a: Answers, audited: bool, rs: seq<Reply>): Option<Command> {
    var n := RecordCount(a);
    if !audited then None
    else if |rs| < n then Some(Records(tx, a)[|rs|])
    else if |rs| == n then Some(Verify)
    else if |rs| == n + 1 then Some(PolicyRecord(BeforePayment(tx, a, true, rs)))
    else if |rs| == n + 2 && rs[n + 1].Receipt? then Some(Verify)
    else None
  }

  /** The replies of a complete run: payment.policy is verified only if it was stored. */
  predicate Complete(a: Answers, audited: bool, rs: seq<Reply>) {
    var n := RecordCount(a);
    if !audited then rs == []
    else |rs| > n + 1 && |rs| == if rs[n + 1].Receipt? then n + 3 else n + 2
  }

  /** The result of a complete run. */
  function Outcome(tx: Transaction, a: Answers, audited: bool, rs: seq<Reply>): View
    requires Complete(a, audited, rs)
  {
    var v := BeforePayment(tx, a, audited, rs);
    var w := v.(events := v.events + [PolicyEvent(v)]);
    if !audited then Decided(w, tx, PaymentPolicy(v), false)
    else
      var n := RecordCount(a);
      var last := if |rs| == n + 3 then rs[n + 2] else NoAnswer;
      Decided(PolicyRecorded(w, rs[n + 1], last), tx, PaymentPolicy(v), SaysValid(last) && v.errors == [])
  }

  // ---------------------------------------------------------------- the payment decision

  /** Every record and the policy itself got their receipts, and both verifications said valid. */
  ghost predicate FullyBacked(a: Answers, audited: bool, rs: seq<Reply>) {
    var n := RecordCount(a);
    && audited && |rs| == n + 3
    && (forall i | 0 <= i < |rs| && i != n && i != n + 2 :: rs[i].Receipt?)
    && SaysValid(rs[n]) && SaysValid(rs[n + 2])
  }

  lemma {:induction false} NoneUnpersisted(cs: seq<Command>, rs: seq<Reply>)
    requires |cs| == |rs| && forall i | 0 <= i < |cs| :: cs[i].Append?
    ensures Unpersisted(cs, rs) == [] <==> forall i | 0 <= i < |rs| :: rs[i].Receipt?
  {
    if rs != [] {
      NoneUnpersisted(cs[..|rs| - 1], rs[..|rs| - 1]);
    }
  }

  lemma VerifiedMeansBacked(tx: Transaction, a: Answers, audited: bool, rs: seq<Reply>)
    requires Complete(a, audited, rs)
    ensures var v := BeforePayment(tx, a, audited, rs);
            var n := RecordCount(a);
            && (v.errors == [] <==>
                audited ==> rs[n].Verification? && forall i | 0 <= i < n :: rs[i].Receipt?)
            && (v.status == Verified <==> audited && SaysValid(rs[n]) && v.errors == [])
  {
    hide Trace, Records, Unpersisted, Receipts, ClosesAtStageZero, Investigated, RaisedAlert, StageReached, RecordCount;
    if audited {
      var n := RecordCount(a);
      NoneUnpersisted(Records(tx, a), rs[..n]);
    }
  }

  /** The fields of the result that the policy reads, other than the audit status. */
  lemma PolicyReads(tx: Transaction, a: Answers, audited: bool, rs: seq<Reply>)
    requires audited ==> |rs| > RecordCount(a)
    ensures var v := BeforePayment(tx, a, audited, rs);
            && v.rules == Some(a.rules) && v.prefilter == Some(a.prefilter)
            && v.triage == (if ClosesAtStageZero(a) then None else Some(a.triage))
            && v.caseFile == (if Investigated(a) then Some(a.caseFile) else None)
            && v.alert == (if Investigated(a) then Some(RaisedAlert(a)) else None)
            && v.compliance ==
               (if Investigated(a) && a.caseFile.recommendComplianceReview then Some(a.report) else None)
            && v.stageReached == StageReached(a) && v.events == Trace(a)
  {
    hide Trace, Records, Receipts, Unpersisted, RaisedAlert, StageReached, ClosesAtStageZero;
  }

  /** The payment control adds its event and decision and touches nothing else but the audit fields. */
  lemma PaymentKeepsFields(tx: Transaction, a: Answers, audited: bool, rs: seq<Reply>)
    requires Complete(a, audited, rs)
    ensures var v, w := BeforePayment(tx, a, audited, rs), Outcome(tx, a, audited, rs);
            && w.events == v.events + [PolicyEvent(v)] && w.payment.Some?
            && w.rules == v.rules && w.prefilter == v.prefilter && w.triage == v.triage && w.caseFile == v.caseFile
            && w.compliance == v.compliance && w.alert == v.alert && w.stageReached == v.stageReached
  {
    hide BeforePayment, PaymentPolicy;
  }

  lemma PolicyDecides(tx: Transaction, a: Answers, audited: bool, rs: seq<Reply>)
    requires audited ==> |rs| > RecordCount(a)
    requires a.rules.riskBand == RiskRules.FromScore(a.rules.riskScore)
    ensures var v := BeforePayment(tx, a, audited, rs);
            && (PaymentPolicy(v).0 == Allow <==> ClosesAtStageZero(a) && v.status == Verified)
            && (PaymentPolicy(v).0 == Block <==>
                if Investigated(a) then
                  a.caseFile.sanctionsHit || (a.security.Some? && a.caseFile.riskScore >= 50)
                else a.rules.riskScore >= 80)
  {
    hide BeforePayment;
    PolicyReads(tx, a, audited, rs);
  }

  /** The receipt is for this transaction, its amount and its currency. */
  predicate Pays(x: SimulationReceipt, tx: Transaction) {
    x.transactionId == tx.id && x.amount == tx.amount && x.currency == tx.currency
  }

  lemma OutcomePayment(tx: Transaction, a: Answers, audited: bool, rs: seq<Reply>)
    requires Complete(a, audited, rs)
    ensures var v := BeforePayment(tx, a, audited, rs);
            var n := RecordCount(a);
            var backed := audited && |rs| == n + 3 && SaysValid(rs[n + 2]) && v.errors == [];
            var p := Outcome(tx, a, audited, rs).payment;
            && p.Some?
            && p.value.action == (if PaymentPolicy(v).0 == Allow && !backed then Hold else PaymentPolicy(v).0)
            && (p.value.execution.Some? <==> p.value.action == Allow)
            && (p.value.execution.Some? ==> Pays(p.value.execution.value, tx))
            && p.value.policyAction == PaymentPolicy(v).0
            && p.value.reason == if PaymentPolicy(v).0 == Allow && !backed then NotRecorded else PaymentPolicy(v).1
  {
    hide BeforePayment, PaymentPolicy;
  }

  /**
    The payment decision of every complete run whose risk engine derives the band from the score.
    Money moves only if stage 0 closed the case and the audit trail is complete and verified twice, and
    it is the transaction's amount.
   */
  lemma FinalAction(tx: Transaction, a: Answers, audited: bool, rs: seq<Reply>)
    requires Complete(a, audited, rs) && a.rules.riskBand == RiskRules.FromScore(a.rules.riskScore)
    ensures var p := Outcome(tx, a, audited, rs).payment;
            && p.Some?
            && (p.value.action == Allow <==>
                a.rules.riskScore < 25 && !a.prefilter.isAnomaly && FullyBacked(a, audited, rs))
            && (p.value.action == Block <==>
                if Investigated(a) then
                  a.caseFile.sanctionsHit || (a.security.Some? && a.caseFile.riskScore >= 50)
                else a.rules.riskScore >= 80)
            && (p.value.execution.Some? <==> p.value.action == Allow)
            && (p.value.execution.Some? ==> Pays(p.value.execution.value, tx))
  {
    hide Outcome, BeforePayment, PaymentPolicy;
    VerifiedMeansBacked(tx, a, audited, rs);
    PolicyDecides(tx, a, audited, rs);
    OutcomePayment(tx, a, audited, rs);
  }

  /** Whatever band the engine names, execution takes a case closed at stage 0 and a complete, twice verified trail. */
  lemma ExecutionNeedsBacking(tx: Transaction, a: Answers, audited: bool, rs: seq<Reply>)
    requires Complete(a, audited, rs)
    requires var p := Outcome(tx, a, audited, rs).payment; p.Some? && p.value.execution.Some?
    ensures FullyBacked(a, audited, rs) && ClosesAtStageZero(a)
    ensures Outcome(tx, a, audited, rs).errors == [] && Outcome(tx, a, audited, rs).status == Verified
    ensures var p := Outcome(tx, a, audited, rs).payment.value;
            && Pays(p.execution.value, tx) && p.action == Allow && p.policyAction == Allow && p.reason == NoSignal
            && PaymentPolicy(BeforePayment(tx, a, audited, rs)) == (Allow, NoSignal)
  {
    hide BeforePayment;
    OutcomePayment(tx, a, audited, rs);
    PolicyReads(tx, a, audited, rs);
    VerifiedMeansBacked(tx, a, audited, rs);
  }

  /** Every record up to case.completed got its receipt, and the first verification said valid. */
  ghost predicate TrailVerified(a: Answers, audited: bool, rs: seq<Reply>) {
    && audited && |rs| > RecordCount(a)
    && (forall i | 0 <= i < RecordCount(a) :: rs[i].Receipt?) && SaysValid(rs[RecordCount(a)])
  }

  /** Which reason the policy gives, for a verified trail or not. */
  lemma PolicyReason(tx: Transaction, a: Answers, audited: bool, rs: seq<Reply>)
    requires audited ==> |rs| > RecordCount(a)
    requires a.rules.riskBand == RiskRules.FromScore(a.rules.riskScore)
    ensures var v := BeforePayment(tx, a, audited, rs);
            var inv, hit, score, fused :=
              Investigated(a), a.caseFile.sanctionsHit, a.caseFile.riskScore, a.security.Some?;
            var critical, high := if inv then fused && score >= 50 else a.rules.riskScore >= 80,
                                  if inv then score >= 70 else a.rules.riskScore >= 55;
            PaymentPolicy(v).1 ==
            if inv && hit then WatchlistMatch
            else if critical then CriticalRisk
            else if high then HighRisk
            else if v.status != Verified then EvidenceUnverified
            else if a.rules.riskScore < 25 && !a.prefilter.isAnomaly then NoSignal
            else SignalRemains
  {
    hide BeforePayment;
    PolicyReads(tx, a, audited, rs);
  }

  /** The reason of the payment decision of every complete run. */
  lemma ReasonGiven(tx: Transaction, a: Answers, audited: bool, rs: seq<Reply>)
    requires Complete(a, audited, rs) && a.rules.riskBand == RiskRules.FromScore(a.rules.riskScore)
    ensures var p := Outcome(tx, a, audited, rs).payment;
            var inv, score, fused := Investigated(a), a.caseFile.riskScore, a.security.Some?;
            && p.Some?
            && p.value.reason ==
               if inv && a.caseFile.sanctionsHit then WatchlistMatch
               else if if inv then fused && score >= 50 else a.rules.riskScore >= 80 then CriticalRisk
               else if if inv then score >= 70 else a.rules.riskScore >= 55 then HighRisk
               else if !TrailVerified(a, audited, rs) then EvidenceUnverified
               else if a.rules.riskScore >= 25 || a.prefilter.isAnomaly then SignalRemains
               else if FullyBacked(a, audited, rs) then NoSignal
               else NotRecorded
  {
    hide Outcome, BeforePayment, PaymentPolicy;
    VerifiedMeansBacked(tx, a, audited, rs);
    PolicyReason(tx, a, audited, rs);
    PolicyDecides(tx, a, audited, rs);
    OutcomePayment(tx, a, audited, rs);
  }

  /**
    The audit status and the verification that the result ends with.  The last verification counts, and every record; a
    failed first verification stays only if the last one brought no answer.
   */
  lemma FinalStatus(tx: Transaction, a: Answers, audited: bool, rs: seq<Reply>)
    requires Complete(a, audited, rs)
    ensures var n := RecordCount(a);
            var stored := audited && forall i | 0 <= i < n :: rs[i].Receipt?;
            var last := audited && |rs| == n + 3 && rs[n + 2].Verification?;
            var status := Outcome(tx, a, audited, rs).status;
            && (status == NotConfigured <==> !audited)
            && (status == Verified <==> stored && rs[n].Verification? && last && rs[n + 2].response.valid)
            && Outcome(tx, a, audited, rs).verification ==
               (if last then Some(rs[n + 2].response)
                else if audited && rs[n].Verification? then Some(rs[n].response) else None)
            && (status == Failed <==>
                audited && if last then !(stored && rs[n].Verification? && rs[n + 2].response.valid)
                           else rs[n].Verification? && !(stored && rs[n].response.valid))
  {
    VerifiedMeansBacked(tx, a, audited, rs);
    hide Trace, Records, Unpersisted, Receipts, PaymentPolicy, Stages, RecordCount;
  }

  // ---------------------------------------------------------------- the language of event traces

  function Steps(es: seq<Event>): (ss: seq<Step>)
    ensures |ss| == |es| && forall i | 0 <= i < |es| :: ss[i] == StepOf(es[i])
  {
    if es == [] then [] else [StepOf(es[0])] + Steps(es[1..])
  }

  function Repeat(step: Step, n: nat): (ss: seq<Step>)
    ensures |ss| == n && forall i | 0 <= i < n :: ss[i] == step
  {
    if n == 0 then [] else [step] + Repeat(step, n - 1)
  }

  datatype Phase =
    | Opened | Scored | Filtered | Triaging | Investigating | Drafted | Fusing | Deciding | Ended | Stuck

  /**
    The automaton of: rules prefilter
    (closed | triage (closed | investigation+ compliance? fusion? alert)) payment.
   */
  function After(q: Phase, s: Step): Phase {
    match (q, s)
    case (Opened, Rules) => Scored
    case (Scored, Prefilter) => Filtered
    case (Filtered, Closed) => Deciding
    case (Filtered, Triage) => Triaging
    case (Triaging, Closed) => Deciding
    case (Triaging, Investigation) => Investigating
    case (Investigating, Investigation) => Investigating
    case (Investigating, Compliance) => Drafted
    case (Investigating, Fusion) => Fusing
    case (Investigating, AlertRaised) => Deciding
    case (Drafted, Fusion) => Fusing
    case (Drafted, AlertRaised) => Deciding
    case (Fusing, AlertRaised) => Deciding
    case (Deciding, Payment) => Ended
    case _ => Stuck
  }

  function Reach(q: Phase, w: seq<Step>): Phase
    decreases |w|
  {
    if w == [] then q else Reach(After(q, w[0]), w[1..])
  }

  predicate InLanguage(w: seq<Step>) {
    Reach(Opened, w) == Ended
  }

  lemma {:induction false} ReachStep(q: Phase, s: Step, w: seq<Step>)
    ensures Reach(q, [s] + w) == Reach(After(q, s), w)
  {
    assert ([s] + w)[1..] == w;
  }

  /** The steps after the last investigation step. */
  function Ending(compliance: bool, fusion: bool): seq<Step> {
    var alert := [AlertRaised] + ([Payment] + []);
    var fused := if fusion then [Fusion] + alert else alert;
    if compliance then [Compliance] + fused else fused
  }

  /** The steps after triage of an escalated case. */
  function Inquiry(tools: nat, compliance: bool, fusion: bool): seq<Step> {
    [Investigation] + if tools == 0 then Ending(compliance, fusion) else Inquiry(tools - 1, compliance, fusion)
  }

  function RestOfWord(a: Answers): seq<Step> {
    if ClosesAtStageZero(a) then [Closed] + ([Payment] + [])
    else if !a.triage.escalate then [Triage] + ([Closed] + ([Payment] + []))
    else [Triage] + Inquiry(|a.calls|, a.caseFile.recommendComplianceReview, a.security.Some?)
  }

  function Word(a: Answers): seq<Step> {
    [Rules] + ([Prefilter] + RestOfWord(a))
  }

  lemma {:induction false} ReachPayment(q: Phase, s: Step)
    requires After(q, s) == Deciding
    ensures Reach(q, [s] + ([Payment] + [])) == Ended
  {
    ReachStep(q, s, [Payment] + []);
    ReachStep(Deciding, Payment, []);
  }

  lemma EndingAccepted(compliance: bool, fusion: bool)
    ensures Reach(Investigating, Ending(compliance, fusion)) == Ended
  {
    var alert := [AlertRaised] + ([Payment] + []);
    var fused := if fusion then [Fusion] + alert else alert;
    var q := if compliance then Drafted else Investigating;
    if compliance { ReachStep(Investigating, Compliance, fused); }
    if fusion { ReachStep(q, Fusion, alert); }
    ReachPayment(if fusion then Fusing else q, AlertRaised);
  }

  lemma {:induction false} InquiryAccepted(q: Phase, tools: nat, compliance: bool, fusion: bool)
    requires q == Triaging || q == Investigating
    ensures Reach(q, Inquiry(tools, compliance, fusion)) == Ended
    decreases tools
  {
    if tools == 0 {
      ReachStep(q, Investigation, Ending(compliance, fusion));
      EndingAccepted(compliance, fusion);
    } else {
      ReachStep(q, Investigation, Inquiry(tools - 1, compliance, fusion));
      InquiryAccepted(Investigating, tools - 1, compliance, fusion);
    }
  }

  lemma WordAccepted(a: Answers)
    ensures InLanguage(Word(a))
  {
    hide Reach, Inquiry;
    var w := RestOfWord(a);
    ReachStep(Opened, Rules, [Prefilter] + w);
    ReachStep(Scored, Prefilter, w);
    if ClosesAtStageZero(a) {
      ReachPayment(Filtered, Closed);
    } else if a.triage.escalate {
      ReachStep(Filtered, Triage, Inquiry(|a.calls|, a.caseFile.recommendComplianceReview, a.security.Some?));
      InquiryAccepted(Triaging, |a.calls|, a.caseFile.recommendComplianceReview, a.security.Some?);
    } else {
      ReachStep(Filtered, Triage, [Closed] + ([Payment] + []));
      ReachPayment(Triaging, Closed);
    }
  }

  lemma {:induction false} StuckStays(w: seq<Step>)
    ensures Reach(Stuck, w) == Stuck
  {
    if w != [] { StuckStays(w[1..]); }
  }

  /** A word that leads on from a phase starts with a step the phase knows. */
  lemma {:induction false} NotStuck(q: Phase, w: seq<Step>)
    requires Reach(q, w) == Ended && q != Ended
    ensures w != [] && After(q, w[0]) != Stuck
  {
    StuckStays(w[1..]);
  }

  lemma {:induction false} NotLast(w: seq<Step>)
    requires w != []
    ensures Reach(Ended, w) == Stuck
  {
    StuckStays(w[1..]);
  }

  lemma {:induction false} DecidingParsed(w: seq<Step>)
    requires Reach(Deciding, w) == Ended
    ensures w == [Payment]
  {
    if w[0] == Payment {
      if |w| > 1 { NotLast(w[1..]); }
    } else {
      StuckStays(w[1..]);
    }
  }

  lemma {:induction false} AlertParsed(q: Phase, w: seq<Step>)
    requires Reach(q, w) == Ended && q.Fusing?
    ensures w == [AlertRaised] + ([Payment] + [])
  {
    if w[0] == AlertRaised { DecidingParsed(w[1..]); } else { StuckStays(w[1..]); }
  }

  lemma FusionParsed(q: Phase, w: seq<Step>) returns (fusion: bool)
    requires Reach(q, w) == Ended && (q.Drafted? || q.Investigating?)
    requires w != [] && (w[0].Fusion? || w[0].AlertRaised?)
    ensures w == Ending(false, fusion)
  {
    fusion := w[0].Fusion?;
    if fusion { AlertParsed(Fusing, w[1..]); } else { DecidingParsed(w[1..]); }
  }

  lemma EndingParsed(w: seq<Step>) returns (compliance: bool, fusion: bool)
    requires Reach(Investigating, w) == Ended && w[0] != Investigation
    ensures w == Ending(compliance, fusion)
  {
    StuckStays(w[1..]);
    compliance := w[0].Compliance?;
    if compliance {
      NotStuck(Drafted, w[1..]);
      fusion := FusionParsed(Drafted, w[1..]);
    } else {
      fusion := FusionParsed(Investigating, w);
    }
  }

  lemma {:induction false} InquiryParsed(q: Phase, w: seq<Step>) returns (tools: nat, compliance: bool, fusion: bool)
    requires Reach(q, w) == Ended && (q.Triaging? || q.Investigating?) && w[0] == Investigation
    ensures w == Inquiry(tools, compliance, fusion)
    decreases |w|
  {
    if w[1..] != [] && w[1] == Investigation {
      tools, compliance, fusion := InquiryParsed(Investigating, w[1..]);
      tools := tools + 1;
    } else {
      tools := 0;
      compliance, fusion := EndingParsed(w[1..]);
    }
    assert w == [Investigation] + w[1..];
  }

  /** Answers for which the trace is a given kind of word. */
  function Sample(calm: bool, escalate: bool, tools: nat, compliance: bool, fusion: bool): (a: Answers)
    ensures ClosesAtStageZero(a) == calm && a.triage.escalate == escalate && |a.calls| == tools
    ensures a.caseFile.recommendComplianceReview == compliance && a.security.Some? == fusion
  {
    Answers(
      RuleVerdict(0, RiskRules.Low), PreFilterVerdict(0.0, !calm), TriageVerdict(0.5, "", escalate, ""),
      seq(tools, _ => ToolUse("get_entity_graph", "")), CaseFile(50, [], false, compliance), ComplianceReport(""),
      if fusion then Some(SecurityEvent("impossible_travel", None)) else None)
  }

  lemma WordParsed(w: seq<Step>) returns (a: Answers)
    requires InLanguage(w)
    ensures Word(a) == w
  {
    hide Inquiry;
    NotStuck(Opened, w);
    var x := w[1..];
    NotStuck(Scored, x);
    var y := x[1..];
    assert w == [Rules] + ([Prefilter] + y);
    NotStuck(Filtered, y);
    if y[0] == Closed {
      DecidingParsed(y[1..]);
      a := Sample(true, false, 0, false, false);
      assert y == [Closed] + ([Payment] + []);
    } else {
      var z := y[1..];
      assert y == [Triage] + z;
      NotStuck(Triaging, z);
      if z[0] == Closed {
        DecidingParsed(z[1..]);
        a := Sample(false, false, 0, false, false);
        assert z == [Closed] + ([Payment] + []);
      } else {
        var tools, compliance, fusion := InquiryParsed(Triaging, z);
        a := Sample(false, true, tools, compliance, fusion);
      }
    }
  }

  // the steps of an investigated trace, put together

  lemma {:induction false} StepsCons(e: Event, es: seq<Event>)
    ensures Steps([e] + es) == [StepOf(e)] + Steps(es)
  {
    assert ([e] + es)[1..] == es;
  }

  /** The fusion event, if any, and the alert. */
  function FusionAndAlert(a: Answers): seq<Event> {
    (if a.security.Some? then [Fused(a.security.value)] else []) + [Alerted(RaisedAlert(a))]
  }

  lemma FusionSteps(a: Answers, p: Event)
    requires p.PaymentDecided?
    ensures Steps(FusionAndAlert(a) + [p]) == Ending(false, a.security.Some?)
  {
    hide Steps, RaisedAlert;
    assert Steps([]) == [];
    StepsCons(p, []);
    var alert := [Alerted(RaisedAlert(a))] + ([p] + []);
    StepsCons(Alerted(RaisedAlert(a)), [p] + []);
    if a.security.Some? {
      StepsCons(Fused(a.security.value), alert);
      assert FusionAndAlert(a) + [p] == [Fused(a.security.value)] + alert;
    } else {
      assert FusionAndAlert(a) + [p] == alert;
    }
  }

  lemma EndingSteps(a: Answers, p: Event)
    requires p.PaymentDecided?
    ensures Steps(AfterCase(a) + [p]) == Ending(a.caseFile.recommendComplianceReview, a.security.Some?)
  {
    FusionSteps(a, p);
    var fused := FusionAndAlert(a) + [p];
    assert AfterCase(a) + [p]
        == (if a.caseFile.recommendComplianceReview then [ReportDrafted(a.report)] else []) + fused;
    hide Steps, AfterCase, FusionAndAlert;
    if a.caseFile.recommendComplianceReview {
      StepsCons(ReportDrafted(a.report), fused);
    } else {
      assert [] + fused == fused;
    }
  }

  lemma Regroup(e: Event, tools: seq<Event>, k: Event, more: seq<Event>, p: Event)
    ensures [e] + tools + [k] + more + [p] == [e] + (tools + [k] + more + [p])
    ensures [] + [k] + more + [p] == [k] + (more + [p])
  {
  }

  lemma {:induction false} InquirySteps(calls: seq<ToolUse>, a: Answers, p: Event)
    requires p.PaymentDecided?
    ensures Steps(ToolEvents(calls) + [CaseFiled(a.caseFile)] + AfterCase(a) + [p]) ==
            Inquiry(|calls|, a.caseFile.recommendComplianceReview, a.security.Some?)
  {
    hide Steps, AfterCase, Ending;
    var k, more := CaseFiled(a.caseFile), AfterCase(a);
    if calls == [] {
      Regroup(k, [], k, more, p);
      EndingSteps(a, p);
      StepsCons(k, more + [p]);
    } else {
      var tools := ToolEvents(calls[1..]);
      assert ToolEvents(calls) == [ToolCalled(calls[0])] + tools;
      InquirySteps(calls[1..], a, p);
      hide ToolEvents;
      Regroup(ToolCalled(calls[0]), tools, k, more, p);
      StepsCons(ToolCalled(calls[0]), tools + [k] + more + [p]);
    }
  }

  lemma RestSteps(a: Answers, p: Event)
    requires p.PaymentDecided?
    ensures Steps(Rest(a) + [p]) == RestOfWord(a)
  {
    hide Steps, Inquiry, ToolEvents, AfterCase;
    StepsCons(p, []);
    assert Steps([]) == [];
    if Investigated(a) {
      InquirySteps(a.calls, a, p);
      var inquiry := ToolEvents(a.calls) + [CaseFiled(a.caseFile)] + AfterCase(a);
      assert Rest(a) + [p] == [Triaged(a.triage)] + (inquiry + [p]);
      StepsCons(Triaged(a.triage), inquiry + [p]);
    } else {
      StepsCons(ClosedEarly(!ClosesAtStageZero(a)), [p] + []);
      if ClosesAtStageZero(a) {
        assert Rest(a) + [p] == [ClosedEarly(false)] + ([p] + []);
      } else {
        assert Rest(a) + [p] == [Triaged(a.triage)] + ([ClosedEarly(true)] + ([p] + []));
        StepsCons(Triaged(a.triage), [ClosedEarly(true)] + ([p] + []));
      }
    }
  }

  lemma TraceSteps(a: Answers, p: Event)
    requires p.PaymentDecided?
    ensures Steps(Trace(a) + [p]) == Word(a)
  {
    hide Steps, Rest, RestOfWord;
    var rest := Rest(a) + [p];
    assert Trace(a) + [p] == [RulesScored(a.rules)] + ([Prefiltered(a.prefilter)] + rest);
    StepsCons(RulesScored(a.rules), [Prefiltered(a.prefilter)] + rest);
    StepsCons(Prefiltered(a.prefilter), rest);
    RestSteps(a, p);
  }

  /** Every complete run leaves a trace of the language. */
  lemma TraceIsInLanguage(tx: Transaction, a: Answers, audited: bool, rs: seq<Reply>)
    requires Complete(a, audited, rs)
    ensures InLanguage(Steps(Outcome(tx, a, audited, rs).events))
  {
    hide Trace, InLanguage, PaymentPolicy, Word;
    var v := BeforePayment(tx, a, audited, rs);
    assert v.events == Trace(a);
    TraceSteps(a, PolicyEvent(v));
    WordAccepted(a);
  }

  /** Conversely, every word of the language is the trace of some complete run. */
  lemma LanguageIsTraced(tx: Transaction, w: seq<Step>) returns (a: Answers)
    requires InLanguage(w)
    ensures Steps(Outcome(tx, a, false, []).events) == w
  {
    hide Trace, InLanguage, PaymentPolicy, Word;
    a := WordParsed(w);
    TraceSteps(a, PolicyEvent(BeforePayment(tx, a, false, [])));
  }

  // ---------------------------------------------------------------- fields and counts

  lemma {:induction false} InquiryHas(tools: nat, compliance: bool, fusion: bool, s: Step)
    ensures s in Inquiry(tools, compliance, fusion) <==>
            || s in {Investigation, AlertRaised, Payment}
            || (compliance && s == Compliance) || (fusion && s == Fusion)
  {
    if tools > 0 { InquiryHas(tools - 1, compliance, fusion, s); }
  }

  lemma WordHas(a: Answers, s: Step)
    ensures s in Word(a) <==>
            match s
            case Rules => true
            case Prefilter => true
            case Payment => true
            case Closed => !Investigated(a)
            case Triage => !ClosesAtStageZero(a)
            case Investigation => Investigated(a)
            case AlertRaised => Investigated(a)
            case Compliance => Investigated(a) && a.caseFile.recommendComplianceReview
            case Fusion => Investigated(a) && a.security.Some?
  {
    hide Inquiry;
    InquiryHas(|a.calls|, a.caseFile.recommendComplianceReview, a.security.Some?, s);
    var inquiry := Inquiry(|a.calls|, a.caseFile.recommendComplianceReview, a.security.Some?);
    assert s in RestOfWord(a) <==>
           if ClosesAtStageZero(a) then s == Closed || s == Payment
           else s == Triage || if a.triage.escalate then s in inquiry else s == Closed || s == Payment;
  }

  /** A field of the result is set exactly when the stage that sets it left an event. */
  lemma FieldsMatchTrace(tx: Transaction, a: Answers, audited: bool, rs: seq<Reply>)
    requires Complete(a, audited, rs)
    ensures var v := Outcome(tx, a, audited, rs);
            var steps := Steps(v.events);
            && v.rules.Some? && v.prefilter.Some? && v.payment.Some?
            && (v.triage.Some? <==> Triage in steps)
            && (v.caseFile.Some? <==> Investigation in steps)
            && (v.compliance.Some? <==> Compliance in steps)
            && (v.alert.Some? <==> AlertRaised in steps)
            && (v.alert.Some? && v.alert.value.security.Some? <==> Fusion in steps)
            && (v.alert.Some? ==>
                  var score, severity := v.caseFile.value.riskScore, v.alert.value.severity;
                  && (severity == RiskRules.Critical <==> Fusion in steps && score >= 50)
                  && (severity == RiskRules.High <==> Fusion !in steps && score >= 70)
                  && (severity == RiskRules.Medium <==> 40 <= score < if Fusion in steps then 50 else 70)
                  && (severity == RiskRules.Low <==> score < 40))
            && v.stageReached == if Closed in steps then Closed
                                 else if Fusion in steps then Fusion
                                 else if Compliance in steps then Compliance
                                 else Investigation
  {
    hide Trace, Word, Steps, PaymentPolicy, ClosesAtStageZero, BeforePayment, Outcome;
    var v := BeforePayment(tx, a, audited, rs);
    PolicyReads(tx, a, audited, rs);
    PaymentKeepsFields(tx, a, audited, rs);
    TraceSteps(a, PolicyEvent(v));
    WordHas(a, Triage);
    WordHas(a, Investigation);
    WordHas(a, Compliance);
    WordHas(a, AlertRaised);
    WordHas(a, Fusion);
    WordHas(a, Closed);
  }

  /** The event says what the result shows. */
  ghost predicate Shown(v: View, e: Event) {
    match e
    case RulesScored(rules) => v.rules == Some(rules)
    case Prefiltered(prefilter) => v.prefilter == Some(prefilter)
    case Triaged(triage) => v.triage == Some(triage)
    case ToolCalled(_) => v.caseFile.Some?
    case CaseFiled(caseFile) => v.caseFile == Some(caseFile)
    case ReportDrafted(report) => v.compliance == Some(report)
    case Fused(security) => v.alert.Some? && v.alert.value.security == Some(security)
    case ClosedEarly(atTriage) => v.alert.None? && (atTriage <==> v.triage.Some?)
    case Alerted(alert) => v.alert == Some(alert) && v.caseFile == Some(alert.caseFile)
    case PaymentDecided(action, reason) =>
      && v.payment.Some? && v.payment.value.policyAction == action
      && (v.payment.value.reason == reason || (v.payment.value.reason == NotRecorded && action == Allow))
  }

  lemma TraceShown(v: View, a: Answers, e: Event)
    requires v.rules == Some(a.rules) && v.prefilter == Some(a.prefilter)
    requires v.triage == if ClosesAtStageZero(a) then None else Some(a.triage)
    requires v.caseFile == if Investigated(a) then Some(a.caseFile) else None
    requires v.compliance == if Investigated(a) && a.caseFile.recommendComplianceReview then Some(a.report) else None
    requires v.alert == if Investigated(a) then Some(RaisedAlert(a)) else None
    requires e in Trace(a)
    ensures Shown(v, e)
  {
    hide SeverityFor;
  }

  lemma PolicyShown(tx: Transaction, a: Answers, audited: bool, rs: seq<Reply>)
    requires Complete(a, audited, rs)
    ensures Shown(Outcome(tx, a, audited, rs), PolicyEvent(BeforePayment(tx, a, audited, rs)))
  {
    hide Outcome, BeforePayment, PaymentPolicy;
    OutcomePayment(tx, a, audited, rs);
  }

  /** Every event says what the result shows, and the result shows what the services answered. */
  lemma EventsShowFields(tx: Transaction, a: Answers, audited: bool, rs: seq<Reply>)
    requires Complete(a, audited, rs)
    ensures var v := Outcome(tx, a, audited, rs);
            && (forall e | e in v.events :: Shown(v, e))
            && v.rules == Some(a.rules) && v.prefilter == Some(a.prefilter)
            && (v.triage.Some? ==> v.triage == Some(a.triage))
            && (v.caseFile.Some? ==> v.caseFile == Some(a.caseFile))
            && (v.compliance.Some? ==> v.compliance == Some(a.report))
            && (v.alert.Some? ==> v.alert.value.security == a.security)
            && v.events[|v.events| - 1].PaymentDecided?
  {
    hide Trace, PaymentPolicy, BeforePayment, Outcome, Shown, SeverityFor;
    var v, w := BeforePayment(tx, a, audited, rs), Outcome(tx, a, audited, rs);
    PolicyReads(tx, a, audited, rs);
    PaymentKeepsFields(tx, a, audited, rs);
    forall e | e in w.events ensures Shown(w, e) {
      if e in Trace(a) {
        TraceShown(w, a, e);
      } else {
        PolicyShown(tx, a, audited, rs);
      }
    }
  }

  /**
    The call that a complete run with result `v` makes as its k-th: case.opened, the events but the last,
    case.completed with what the result shows, a verification, the policy event and a verification.
   */
  function CallFor(tx: Transaction, v: View, k: nat): Command
    requires v.events != []
  {
    var m := |v.events|;
    if k == 0 then Append(CaseOpened, Opening(tx))
    else if k < m then Append(PipelineStep(StepOf(v.events[k - 1])), Occurred(v.events[k - 1]))
    else if k == m then Append(CaseCompleted, Completion(v.stageReached, v.caseFile, v.compliance))
    else if k == m + 2 then Append(PaymentPolicyApplied, Occurred(v.events[m - 1]))
    else Verify
  }

  /** What comes after the first verification does not change what the payment control starts from. */
  lemma SameStart(tx: Transaction, a: Answers, rs: seq<Reply>, start: seq<Reply>)
    requires start <= rs && |start| > RecordCount(a)
    ensures BeforePayment(tx, a, true, start) == BeforePayment(tx, a, true, rs)
  {
    hide Gathered, Checked, Trace;
    assert start[..RecordCount(a)] == rs[..RecordCount(a)];
  }

  /** The audit service is told exactly what the result shows, in this order. */
  lemma CallsShowResult(tx: Transaction, a: Answers, rs: seq<Reply>, k: nat)
    requires Complete(a, true, rs) && k < |rs|
    ensures var v := Outcome(tx, a, true, rs);
            && |rs| == |v.events| + (if rs[|v.events| + 2].Receipt? then 4 else 3)
            && NextCommand(tx, a, true, rs[..k]) == Some(CallFor(tx, v, k))
  {
    hide Trace, PaymentPolicy, BeforePayment, Outcome, StepOf, Investigated;
    var n := RecordCount(a);
    PolicyReads(tx, a, true, rs);
    PaymentKeepsFields(tx, a, true, rs);
    if k > n { SameStart(tx, a, rs, rs[..k]); }
  }

  // ---------------------------------------------------------------- the names of the records

  /** A kind of record has a name of its own length or with its own letters at places 0, 1 and 9. */
  lemma NameSigns(t: RecordType)
    ensures var s := TypeName(t);
            && |s| > 9
            && (|s|, s[0], s[1], s[9]) ==
               match t
               case CaseOpened => (11, 'c', 'a', 'e')
               case CaseCompleted => (14, 'c', 'a', 'l')
               case PaymentPolicyApplied => (14, 'p', 'a', 'o')
               case PipelineStep(Rules) => (14, 'p', 'i', 'r')
               case PipelineStep(Prefilter) => (18, 'p', 'i', 'p')
               case PipelineStep(Triage) => (15, 'p', 'i', 't')
               case PipelineStep(Investigation) => (22, 'p', 'i', 'i')
               case PipelineStep(Compliance) => (19, 'p', 'i', 'c')
               case PipelineStep(Fusion) => (15, 'p', 'i', 'f')
               case PipelineStep(Closed) => (15, 'p', 'i', 'c')
               case PipelineStep(AlertRaised) => (14, 'p', 'i', 'a')
               case PipelineStep(Payment) => (16, 'p', 'i', 'p')
  {
  }

  /** No two kinds of record have the same name. */
  lemma NamesDiffer(t: RecordType, u: RecordType)
    requires TypeName(t) == TypeName(u)
    ensures t == u
  {
    hide TypeName;
    NameSigns(t);
    NameSigns(u);
  }

  /** The record of an event is named after its stage; the payment event goes on record as payment.policy. */
  lemma RecordNames(e: Event)
    ensures var name := TypeName(EventRecord(e).recordType);
            match e
            case RulesScored(_) => name == "pipeline.rules"
            case Prefiltered(_) => name == "pipeline.prefilter"
            case Triaged(_) => name == "pipeline.triage"
            case ToolCalled(_) => name == "pipeline.investigation"
            case CaseFiled(_) => name == "pipeline.investigation"
            case ReportDrafted(_) => name == "pipeline.compliance"
            case Fused(_) => name == "pipeline.fusion"
            case ClosedEarly(_) => name == "pipeline.closed"
            case Alerted(_) => name == "pipeline.alert"
            case PaymentDecided(_, _) => true
  {
  }

  /** How many appends of a complete run got no receipt. */
  function WithoutReceipt(rs: seq<Reply>): nat {
    if rs == [] then 0 else WithoutReceipt(rs[..|rs| - 1]) + if rs[|rs| - 1].Receipt? then 0 else 1
  }

  lemma {:induction false} ReceiptsCount(rs: seq<Reply>)
    ensures |Receipts(rs)| + WithoutReceipt(rs) == |rs|
  {
    if rs != [] { ReceiptsCount(rs[..|rs| - 1]); }
  }

  lemma {:induction false} UnpersistedCount(cs: seq<Command>, rs: seq<Reply>)
    requires |cs| == |rs| && forall i | 0 <= i < |cs| :: cs[i].Append?
    ensures |Unpersisted(cs, rs)| == WithoutReceipt(rs)
  {
    if rs != [] { UnpersistedCount(cs[..|rs| - 1], rs[..|rs| - 1]); }
  }

  /** A failed append is reported under its own record type. */
  lemma {:induction false} UnpersistedNames(cs: seq<Command>, rs: seq<Reply>, t: RecordType)
    requires |cs| == |rs| && forall i | 0 <= i < |cs| :: cs[i].Append?
    ensures NotPersisted(t) in Unpersisted(cs, rs) <==>
            exists i :: 0 <= i < |rs| && !rs[i].Receipt? && cs[i].recordType == t
  {
    if rs != [] {
      var n := |rs| - 1;
      UnpersistedNames(cs[..n], rs[..n], t);
      assert forall i | 0 <= i < n :: cs[..n][i] == cs[i] && rs[..n][i] == rs[i];
    }
  }

  /**
    With the audit service configured, stored receipts and failed appends together are the events
    plus two (case.opened and case.completed); each failed call left one problem.
   */
  lemma StoredPlusFailed(tx: Transaction, a: Answers, rs: seq<Reply>)
    requires Complete(a, true, rs)
    ensures var v, n := Outcome(tx, a, true, rs), RecordCount(a);
            && |v.receipts| + WithoutReceipt(rs[..n]) + (if rs[n + 1].Receipt? then 0 else 1) == |v.events| + 2
            && |v.errors| == WithoutReceipt(rs[..n]) + (if rs[n].Verification? then 0 else 1)
                             + if |rs| == n + 3 && rs[n + 2].Verification? then 0 else 1
  {
    hide Trace, PaymentPolicy, ClosesAtStageZero, Investigated, Records, WithoutReceipt, Receipts, Unpersisted;
    var n := RecordCount(a);
    ReceiptsCount(rs[..n]);
    UnpersistedCount(Records(tx, a), rs[..n]);
  }
}
