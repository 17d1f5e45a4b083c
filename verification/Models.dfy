/** The values that pass through the pipeline: agents-python/app/models.py. */
module Models {
  import RiskRules
  import opened Wrappers

  type RiskBand = RiskRules.RiskBand

  datatype Transaction = Transaction(
    id: string, accountId: string, amount: real, currency: string, beneficiaryName: Option<string>)

  datatype RuleVerdict = RuleVerdict(riskScore: nat, riskBand: RiskBand)

  datatype PreFilterVerdict = PreFilterVerdict(anomalyScore: real, isAnomaly: bool)

  datatype TriageVerdict = TriageVerdict(fraudLikelihood: real, category: string, escalate: bool, reasoning: string)

  datatype CaseFile = CaseFile(
    riskScore: nat, linkedAccounts: seq<string>, sanctionsHit: bool, recommendComplianceReview: bool)

  datatype ComplianceReport = ComplianceReport(narrative: string)

  datatype SecurityEvent = SecurityEvent(kind: string, accountId: Option<string>)

  datatype Alert = Alert(severity: RiskBand, caseFile: CaseFile, security: Option<SecurityEvent>)
}
