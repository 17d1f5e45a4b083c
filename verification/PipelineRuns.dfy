/**
  Many transactions in the pipeline at once, over one audit log.

  Between two calls of one transaction to the audit service anything may happen: other transactions
  advance, other clients append, requests or answers get lost, writes fail half way, and the log
  file is changed from outside.  `Moved` is one such step.  Each call itself is atomic, as the
  audit service holds its lock over the whole of append and the whole of verify.
 */
module PipelineRuns {
  import A = AuditChain
  import opened Models
  import opened Octets
  import opened Pipeline
  import RiskRules
  import opened Wrappers

  /** The hash and the encodings: UTF-8, and JSON with sorted keys. */
  datatype Wire = Wire(hash: A.HashFn, utf8: string -> Bytes, json: Payload -> Bytes)

  /** A transaction in the pipeline, with the replies it has got so far. */
  datatype Process = Process(tx: Transaction, answers: Answers, replies: seq<Reply>) {
    function Count(): nat {
      RecordCount(answers)
    }

    function Next(): Option<Command> {
      NextCommand(tx, answers, true, replies)
    }

    /** The call that reply k answers. */
    function CommandAt(k: nat): Option<Command>
      requires k <= |replies|
    {
      NextCommand(tx, answers, true, replies[..k])
    }
  }

  /** A request that never arrives, or one that is served and whose answer arrives or not. */
  datatype Delivery = Lost | Served(outcome: A.Outcome, answered: bool)

  datatype Move =
    | Begin(tx: Transaction, answers: Answers)
    | Call(index: nat, at: Bytes, delivery: Delivery)
    | OtherAppend(draft: A.Draft, outcome: A.Outcome)
    | Tamper(file: A.File)

  datatype World = World(log: A.LogState, processes: seq<Process>)

  function DraftFor(w: Wire, tx: Transaction, c: Command, at: Bytes): A.Draft
    requires c.Append?
  {
    A.Draft(at, w.utf8(TypeName(c.recordType)), w.utf8(tx.id), w.json(c.payload))
  }

  /** The log and the reply after one call. */
  function Exchanged(w: Wire, log: A.LogState, tx: Transaction, c: Command, at: Bytes, d: Delivery)
    : (A.LogState, Reply)
  {
    match (c, d)
    case (_, Lost) => (log, NoAnswer)
    case (Verify, Served(_, answered)) =>
      (log, if answered then Verification(A.Report(w.hash, log.entries, log.file), log) else NoAnswer)
    case (Append(_, _), Served(o, answered)) =>
      var draft := DraftFor(w, tx, c, at);
      (A.Appended(w.hash, log, draft, o),
       if answered && o.Stored? && !log.file.Unreadable? then Receipt(A.NextEntry(w.hash, log.entries, draft))
       else NoAnswer)
  }

  function Moved(w: Wire, s: World, m: Move): World {
    match m
    case Begin(tx, answers) => s.(processes := s.processes + [Process(tx, answers, [])])
    case Tamper(file) => s.(log := s.log.(file := file))
    case OtherAppend(draft, o) => s.(log := A.Appended(w.hash, s.log, draft, o))
    case Call(i, at, d) =>
      if i >= |s.processes| || s.processes[i].Next().None? then s
      else
        var p := s.processes[i];
        var (log, reply) := Exchanged(w, s.log, p.tx, p.Next().value, at, d);
        World(log, s.processes[i := p.(replies := p.replies + [reply])])
  }

  function Run(w: Wire, s: World, ms: seq<Move>): World
    decreases |ms|
  {
    if ms == [] then s else Run(w, Moved(w, s, ms[0]), ms[1..])
  }

  /** The transaction's payment was executed. */
  predicate Executed(p: Process) {
    && Complete(p.answers, true, p.replies)
    && var v := Outcome(p.tx, p.answers, true, p.replies);
    v.payment.Some? && v.payment.value.execution.Some?
  }

  // ---------------------------------------------------------------- what every reply rests on

  /** The entry stands in the log under its own number: a record of this name and payload, about this transaction. */
  ghost predicate Holds(w: Wire, es: seq<A.Entry>, e: A.Entry, tx: Transaction, name: string, payload: Payload) {
    && 1 <= e.seqNo <= |es| && es[e.seqNo - 1] == e
    && e.eventType == w.utf8(name) && e.subjectId == w.utf8(tx.id) && e.payload == w.json(payload)
  }

  /** And it says what the command says. */
  ghost predicate Carries(w: Wire, es: seq<A.Entry>, e: A.Entry, tx: Transaction, c: Command) {
    c.Append? && Holds(w, es, e, tx, TypeName(c.recordType), c.payload)
  }

  /** Reply k is honest: a receipt is on record, a verification is the report on an earlier state of this log. */
  ghost predicate Honest(w: Wire, es: seq<A.Entry>, p: Process, k: nat)
    requires k < |p.replies|
  {
    && p.CommandAt(k).Some?
    && match p.replies[k]
       case NoAnswer => true
       case Receipt(e) => Carries(w, es, e, p.tx, p.CommandAt(k).value)
       case Verification(r, seen) =>
         p.CommandAt(k).value == Verify && seen.entries <= es && r == A.Report(w.hash, seen.entries, seen.file)
  }

  /** The log had reached the entry of receipt j when reply k came, and had not got past it before. */
  ghost predicate InOrder(p: Process, j: nat, k: nat)
    requires j < k < |p.replies| && p.replies[j].Receipt?
  {
    match p.replies[k]
    case NoAnswer => true
    case Receipt(e) => p.replies[j].entry.seqNo < e.seqNo
    case Verification(_, seen) => p.replies[j].entry.seqNo <= |seen.entries|
  }

  ghost predicate Backed(w: Wire, es: seq<A.Entry>, p: Process) {
    && (forall k: nat | k < |p.replies| :: Honest(w, es, p, k))
    && (forall j: nat, k: nat | j < k < |p.replies| && p.replies[j].Receipt? :: InOrder(p, j, k))
  }

  ghost predicate Inv(w: Wire, s: World) {
    && A.Chain(w.hash, s.log.entries)
    && forall i | 0 <= i < |s.processes| :: Backed(w, s.log.entries, s.processes[i])
  }

  lemma BackedGrows(w: Wire, es: seq<A.Entry>, fs: seq<A.Entry>, p: Process)
    requires Backed(w, es, p) && es <= fs
    ensures Backed(w, fs, p)
  {
    hide A.Report, NextCommand, TypeName, InOrder;
    forall k: nat | k < |p.replies| ensures Honest(w, fs, p, k) {
      assert Honest(w, es, p, k);
    }
  }

  lemma CommandAtExtends(p: Process, r: Reply, k: nat)
    requires k <= |p.replies|
    ensures p.(replies := p.replies + [r]).CommandAt(k) == p.CommandAt(k)
    ensures p.CommandAt(|p.replies|) == p.Next()
  {
    hide NextCommand;
    assert (p.replies + [r])[..k] == p.replies[..k];
    assert p.replies[..|p.replies|] == p.replies;
  }

  /** What one call does to the log: at most one entry more, and the chain stays one. */
  lemma ExchangeGrows(w: Wire, log: A.LogState, tx: Transaction, c: Command, at: Bytes, d: Delivery)
    requires A.Chain(w.hash, log.entries)
    ensures var es := Exchanged(w, log, tx, c, at, d).0.entries;
            log.entries <= es && A.Chain(w.hash, es)
  {
    hide A.Chain, A.Report;
    if c.Append? {
      A.ChainExtends(w.hash, log.entries, DraftFor(w, tx, c, at));
    }
  }

  lemma NewReplyHonest(w: Wire, log: A.LogState, p: Process, at: Bytes, d: Delivery)
    requires p.Next().Some?
    ensures var (log', r) := Exchanged(w, log, p.tx, p.Next().value, at, d);
            Honest(w, log'.entries, p.(replies := p.replies + [r]), |p.replies|)
  {
    hide NextCommand, A.Report, TypeName;
    var (log', r) := Exchanged(w, log, p.tx, p.Next().value, at, d);
    CommandAtExtends(p, r, |p.replies|);
  }

  lemma NewReplyInOrder(w: Wire, log: A.LogState, p: Process, at: Bytes, d: Delivery, j: nat)
    requires p.Next().Some? && j < |p.replies| && p.replies[j].Receipt? && Honest(w, log.entries, p, j)
    ensures var r := Exchanged(w, log, p.tx, p.Next().value, at, d).1;
            InOrder(p.(replies := p.replies + [r]), j, |p.replies|)
  {
    hide NextCommand, A.Report, TypeName;
  }

  /** One call keeps the caller's replies backed by the log. */
  lemma BackedStep(w: Wire, log: A.LogState, p: Process, at: Bytes, d: Delivery)
    requires A.Chain(w.hash, log.entries) && Backed(w, log.entries, p) && p.Next().Some?
    ensures var (log', r) := Exchanged(w, log, p.tx, p.Next().value, at, d);
            Backed(w, log'.entries, p.(replies := p.replies + [r]))
  {
    hide Exchanged, Carries, NextCommand, A.Chain;
    var c, n := p.Next().value, |p.replies|;
    var (log', r) := Exchanged(w, log, p.tx, c, at, d);
    var q := p.(replies := p.replies + [r]);
    ExchangeGrows(w, log, p.tx, c, at, d);
    BackedGrows(w, log.entries, log'.entries, p);
    forall k: nat | k <= n ensures Honest(w, log'.entries, q, k) {
      if k < n {
        CommandAtExtends(p, r, k);
        assert Honest(w, log'.entries, p, k);
      } else {
        NewReplyHonest(w, log, p, at, d);
      }
    }
    forall j: nat, k: nat | j < k <= n && q.replies[j].Receipt? ensures InOrder(q, j, k) {
      if k < n {
        assert InOrder(p, j, k);
      } else {
        assert Honest(w, log.entries, p, j);
        NewReplyInOrder(w, log, p, at, d, j);
      }
    }
  }

  lemma NewProcessBacked(w: Wire, es: seq<A.Entry>, tx: Transaction, answers: Answers)
    ensures Backed(w, es, Process(tx, answers, []))
  {
  }

  lemma InvStep(w: Wire, s: World, m: Move)
    requires Inv(w, s)
    ensures Inv(w, Moved(w, s, m)) && s.log.entries <= Moved(w, s, m).log.entries
  {
    hide Exchanged, A.Chain, Backed;
    var t := Moved(w, s, m);
    match m
    case Begin(tx, answers) =>
      NewProcessBacked(w, s.log.entries, tx, answers);
    case Tamper(_) =>
    case OtherAppend(draft, o) =>
      A.ChainExtends(w.hash, s.log.entries, draft);
      forall k | 0 <= k < |s.processes| ensures Backed(w, t.log.entries, s.processes[k]) {
        BackedGrows(w, s.log.entries, t.log.entries, s.processes[k]);
      }
    case Call(i, at, d) =>
      if i < |s.processes| && s.processes[i].Next().Some? {
        var p := s.processes[i];
        ExchangeGrows(w, s.log, p.tx, p.Next().value, at, d);
        BackedStep(w, s.log, p, at, d);
        forall k | 0 <= k < |s.processes| ensures Backed(w, t.log.entries, t.processes[k]) {
          if k != i { BackedGrows(w, s.log.entries, t.log.entries, s.processes[k]); }
        }
      }
  }

  /** In every interleaving every reply stays backed, and the log only grows. */
  lemma {:induction false} RunsStayBacked(w: Wire, s: World, ms: seq<Move>)
    requires Inv(w, s)
    ensures Inv(w, Run(w, s, ms)) && s.log.entries <= Run(w, s, ms).log.entries
    decreases |ms|
  {
    hide Inv, Moved;
    if ms != [] {
      InvStep(w, s, ms[0]);
      RunsStayBacked(w, Moved(w, s, ms[0]), ms[1..]);
    }
  }

  // ---------------------------------------------------------------- execution rests on the record

  lemma {:induction false} AllReceipts(rs: seq<Reply>)
    requires forall k | 0 <= k < |rs| :: rs[k].Receipt?
    ensures |Receipts(rs)| == |rs| && forall k | 0 <= k < |rs| :: Receipts(rs)[k] == rs[k].entry
  {
    if rs != [] {
      AllReceipts(rs[..|rs| - 1]);
    }
  }

  /** The receipts of an executed payment, in order: one per record and one for the policy. */
  lemma ExecutedReceipts(p: Process)
    requires Executed(p)
    ensures FullyBacked(p.answers, true, p.replies)
    ensures var v, n := Outcome(p.tx, p.answers, true, p.replies), p.Count();
            && v.errors == [] && v.status == Verified && |v.receipts| == n + 1
            && (forall k | 0 <= k < n :: v.receipts[k] == p.replies[k].entry)
            && v.receipts[n] == p.replies[n + 1].entry
  {
    ExecutionNeedsBacking(p.tx, p.answers, true, p.replies);
    hide Trace, PaymentPolicy, Records, Unpersisted, ClosesAtStageZero, RecordCount;
    AllReceipts(p.replies[..p.Count()]);
  }

  /** The records of a transaction followed by its policy record, as an executed payment shows them. */
  function Trail(p: Process): (cs: seq<Command>)
    requires p.Count() < |p.replies|
    ensures |cs| == p.Count() + 1
  {
    Records(p.tx, p.answers) + [PolicyRecord(BeforePayment(p.tx, p.answers, true, p.replies))]
  }

  lemma CommandsOfExecuted(p: Process, k: nat)
    requires FullyBacked(p.answers, true, p.replies) && k <= p.Count()
    ensures p.CommandAt(if k < p.Count() then k else k + 1) == Some(Trail(p)[k])
  {
    hide Trace, PaymentPolicy, Records, Unpersisted, ClosesAtStageZero, Receipts;
    var n := p.Count();
    if k == n {
      assert p.replies[..n + 1][..n] == p.replies[..n];
    }
  }

  /** An executed payment was closed at stage 0, so its records are these six. */
  lemma ExecutedTrail(p: Process)
    requires Executed(p)
    ensures p.Count() == 5 && |p.replies| == 8
    ensures Trail(p) == [
              Append(CaseOpened, Opening(p.tx)),
              Append(PipelineStep(Rules), Occurred(RulesScored(p.answers.rules))),
              Append(PipelineStep(Prefilter), Occurred(Prefiltered(p.answers.prefilter))),
              Append(PipelineStep(Step.Closed), Occurred(ClosedEarly(false))),
              Append(CaseCompleted, Completion(Step.Closed, None, None)),
              Append(PaymentPolicyApplied, Occurred(PaymentDecided(Allow, NoSignal)))]
  {
    ExecutionNeedsBacking(p.tx, p.answers, true, p.replies);
    hide Outcome, BeforePayment, PaymentPolicy, EventRecords;
    assert Trace(p.answers) == [RulesScored(p.answers.rules), Prefiltered(p.answers.prefilter), ClosedEarly(false)];
  }

  /**
    The log holds the payment's six records, in this order: the transaction as it was opened, the two
    verdicts of stage 0, the closing, the completion without a case, and the policy's allow.
   */
  ghost predicate OnRecord(w: Wire, es: seq<A.Entry>, p: Process, receipts: seq<A.Entry>) {
    && |receipts| == 6
    && Holds(w, es, receipts[0], p.tx, "case.opened", Opening(p.tx))
    && Holds(w, es, receipts[1], p.tx, "pipeline.rules", Occurred(RulesScored(p.answers.rules)))
    && Holds(w, es, receipts[2], p.tx, "pipeline.prefilter", Occurred(Prefiltered(p.answers.prefilter)))
    && Holds(w, es, receipts[3], p.tx, "pipeline.closed", Occurred(ClosedEarly(false)))
    && Holds(w, es, receipts[4], p.tx, "case.completed", Completion(Step.Closed, None, None))
    && Holds(w, es, receipts[5], p.tx, "payment.policy", Occurred(PaymentDecided(Allow, NoSignal)))
    && (forall j, k | 0 <= j < k < 6 :: receipts[j].seqNo < receipts[k].seqNo)
  }

  lemma StageZeroNames()
    ensures TypeName(CaseOpened) == "case.opened" && TypeName(PipelineStep(Rules)) == "pipeline.rules"
    ensures TypeName(PipelineStep(Prefilter)) == "pipeline.prefilter"
    ensures TypeName(PipelineStep(Step.Closed)) == "pipeline.closed"
    ensures TypeName(CaseCompleted) == "case.completed" && TypeName(PaymentPolicyApplied) == "payment.policy"
  {
    RecordNames(RulesScored(RuleVerdict(0, RiskRules.Low)));
    RecordNames(Prefiltered(PreFilterVerdict(0.0, false)));
    RecordNames(ClosedEarly(false));
  }

  lemma TrailIsOnRecord(w: Wire, es: seq<A.Entry>, p: Process, receipts: seq<A.Entry>)
    requires Executed(p) && |receipts| == p.Count() + 1
    requires forall k | 0 <= k <= p.Count() :: Carries(w, es, receipts[k], p.tx, Trail(p)[k])
    requires forall j, k | 0 <= j < k <= p.Count() :: receipts[j].seqNo < receipts[k].seqNo
    ensures OnRecord(w, es, p, receipts)
  {
    hide Executed, Trail, RecordCount;
    ExecutedTrail(p);
    StageZeroNames();
    hide TypeName, Holds;
    assert Carries(w, es, receipts[0], p.tx, Trail(p)[0]) && Carries(w, es, receipts[1], p.tx, Trail(p)[1]);
    assert Carries(w, es, receipts[2], p.tx, Trail(p)[2]) && Carries(w, es, receipts[3], p.tx, Trail(p)[3]);
    assert Carries(w, es, receipts[4], p.tx, Trail(p)[4]) && Carries(w, es, receipts[5], p.tx, Trail(p)[5]);
  }

  /** What was executed is the payment of the transaction that the log shows as opened. */
  predicate PaidAsOpened(p: Process, v: View) {
    v.payment.Some? && v.payment.value.execution.Some? && Pays(v.payment.value.execution.value, p.tx)
  }

  lemma ExecutedPays(p: Process)
    requires Executed(p)
    ensures PaidAsOpened(p, Outcome(p.tx, p.answers, true, p.replies))
  {
    ExecutionNeedsBacking(p.tx, p.answers, true, p.replies);
  }

  /**
    In every reachable state of every interleaving: a payment was executed only with no audit
    error, both verifications valid, and its whole trail on record in order; the log that the second
    verification accepted already held all of it; and the amount is that of the record that opened it.
   */
  lemma ExecutionIsOnRecord(w: Wire, s: World, i: nat)
    requires Inv(w, s) && i < |s.processes| && Executed(s.processes[i])
    ensures var p := s.processes[i];
            var v := Outcome(p.tx, p.answers, true, p.replies);
            && v.errors == [] && v.status == Verified && PaidAsOpened(p, v)
            && |p.replies| == 8 && p.replies[7].Verification?
            && var seen := p.replies[7].seen;
            && seen.entries <= s.log.entries
            && A.Report(w.hash, seen.entries, seen.file).valid
            && OnRecord(w, s.log.entries, p, v.receipts)
            && OnRecord(w, seen.entries, p, v.receipts)
  {
    hide Executed, Outcome, Trace, Trail, NextCommand, RecordCount, A.Report, OnRecord, PaidAsOpened;
    var p := s.processes[i];
    ExecutedReceipts(p);
    ExecutedTrail(p);
    ExecutedPays(p);
    var v, n := Outcome(p.tx, p.answers, true, p.replies), p.Count();
    assert Honest(w, s.log.entries, p, n + 2);
    var seen := p.replies[n + 2].seen;
    forall k | 0 <= k <= n
      ensures Carries(w, s.log.entries, v.receipts[k], p.tx, Trail(p)[k])
      ensures Carries(w, seen.entries, v.receipts[k], p.tx, Trail(p)[k])
    {
      var m := if k < n then k else k + 1;
      assert Honest(w, s.log.entries, p, m) && InOrder(p, m, n + 2);
      CommandsOfExecuted(p, k);
    }
    forall j, k | 0 <= j < k <= n ensures v.receipts[j].seqNo < v.receipts[k].seqNo {
      assert InOrder(p, j, if k < n then k else k + 1);
    }
    TrailIsOnRecord(w, s.log.entries, p, v.receipts);
    TrailIsOnRecord(w, seen.entries, p, v.receipts);
  }

  /**
    And the file on disk, as that verification read it, had an entry for every entry of the log, each
    passing the test; if no hashes collide, each the same as in the log.
   */
  lemma ExecutionIsOnDisk(w: Wire, s: World, i: nat)
    requires Inv(w, s) && i < |s.processes| && Executed(s.processes[i])
    requires A.IsDigest(w.hash) && |s.log.entries| < A.U64_LIMIT
    ensures var p := s.processes[i];
            && |p.replies| == 8 && p.replies[7].Verification?
            && var seen := p.replies[7].seen;
            && A.DiskCopy(seen.entries, seen.file).Success?
            && var disk := A.DiskCopy(seen.entries, seen.file).value;
            && |disk| == |seen.entries|
            && (forall k: nat | k < |disk| :: A.Agrees(w.hash, seen.entries, disk, k))
            && (A.CollisionFree(w.hash, A.Materials(seen.entries) + A.Materials(disk)) ==>
                  forall k | 0 <= k < |disk| :: A.Matches(seen.entries[k], disk[k]))
  {
    hide Executed, Outcome, Trace, Trail, NextCommand, RecordCount, OnRecord, Carries, PaidAsOpened;
    ExecutionIsOnRecord(w, s, i);
    var p := s.processes[i];
    var seen := p.replies[7].seen;
    A.VerifyNeedsAllLines(w.hash, seen.entries, seen.file);
    var disk := A.DiskCopy(seen.entries, seen.file).value;
    assert seen.entries == s.log.entries[..|seen.entries|];
    A.ChainPrefix(w.hash, s.log.entries, |seen.entries|);
    if A.CollisionFree(w.hash, A.Materials(seen.entries) + A.Materials(disk)) {
      A.AgreedPrefixMatches(w.hash, seen.entries, disk, |disk|);
    }
  }

  /** The same for a run from the start, with any moves at all in between. */
  lemma {:induction false} EveryExecutionIsOnRecord(w: Wire, log: A.LogState, ms: seq<Move>, i: nat)
    requires A.Chain(w.hash, log.entries)
    requires var t := Run(w, World(log, []), ms); i < |t.processes| && Executed(t.processes[i])
    ensures var t := Run(w, World(log, []), ms);
            var p := t.processes[i];
            var v := Outcome(p.tx, p.answers, true, p.replies);
            && v.errors == [] && v.status == Verified && PaidAsOpened(p, v)
            && |p.replies| == 8 && p.replies[7].Verification?
            && var seen := p.replies[7].seen;
            && seen.entries <= t.log.entries && log.entries <= t.log.entries
            && A.Report(w.hash, seen.entries, seen.file).valid
            && OnRecord(w, t.log.entries, p, v.receipts)
            && OnRecord(w, seen.entries, p, v.receipts)
  {
    hide Run, Executed, Outcome, OnRecord, PaidAsOpened, A.Chain, A.Report;
    RunsStayBacked(w, World(log, []), ms);
    ExecutionIsOnRecord(w, Run(w, World(log, []), ms), i);
  }

  /** Neither process has a receipt for an entry that the other has one for. */
  ghost predicate Unshared(p: Process, q: Process) {
    forall j, k | 0 <= j < |p.replies| && 0 <= k < |q.replies| && p.replies[j].Receipt? && q.replies[k].Receipt? ::
      p.replies[j].entry.seqNo != q.replies[k].entry.seqNo
  }

  ghost predicate AllUnshared(s: World) {
    forall i, j | 0 <= i < j < |s.processes| :: Unshared(s.processes[i], s.processes[j])
  }

  /** A new receipt is for a new entry. */
  lemma NewReceiptUnshared(w: Wire, log: A.LogState, p: Process, q: Process, at: Bytes, d: Delivery)
    requires Backed(w, log.entries, q) && p.Next().Some? && Unshared(p, q) && Unshared(q, p)
    ensures var r := Exchanged(w, log, p.tx, p.Next().value, at, d).1;
            var p' := p.(replies := p.replies + [r]);
            Unshared(p', q) && Unshared(q, p')
  {
    hide NextCommand, A.Report, TypeName;
    forall k: nat | k < |q.replies| && q.replies[k].Receipt? ensures q.replies[k].entry.seqNo <= |log.entries| {
      assert Honest(w, log.entries, q, k);
    }
  }

  lemma UnsharedSym(p: Process, q: Process)
    ensures Unshared(p, q) <==> Unshared(q, p)
  {
  }

  lemma NothingShared(p: Process, q: Process)
    requires q.replies == []
    ensures Unshared(p, q)
  {
  }

  lemma UnsharedStep(w: Wire, s: World, m: Move)
    requires Inv(w, s) && AllUnshared(s)
    ensures AllUnshared(Moved(w, s, m))
  {
    hide Exchanged, NextCommand, Backed, Unshared, A.Chain, A.Appended;
    var t := Moved(w, s, m);
    forall i, j | 0 <= i < j < |t.processes| ensures Unshared(t.processes[i], t.processes[j]) {
      if j < |s.processes| {
        assert Unshared(s.processes[i], s.processes[j]);
        UnsharedSym(s.processes[i], s.processes[j]);
        if m.Call? && (m.index == i || m.index == j) && s.processes[m.index].Next().Some? {
          NewReceiptUnshared(w, s.log, s.processes[m.index], s.processes[i + j - m.index], m.at, m.delivery);
        }
      } else {
        NothingShared(t.processes[i], t.processes[j]);
      }
    }
  }

  /** No entry serves as evidence for two transactions. */
  lemma {:induction false} ReceiptsAreUnshared(w: Wire, s: World, ms: seq<Move>)
    requires Inv(w, s) && AllUnshared(s)
    ensures AllUnshared(Run(w, s, ms))
    decreases |ms|
  {
    hide Inv, Moved, AllUnshared;
    if ms != [] {
      InvStep(w, s, ms[0]);
      UnsharedStep(w, s, ms[0]);
      ReceiptsAreUnshared(w, Moved(w, s, ms[0]), ms[1..]);
    }
  }

  // ---------------------------------------------------------------- one bad write stops every payment

  /** The file is written by appends only. */
  ghost predicate Untampered(ms: seq<Move>) {
    forall k | 0 <= k < |ms| :: !ms[k].Tamper?
  }

  /** From reply `from` on, no verification of the process said valid. */
  ghost predicate NoneValid(p: Process, from: nat) {
    forall k: nat | from <= k < |p.replies| :: !SaysValid(p.replies[k])
  }

  /** The step is an append, by whomever, that wrote and then failed, or that continued a line lacking its newline. */
  predicate BadWrite(s: World, m: Move) {
    || (m.OtherAppend? && A.Spoils(s.log.file, m.outcome))
    || (m.Call? && m.index < |s.processes| && m.delivery.Served? && A.Spoils(s.log.file, m.delivery.outcome)
        && s.processes[m.index].Next().Some? && s.processes[m.index].Next().value.Append?)
  }

  lemma BadWritesMove(w: Wire, s: World, m: Move, good: bool)
    requires A.Standing(w.hash, s.log, good) && !m.Tamper?
    ensures var log := Moved(w, s, m).log;
            A.Standing(w.hash, log, good && !BadWrite(s, m))
            && (!BadWrite(s, m) ==> (A.CutShort(log.file) <==> A.CutShort(s.log.file)))
  {
    hide A.Standing, A.Report, A.Appended, A.Spoils, A.CutShort, NextCommand, TypeName;
    match m
    case Begin(_, _) =>
    case OtherAppend(draft, o) =>
      A.StandingStep(w.hash, s.log, good, draft, o);
    case Call(i, at, d) =>
      if i < |s.processes| && s.processes[i].Next().Some? && s.processes[i].Next().value.Append? && d.Served? {
        var p := s.processes[i];
        A.StandingStep(w.hash, s.log, good, DraftFor(w, p.tx, p.Next().value, at), d.outcome);
      }
  }

  /** `q` is `p` some calls later, with no valid verification among them. */
  ghost predicate LaterInvalid(p: Process, q: Process) {
    q.tx == p.tx && q.answers == p.answers && p.replies <= q.replies && NoneValid(q, |p.replies|)
  }

  ghost predicate WorldLaterInvalid(s: World, t: World) {
    && |s.processes| <= |t.processes|
    && (forall i | 0 <= i < |s.processes| :: LaterInvalid(s.processes[i], t.processes[i]))
    && (forall i | |s.processes| <= i < |t.processes| :: NoneValid(t.processes[i], 0))
  }

  lemma InvalidStep(w: Wire, s: World, t: World, m: Move)
    requires WorldLaterInvalid(s, t) && A.Standing(w.hash, t.log, false)
    ensures WorldLaterInvalid(s, Moved(w, t, m))
  {
    hide A.Chain, A.Spoilt, A.Report, A.Appended, NextCommand;
    A.SpoiltIsInvalid(w.hash, t.log);
  }

  lemma {:induction false} InvalidRun(w: Wire, s: World, t: World, ms: seq<Move>)
    requires WorldLaterInvalid(s, t) && A.Standing(w.hash, t.log, false) && Untampered(ms)
    ensures WorldLaterInvalid(s, Run(w, t, ms))
    decreases |ms|
  {
    hide A.Standing, WorldLaterInvalid, Moved, BadWrite;
    if ms != [] {
      InvalidStep(w, s, t, ms[0]);
      BadWritesMove(w, t, ms[0], false);
      InvalidRun(w, s, Moved(w, t, ms[0]), ms[1..]);
    }
  }

  lemma {:induction false} BadWritesRun(w: Wire, s: World, ms: seq<Move>, good: bool) returns (good': bool)
    requires A.Standing(w.hash, s.log, good) && Untampered(ms)
    ensures A.Standing(w.hash, Run(w, s, ms).log, good')
    decreases |ms|
  {
    hide A.Standing, Moved, BadWrite;
    good' := good;
    if ms != [] {
      BadWritesMove(w, s, ms[0], good);
      good' := BadWritesRun(w, Moved(w, s, ms[0]), ms[1..], good && !BadWrite(s, ms[0]));
    }
  }

  lemma IntactStands(h: A.HashFn, log: A.LogState)
    requires A.Intact(h, log)
    ensures A.Standing(h, log, true)
  {
  }

  lemma {:induction false} RunSplit(w: Wire, s: World, ms: seq<Move>, k: nat)
    requires k <= |ms|
    ensures Run(w, s, ms) == Run(w, Run(w, s, ms[..k]), ms[k..])
    decreases |ms|
  {
    hide Moved;
    if k > 0 {
      RunSplit(w, Moved(w, s, ms[0]), ms[1..], k - 1);
      assert ms[..k][1..] == ms[1..][..k - 1] && ms[1..][k - 1..] == ms[k..];
    }
  }

  lemma InvalidFromNow(s: World)
    ensures WorldLaterInvalid(s, s)
  {
  }

  lemma ExecutedBefore(s: World, t: World, i: nat)
    requires WorldLaterInvalid(s, t) && i < |t.processes| && Executed(t.processes[i])
    ensures i < |s.processes| && s.processes[i] == t.processes[i]
  {
    hide Outcome, Trace;
    ExecutedReceipts(t.processes[i]);
  }

  /** The failed append itself executes nothing. */
  lemma BadWriteExecutesNothing(w: Wire, s: World, m: Move, i: nat)
    requires BadWrite(s, m)
    ensures var t := Moved(w, s, m);
            i < |t.processes| && Executed(t.processes[i]) ==> i < |s.processes| && s.processes[i] == t.processes[i]
  {
    hide Outcome, Trace, NextCommand, A.Appended, A.Report;
    var t := Moved(w, s, m);
    if i < |t.processes| && Executed(t.processes[i]) {
      ExecutedReceipts(t.processes[i]);
    }
  }

  /**
    One write that goes wrong, of whichever transaction or client, withholds every payment that was
    not executed by then: what is executed in the end was executed before it.
   */
  lemma {:induction false} NothingExecutesAfterBadWrite(w: Wire, s: World, ms: seq<Move>, k: nat, i: nat)
    requires A.Intact(w.hash, s.log) && Untampered(ms)
    requires k < |ms| && BadWrite(Run(w, s, ms[..k]), ms[k])
    ensures var before, after := Run(w, s, ms[..k]).processes, Run(w, s, ms).processes;
            i < |after| && Executed(after[i]) ==> i < |before| && before[i] == after[i]
  {
    hide A.Standing, A.Intact, Outcome, Trace, BadWrite, Moved, Executed, LaterInvalid;
    IntactStands(w.hash, s.log);
    var good := BadWritesRun(w, s, ms[..k], true);
    var t := Run(w, s, ms[..k]);
    var u := Moved(w, t, ms[k]);
    BadWritesMove(w, t, ms[k], good);
    RunSplit(w, s, ms, k);
    assert ms[k..][0] == ms[k] && ms[k..][1..] == ms[k + 1..];
    var after := Run(w, s, ms).processes;
    InvalidFromNow(u);
    InvalidRun(w, u, u, ms[k + 1..]);
    if i < |after| && Executed(after[i]) {
      ExecutedBefore(u, Run(w, s, ms), i);
      BadWriteExecutesNothing(w, t, ms[k], i);
    }
  }

  // ---------------------------------------------------------------- nor after an unfinished line

  ghost predicate NoReceipt(p: Process) {
    forall k | 0 <= k < |p.replies| :: !p.replies[k].Receipt?
  }

  ghost predicate NoneValidBehindReceipt(p: Process) {
    forall j, k | 0 <= j < k < |p.replies| && p.replies[j].Receipt? :: !SaysValid(p.replies[k])
  }

  /** The log has an unfinished last line and process i no receipt, or the log is spoilt. */
  ghost predicate Unfinished(w: Wire, s: World, i: nat, good: bool) {
    && A.Standing(w.hash, s.log, good) && (good ==> A.CutShort(s.log.file))
    && (i < |s.processes| ==> if good then NoReceipt(s.processes[i]) else NoneValidBehindReceipt(s.processes[i]))
  }

  /** Only a bad write gives a receipt. */
  lemma UnfinishedProcess(w: Wire, log: A.LogState, good: bool, p: Process, at: Bytes, d: Delivery)
    requires A.Standing(w.hash, log, good) && (good ==> A.CutShort(log.file)) && p.Next().Some?
    requires if good then NoReceipt(p) else NoneValidBehindReceipt(p)
    ensures var q := p.(replies := p.replies + [Exchanged(w, log, p.tx, p.Next().value, at, d).1]);
            NoneValidBehindReceipt(q)
            && (good && !(p.Next().value.Append? && d.Served? && A.Spoils(log.file, d.outcome)) ==> NoReceipt(q))
  {
    hide NextCommand, TypeName, A.Report, A.Appended, A.Chain, A.Spoilt, A.Intact;
    if !good {
      A.SpoiltIsInvalid(w.hash, log);
    }
  }

  lemma UnfinishedStep(w: Wire, s: World, m: Move, i: nat, good: bool)
    requires Unfinished(w, s, i, good) && !m.Tamper?
    ensures Unfinished(w, Moved(w, s, m), i, good && !BadWrite(s, m))
  {
    BadWritesMove(w, s, m, good);
    hide A.Standing, A.CutShort, A.Spoils, Exchanged, NextCommand, A.Appended;
    if m.Call? && m.index == i < |s.processes| && s.processes[i].Next().Some? {
      UnfinishedProcess(w, s.log, good, s.processes[i], m.at, m.delivery);
    }
  }

  lemma {:induction false} UnfinishedRun(w: Wire, s: World, ms: seq<Move>, i: nat, good: bool) returns (good': bool)
    requires Unfinished(w, s, i, good) && Untampered(ms)
    ensures Unfinished(w, Run(w, s, ms), i, good')
    decreases |ms|
  {
    hide Unfinished, Moved, BadWrite;
    good' := good;
    if ms != [] {
      UnfinishedStep(w, s, ms[0], i, good);
      good' := UnfinishedRun(w, Moved(w, s, ms[0]), ms[1..], i, good && !BadWrite(s, ms[0]));
    }
  }

  /**
    After the log was opened with an unfinished last line no payment is executed whose transaction has
    no receipt from before, although every append may report success.
   */
  lemma {:induction false} CutShortExecutesNothing(w: Wire, s: World, ms: seq<Move>, i: nat)
    requires A.Intact(w.hash, s.log) && A.CutShort(s.log.file) && Untampered(ms)
    requires i < |s.processes| ==> NoReceipt(s.processes[i])
    ensures var after := Run(w, s, ms).processes;
            i < |after| ==> !Executed(after[i])
  {
    IntactStands(w.hash, s.log);
    hide A.Standing, A.Intact, A.CutShort, Outcome, Trace, Executed, Run;
    var good := UnfinishedRun(w, s, ms, i, true);
    var after := Run(w, s, ms).processes;
    if i < |after| && Executed(after[i]) {
      ExecutedReceipts(after[i]);
    }
  }

  // ---------------------------------------------------------------- and nothing else does

  /** The step works as it should: requests are served, answers arrive, writes succeed. */
  predicate Smooth(m: Move) {
    match m
    case Begin(_, _) => true
    case Call(_, _, d) => d.Served? && d.answered && d.outcome.Stored?
    case OtherAppend(_, o) => !A.LeavesJunk(o)
    case Tamper(_) => false
  }

  /** Every append got its receipt and every verification said valid. */
  ghost predicate WellServed(p: Process) {
    forall k: nat | k < |p.replies| ::
      && p.CommandAt(k).Some?
      && if p.CommandAt(k).value.Append? then p.replies[k].Receipt? else SaysValid(p.replies[k])
  }

  ghost predicate ServedSoFar(w: Wire, s: World, i: nat) {
    A.Intact(w.hash, s.log) && !A.CutShort(s.log.file) && (i < |s.processes| ==> WellServed(s.processes[i]))
  }

  lemma SmoothLog(w: Wire, s: World, m: Move)
    requires A.Intact(w.hash, s.log) && !A.CutShort(s.log.file) && Smooth(m)
    ensures var log := Moved(w, s, m).log;
            A.Intact(w.hash, log) && !A.CutShort(log.file)
  {
    hide A.Chain, A.Report, A.Appended, A.RecordLines, NextCommand;
    IntactStands(w.hash, s.log);
    BadWritesMove(w, s, m, true);
  }

  lemma ServedStep(w: Wire, s: World, m: Move, i: nat)
    requires ServedSoFar(w, s, i) && Smooth(m)
    ensures ServedSoFar(w, Moved(w, s, m), i)
  {
    hide A.Intact, A.CutShort, A.Report, A.Appended, NextCommand;
    SmoothLog(w, s, m);
    A.IntactVerifies(w.hash, s.log);
    var t := Moved(w, s, m);
    if m.Call? && m.index == i < |s.processes| && s.processes[i].Next().Some? {
      var p, q := s.processes[i], t.processes[i];
      forall k: nat | k < |q.replies|
        ensures q.CommandAt(k).Some?
        ensures if q.CommandAt(k).value.Append? then q.replies[k].Receipt? else SaysValid(q.replies[k])
      {
        CommandAtExtends(p, q.replies[|p.replies|], k);
      }
    }
  }

  lemma {:induction false} ServedRun(w: Wire, s: World, ms: seq<Move>, i: nat)
    requires ServedSoFar(w, s, i) && forall k | 0 <= k < |ms| :: Smooth(ms[k])
    ensures ServedSoFar(w, Run(w, s, ms), i)
    decreases |ms|
  {
    hide ServedSoFar, Moved;
    if ms != [] {
      ServedStep(w, s, ms[0], i);
      ServedRun(w, Moved(w, s, ms[0]), ms[1..], i);
    }
  }

  lemma ServedIsBacked(p: Process)
    requires WellServed(p) && Complete(p.answers, true, p.replies)
    ensures FullyBacked(p.answers, true, p.replies)
  {
    hide Trace, Records, Unpersisted, Receipts, PaymentPolicy;
    var n := p.Count();
    forall k: nat | k < |p.replies| ensures k == n || k == n + 2 || p.replies[k].Receipt? {
      assert p.CommandAt(k).Some?;
      assert k < n ==> p.CommandAt(k).value == Records(p.tx, p.answers)[k];
    }
    assert p.CommandAt(n).Some?;
    assert |p.replies| == n + 3 ==> p.CommandAt(n + 2).Some?;
  }

  /**
    Where everything works, exactly the payments that closed at stage 0 are executed, however the runs
    interleave, unless the log was opened with an unfinished last line; then none is.
   */
  lemma {:induction false} SmoothRunsExecute(w: Wire, s: World, ms: seq<Move>, i: nat)
    requires A.Intact(w.hash, s.log) && forall k | 0 <= k < |ms| :: Smooth(ms[k])
    requires i < |s.processes| ==>
               if A.CutShort(s.log.file) then NoReceipt(s.processes[i]) else WellServed(s.processes[i])
    requires var t := Run(w, s, ms);
             && i < |t.processes|
             && var p := t.processes[i];
             Complete(p.answers, true, p.replies)
             && p.answers.rules.riskBand == RiskRules.FromScore(p.answers.rules.riskScore)
    ensures var p := Run(w, s, ms).processes[i];
            Executed(p) <==> ClosesAtStageZero(p.answers) && !A.CutShort(s.log.file)
  {
    hide Run, Outcome, Trace, FullyBacked, WellServed, A.CutShort, A.Intact;
    if A.CutShort(s.log.file) {
      CutShortExecutesNothing(w, s, ms, i);
    } else {
      ServedRun(w, s, ms, i);
      var p := Run(w, s, ms).processes[i];
      ServedIsBacked(p);
      FinalAction(p.tx, p.answers, true, p.replies);
    }
  }
}
