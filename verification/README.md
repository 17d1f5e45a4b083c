# VaultWatch, modelled and proved in Dafny

VaultWatch scores payments, investigates suspicious ones with language-model agents, gates a simulated
payment on the outcome, keeps a hash-chained audit log, and protects the login that leads there. This
project models the stateful core of its services and proves what that core promises over all inputs,
all runs and all interleavings.

Run `dafny verify dfyconfig.toml` to verify the whole project.

| file | models |
|---|---|
| `TokenBucket.dfy` | the per-key request limiter of the gateway |
| `AuditChain.dfy` | the file-backed audit log of the Rust engine, with writes that fail half way |
| `AsyncAudit.dfy` | the dashboard's in-memory audit log, whose append waits for its hash |
| `Pipeline.dfy` | one transaction's way through the pipeline and the payment policy, as values |
| `PipelineRuns.dfy` | any number of transactions interleaving over one audit log |
| `Orchestrators.dfy` | the orchestrator and payment control as they update a result step by step |
| `Investigators.dfy`, `Replays.dfy` | the investigator's tool loop and the replay provider |
| `RiskRules.dfy` | the deterministic rules, their statistics and the risk bands |
| `MemoryStores.dfy`, `Sessions.dfy` | users and refresh tokens, token families and reuse detection |
| `BruteForce.dfy`, `AuthServices.dfy` | failed-login windows and the login service |
| `PasswordHash.dfy` | the stored password string, printed and parsed back |
| `Models.dfy`, `SlidingWindow.dfy`, `Text.dfy`, `Identifiers.dfy`, `Octets.dfy`, `Wrappers.dfy` | shared values and lemmas |

Objects that the source updates in place are classes (`Limiter`, `AuditLog`, `ShowcaseLog`,
`BruteForceTracker`, `MemoryStore`, `AuthService`, `PipelineResult`, `Orchestrator`). Their methods are
proved against functions on values, and the main results are lemmas about those functions. What comes
from outside is a parameter: hashes and encodings, clock readings, generated ids and secrets, the
answers of models and services, and how each write and each network call ends.

The hash needs care. No function with values of a fixed length is injective, so where a result needs
an injective hash it assumes only that the records at hand do not collide (`CollisionFree`).

Findings where the code and its description part:

- The comment on the Rust log (engine-rust/src/audit.rs:12-17) says that changing any past entry breaks the
  chain. The hashed fields are concatenated without separators, so bytes may move from one field to the
  next unnoticed: move the first byte of an entry's subject id to the end of its event type in the file, and
  the file still verifies (`AuditChain.MovedByteVerifies`). Verification accepts a file exactly if it parses,
  has the right length and every entry has the expected number, hashes and concatenated content
  (`AuditChain.VerifyDetects`).
- One append that writes its line or part of it and then fails keeps every later verification in that process
  invalid, so it withholds every later payment of every transaction
  (`PipelineRuns.NothingExecutesAfterBadWrite`).
- A log whose last line lacks only its newline opens and verifies. An append that reports success keeps a valid
  log valid exactly if the file's last line has its newline; if that is missing, it glues its record to that
  line, after which the log neither verifies nor opens (`AuditChain.StoredKeepsValid`,
  `AuditChain.UnfinishedLineSwallowsNext`). After such a reopening no payment is executed, although every append
  reports success, unless its transaction had a receipt before (`PipelineRuns.CutShortExecutesNothing`,
  `PipelineRuns.SmoothRunsExecute`).
- When a log can be reopened, and when it then verifies, is exact for every way a write can be cut short:
  `AuditChain.TornBlocksReopening`, `AuditChain.ReopenAfterRun`. After a write cut inside a multi-byte character the
  log still opens, but without any record written later, also those whose appends reported success
  (`AuditChain.CutCharacterDropsTheRest`), as `map_while(Result::ok)` (engine-rust/src/audit.rs:47) ends there.
- The dashboard log is valid exactly if no two appends overlap (`AsyncAudit.ValidIffOneAtATime`).
- The orchestrator times security events with the wall clock `datetime.now(timezone.utc)`
  (agents-python/app/orchestrator.py:110,117), which can step back. An alert is fused with the newest event
  if that is recent, for any clock; but with events at 2000 s and then 1900 s and a lookup at 2550 s it is
  fused with the older one. When the newest event is stale nothing is fused exactly if no event that is later
  than the cutoff was within ten minutes of every record after it (`Orchestrators.FusesWithNewest`,
  `Orchestrators.SteppedBackClockFusesOlder`).
- A brute-force tracker counts exactly the failures of its window if and only if none of them was ever found out
  of the window by an earlier failure's clock reading, and otherwise too few (`BruteForce.PrunedIsWindow`). The
  running gateway passes `time.Now` (gateway-go/cmd/gateway/main.go:94), whose readings do not step back against
  each other, so there the count is always exact (`BruteForce.SteadyClockLosesNothing`); only an injected clock
  that runs ahead by a window and steps back makes it fall short (`BruteForce.BackwardClockLoses`).
- The limiter exceeds its budget exactly when its capacity is below one, as the first call on a key is never
  refused (`TokenBucket.LimiterWithinBudget`). The gateway sets ten.
- A rule score of 80 blocks a payment only if the case is not investigated; after an investigation the
  alert's severity decides, which may be to hold (`Pipeline.FinalAction`, `Replays.ReplayedPayment`).

## Model

| member | source | states |
|---|---|---|
| TokenBucket.AllowLaw | gateway-go/internal/ratelimit/tokenbucket.go:35-61 | a call is admitted exactly when, for every earlier call k on the key and for itself, the admitted since k plus one fit in capacity plus refill over the time since k (running maximum of clock readings); the first call always |
| TokenBucket.LimiterIsOptimal | gateway-go/internal/ratelimit/tokenbucket.go:35-61 | no rule that keeps every window within capacity plus refill has admitted more calls than the limiter, at any prefix of any run |
| TokenBucket.LimiterWithinBudget | gateway-go/internal/ratelimit/tokenbucket.go:39-60 | the limiter's own answers keep every window within budget if and only if the capacity is at least one |
| TokenBucket.LevelBelowWindow | gateway-go/internal/ratelimit/tokenbucket.go:47-54 | before a call the bucket never holds more than any window since an earlier call leaves over |
| TokenBucket.SomeWindowIsTight | gateway-go/internal/ratelimit/tokenbucket.go:47-54 | and it holds exactly what some window leaves over |
| TokenBucket.OneMoreCall | gateway-go/internal/ratelimit/tokenbucket.go:39-60 | how one more call on a key is answered and what level it leaves, from the level before |
| TokenBucket.Bucket.Take | gateway-go/internal/ratelimit/tokenbucket.go:47-60 | the bucket is refilled up to its capacity and spent by one if it holds one |
| TokenBucket.Limiter.constructor | gateway-go/internal/ratelimit/tokenbucket.go:24-31 | a new limiter has no buckets and is valid |
| TokenBucket.Limiter.Allow | gateway-go/internal/ratelimit/tokenbucket.go:35-61 | the answer is that of the key's own clock readings alone; no other key's bucket changes |
| AuditChain.MaterialPins | engine-rust/src/audit.rs:31-38 | the hashed bytes determine previous hash, number and concatenated content, and nothing finer |
| AuditChain.BigEndianSpells | engine-rust/src/audit.rs:33 | the hashed sequence number is its eight bytes, most significant first |
| AuditChain.HashPinsEntry | engine-rust/src/audit.rs:23-39 | equal hashes of two sealed entries of two chains mean equal position, previous hash and content |
| AuditChain.HeadPinsHistory | engine-rust/src/audit.rs:65-100 | two chains with the same newest hash have the same length and, entry by entry, the same number, hashes and hashed bytes |
| AuditChain.ContentsFixHistory | engine-rust/src/audit.rs:65-100 | conversely the contents in order determine every number and hash |
| AuditChain.ChainExtends | engine-rust/src/audit.rs:71-95 | the entry that append builds extends a chain to a chain |
| AuditChain.AgreesIsMatch | engine-rust/src/audit.rs:146-168 | on a prefix that matches so far, verify's test at a position is exactly a match there |
| AuditChain.VerifyDetects | engine-rust/src/audit.rs:111-175 | for any file: verify accepts exactly if it parses, has memory's length and every entry has memory's number, hashes and timestamp, type, subject and payload run together; what it reports for an unreadable file, another length, and the first mismatch, whose number is its position if intact |
| AuditChain.ChangedFieldIsDetected | engine-rust/src/audit.rs:111-175 | a change of any one field of any one entry in the file, where the old and the new hashed bytes do not collide, is reported at that entry |
| AuditChain.VerifyNeedsAllLines | engine-rust/src/audit.rs:115-143 | what verify accepts parses, has memory's length and passes the test at every position |
| AuditChain.FieldBoundariesAreNotPinned | engine-rust/src/audit.rs:31-38 | moving the first byte of the subject to the end of the event type leaves the hashed bytes unchanged |
| AuditChain.MovedByteVerifies | engine-rust/src/audit.rs:111-175 | a file changed in this way differs from the log and verifies, whatever the hash |
| AuditChain.RunKeepsCount | engine-rust/src/audit.rs:97-108 | over any run of appends from an opened valid log the lines on disk and the writes that continued an unfinished line are together as many as the entries in memory and the appends that wrote and then failed |
| AuditChain.VerifyAfterRun | engine-rust/src/audit.rs:97-143 | after any run on an opened valid log verify says valid if and only if no append wrote its line or part of it and then failed and, if the last line lacked its newline, none wrote at all |
| AuditChain.LinesOfRun | engine-rust/src/audit.rs:97-108 | the lines any run leaves: a chain if the run ends clean and continued no unfinished line, else a line that does not parse or does not carry its position |
| AuditChain.ReopenAfterRun | engine-rust/src/audit.rs:42-63 | after any run, the log opens and then verifies if and only if nothing was written after a bad write, a torn line lacks only its newline, and no line unfinished from the start was continued |
| AuditChain.TornBlocksReopening | engine-rust/src/audit.rs:42-51 | after any run, the log opens again if and only if, by the outcomes of the writes and whether the last line was unfinished before them, the first line that is no record, if there is one, is not UTF-8 |
| AuditChain.OpensExactly | engine-rust/src/audit.rs:42-51 | opening any lines fails exactly on one that does not parse, with none before it that is not UTF-8 |
| AuditChain.BlankLinesAreSkipped | engine-rust/src/audit.rs:48 | a blank line anywhere changes nothing of what opening reads |
| AuditChain.WholeCharactersReopen | engine-rust/src/audit.rs:42-51 | if no write is cut inside a character, that is: every torn line lacks only its newline, nothing was written after it, and no line unfinished from the start was continued |
| AuditChain.CutCharacterDropsTheRest | engine-rust/src/audit.rs:42-51 | after a write cut inside a character, and any appends then, the log opens with exactly the entries before that write |
| AuditChain.UnfinishedLineSwallowsNext | engine-rust/src/audit.rs:42-109 | an append on an opened valid log that reports success leaves a log that verifies, and one that opens, if and only if the last line had its newline |
| AuditChain.StoredKeepsValid | engine-rust/src/audit.rs:97-143 | an append that reports success keeps any valid log valid if and only if the last line of the file has its newline |
| AuditChain.ChainVerifies | engine-rust/src/audit.rs:144-174 | a list verifies against its own lines exactly if it is a chain |
| AuditChain.OpenedAndValidIsIntact | engine-rust/src/audit.rs:42-174 | a log is what opening the file gives and verifies exactly if it is a chain whose file holds just its lines, finished or not, which is where the run results start |
| AuditChain.AuditLog.Open | engine-rust/src/audit.rs:42-63 | opening reads the lines up to one that is not UTF-8, without blank ones, and fails on a bad record |
| AuditChain.AuditLog.Append | engine-rust/src/audit.rs:65-100 | the entry built, field by field, and the bytes its hash is taken of; memory advances only if the line was written and synced; the new log state in every case |
| AuditChain.AuditLog.WriteLine | engine-rust/src/audit.rs:107 | a write adds a line or continues one that lacks its newline |
| AuditChain.AuditLog.Persist | engine-rust/src/audit.rs:102-109 | what each way of ending leaves in the file, line by line |
| AuditChain.AuditLog.Verify | engine-rust/src/audit.rs:111-175 | the loop computes the report for memory and file |
| AsyncAudit.MaterialPinsPrev | dashboard-web/src/lib/audit.ts:40-41 | equal hashed texts have the same previous hash in front of the first separator |
| AsyncAudit.HeadsDiffer | dashboard-web/src/lib/audit.ts:44-53 | the heads of a chain at two different lengths differ |
| AsyncAudit.StalePushBreaks | dashboard-web/src/lib/audit.ts:45-51 | pushing an entry built on an older head breaks the chain |
| AsyncAudit.DoomedUnlessSerial | dashboard-web/src/lib/audit.ts:44-53 | over every run of split appends the list is a chain, or broken for good after a stale push |
| AsyncAudit.ValidIffOneAtATime | dashboard-web/src/lib/audit.ts:44-78 | once appends have finished, verification says valid if and only if no append read the log before an earlier one had pushed |
| AsyncAudit.OverlapExample | dashboard-web/src/lib/audit.ts:44-53 | two overlapping appends make the log invalid |
| AsyncAudit.ChangedFieldIsDetected | dashboard-web/src/lib/audit.ts:61-78 | a change of any one field of any one entry of a chain, its number included, where the old and the new hashed texts do not collide, is reported at that entry |
| AsyncAudit.ShowcaseLog.BeginAppend | dashboard-web/src/lib/audit.ts:44-48 | up to its await an append only reads, and builds this entry, field by field, with the hash of this text |
| AsyncAudit.ShowcaseLog.CompleteAppend | dashboard-web/src/lib/audit.ts:50-52 | after it the entry that was built then is pushed |
| AsyncAudit.ShowcaseLog.VerifyAuditChain | dashboard-web/src/lib/audit.ts:61-78 | the loop computes the report of the list |
| Pipeline.FinalAction | agents-python/app/payments.py:9-81 | allow iff rule score below 25, no anomaly and a complete, twice verified trail; block iff watchlist match or security event with case score 50 after an investigation, or rule score 80 without one; hold otherwise; execution iff allow, of the transaction's own amount and currency |
| Pipeline.ExecutionNeedsBacking | agents-python/app/payments.py:56-75 | whatever the named band, execution needs every receipt, both verifications valid and no error, and pays the transaction's own amount |
| Pipeline.VerifiedMeansBacked | agents-python/app/orchestrator.py:148-161 | the status is verified after the stages exactly if every record got its receipt and the verification said valid |
| Pipeline.PolicyDecides | agents-python/app/payments.py:9-30 | the policy's action in terms of scores, anomaly, case and audit status |
| Pipeline.ReasonGiven | agents-python/app/payments.py:9-81 | the reason of every payment decision in terms of the scores, the watchlist hit, the security event and the replies of the audit service |
| Pipeline.FinalStatus | agents-python/app/payments.py:56-72 | the audit status and verification that the result ends with, for all replies |
| Pipeline.TraceIsInLanguage | agents-python/app/orchestrator.py:165-304 | the events of a complete run are: rules, prefilter, then closed, or triage followed by closed or by investigation+ compliance? fusion? alert, then payment |
| Pipeline.LanguageIsTraced | agents-python/app/orchestrator.py:165-304 | every word of that language is the trace of some complete run |
| Pipeline.FieldsMatchTrace | agents-python/app/orchestrator.py:168-314 | each result field is set exactly when its stage left an event, the stage reached is the last such stage, and the alert's severity is this range of the case score |
| Pipeline.EventsShowFields | agents-python/app/orchestrator.py:165-304 | every event says what the result shows, and the result shows what the services answered |
| Pipeline.CallsShowResult | agents-python/app/orchestrator.py:134-166 | call by call, the audit service is told exactly what the result shows: case.opened, every event but the payment's, case.completed, a verification, the payment event, a verification |
| Pipeline.RecordNames | agents-python/app/orchestrator.py:147 | the record of each kind of event has this name |
| Pipeline.NamesDiffer | agents-python/app/orchestrator.py:134-166 | no two kinds of record have the same name |
| Pipeline.StoredPlusFailed | agents-python/app/orchestrator.py:134-166 | stored receipts plus failed appends are the events plus two; every failed call left one error |
| Pipeline.UnpersistedNames | agents-python/app/orchestrator.py:134-146 | a record type is reported as not persisted exactly if an append of that type got no receipt |
| PipelineRuns.BackedStep | agents-python/app/audit.py:12-29 | one call keeps all replies of its transaction backed by the shared log, in order |
| PipelineRuns.RunsStayBacked | agents-python/app/orchestrator.py:134-161 | in every interleaving every receipt is on record as it was sent, receipts are in log order, and the log only grows |
| PipelineRuns.ExecutionIsOnRecord | agents-python/app/payments.py:56-75 | in every reachable state an executed payment has no audit error, both verifications valid, and these six records in the log at increasing numbers: case.opened with the transaction, the two verdicts of stage 0, the closing, case.completed without a case, payment.policy with allow; the log of the second verification held them already; the amount executed is that of the transaction on record |
| PipelineRuns.EveryExecutionIsOnRecord | agents-python/app/payments.py:56-75 | all of this from any chain as start, for any sequence of moves of transactions, other clients, failures and tampering |
| PipelineRuns.ExecutionIsOnDisk | engine-rust/src/audit.rs:111-175 | and the file read by that verification held every entry of the log, the same ones unless hashes collide |
| PipelineRuns.ReceiptsAreUnshared | engine-rust/src/audit.rs:71-99 | no log entry is evidence for two transactions |
| PipelineRuns.NothingExecutesAfterBadWrite | engine-rust/src/audit.rs:97-143 | after one append by anyone that wrote and failed, or continued an unfinished line, no payment is executed that was not executed before |
| PipelineRuns.CutShortExecutesNothing | engine-rust/src/audit.rs:42-143 | after the log was opened with an unfinished last line, no payment is executed whose transaction has no receipt from before, whatever the calls and writes do |
| PipelineRuns.SmoothRunsExecute | agents-python/app/payments.py:56-81 | where calls and writes succeed, exactly the payments closed at stage 0 are executed, however the runs interleave, and none if the log was opened with an unfinished last line |
| Orchestrators.PipelineResult.constructor | agents-python/app/orchestrator.py:49-64 | the fields of a new result |
| Orchestrators.AuditClient.Append | agents-python/app/audit.py:12-24 | a call returns the stored entry or raises |
| Orchestrators.AuditClient.Verify | agents-python/app/audit.py:26-29 | a call returns the verification or raises |
| Orchestrators.Record | agents-python/app/orchestrator.py:134-140 | one append; its receipt or an error joins the result |
| Orchestrators.Emit | agents-python/app/orchestrator.py:142-146 | the event joins the result and goes on record; nothing else changes |
| Orchestrators.CheckTrail | agents-python/app/orchestrator.py:152-161 | the first verification and the status it gives |
| Orchestrators.AppendAndVerify | agents-python/app/payments.py:60-62 | the policy is verified only if it was stored |
| Orchestrators.RecordPolicy | agents-python/app/payments.py:58-70 | the result after the two calls in every case, and when it counts as verified |
| Orchestrators.ApplyPaymentControl | agents-python/app/payments.py:43-81 | the calls made, and the decision: an allow that is not recorded and verified becomes a hold |
| Orchestrators.Finish | agents-python/app/orchestrator.py:148-163 | from the gathered result to the outcome, with exactly the protocol's calls |
| Orchestrators.Orchestrator.RecordSecurityEvent | agents-python/app/orchestrator.py:107-114 | the account's bucket stays the pruned history; other accounts' buckets do not change |
| Orchestrators.FusesWithLastRemembered | agents-python/app/orchestrator.py:107-119 | for any clock: an alert is fused with the last event that is later than the cutoff and was within ten minutes of every record after it |
| Orchestrators.FusesWithNewest | agents-python/app/orchestrator.py:107-119 | the newest event is fused whenever it is less than ten minutes old; when it is older, nothing is fused exactly if no other event is still remembered |
| Orchestrators.SteadyClockFusesNewest | agents-python/app/orchestrator.py:107-119 | with a clock that does not step back: the newest event if recent, else none |
| Orchestrators.SteppedBackClockFusesOlder | agents-python/app/orchestrator.py:107-119 | when the clock steps back between two events, the older is fused once the newer is stale |
| Orchestrators.Orchestrator.RecentSecurityEvent | agents-python/app/orchestrator.py:116-119 | the newest kept event within the window |
| Orchestrators.Orchestrator.StageZero | agents-python/app/orchestrator.py:168-190 | rules and pre-filter fill their fields and emit their events |
| Orchestrators.Orchestrator.Close | agents-python/app/orchestrator.py:192-229 | the two early exits leave the result of the stages |
| Orchestrators.Orchestrator.EmitToolCalls | agents-python/app/orchestrator.py:240-249 | one event per tool call, in order, each on record |
| Orchestrators.Orchestrator.FileCase | agents-python/app/orchestrator.py:236-259 | the tool calls' events, then the case |
| Orchestrators.Orchestrator.RaiseAlert | agents-python/app/orchestrator.py:289-302 | the alert completes the result of the stages |
| Orchestrators.Orchestrator.RunStages | agents-python/app/orchestrator.py:165-302 | every path through the stages leaves the fields, events and records of the value model |
| Orchestrators.Orchestrator.ProcessTransaction | agents-python/app/orchestrator.py:125-304 | the result is the outcome of a complete run of the protocol, and the calls made are the protocol's, one by one |
| Investigators.LoopIsBounded | agents-python/app/llm/investigator_agent.py:71-101 | for any provider at most six completions, every tool result answers the call at its place in the message just before, and a filed score is at most 100 |
| Investigators.LoopFollowsProvider | agents-python/app/llm/investigator_agent.py:71-101 | for any provider: every research turn is its answer to the messages before; a case is filed exactly if the last answer's first filing call has all its fields and a score from 0 to 100; when else it raises |
| Investigators.ToolsAnswer | agents-python/app/llm/investigator_agent.py:91-92 | which tool answers which name, and that any other name or a missing argument raises |
| Investigators.FindFiling | agents-python/app/llm/investigator_agent.py:82-84 | the loop finds the first call that files the case |
| Investigators.RunTools | agents-python/app/llm/investigator_agent.py:91-98 | the loop returns one result per call with the call's id, or raises at the first bad call |
| Investigators.Investigation | agents-python/app/llm/investigator_agent.py:50-101 | the loop is the recursion bounded by six, follows the provider, and the observer has seen exactly the tool calls of the messages |
| Replays.Complete | agents-python/app/llm/provider.py:122-162 | the passes over all message blocks compute turn, names and evidence and answer with the script's step |
| Replays.EvidenceIsLatest | agents-python/app/llm/provider.py:141-156 | for any messages the evidence for a tool is the latest result whose id, by then, last named a call to that tool |
| Replays.DigestExchange | agents-python/app/llm/provider.py:141-156 | with one call a turn a result is filed under its own tool, whether ids are distinct or not |
| Replays.HighReplay | agents-python/app/llm/transcripts.py:47-71 | at high likelihood the investigation files on completion four, after exactly the three research calls in order |
| Replays.ReplayedCaseIsEvidence | agents-python/app/llm/transcripts.py:47-64 | linked accounts and watchlist hit are the tools' answers, the score is 85 on a hit, 70 from a rule score of 50 or three times the mean of past amounts, else 40, plus three for each linked account, at most 95; compliance is recommended iff it is 70 or there is a hit |
| Replays.LowReplay | agents-python/app/llm/transcripts.py:72-76 | at low likelihood it files at once, with score 12 and no tool call |
| Replays.ReplayedPayment | agents-python/app/llm/transcripts.py:13-76 | the payment decision of a whole run in replay mode: who is investigated, what the case says, and who can be blocked |
| RiskRules.CollectTriggered | engine-rust/src/rules.rs:43-128 | the pushes collect exactly the firing rules, in order |
| RiskRules.Score | engine-rust/src/rules.rs:40-138 | the method returns the capped sum, its band and the rules; in numbers, the least of 100 and six terms, each under its own condition on the request, and the bands by their ranges |
| RiskRules.FiringMembers | engine-rust/src/rules.rs:43-128 | a rule is collected exactly if it fires |
| RiskRules.ScoreIsCappedSum | engine-rust/src/rules.rs:130 | the score is the sum of the firing rules' weights capped at 100, the band that of the score |
| RiskRules.TallyOf | engine-rust/src/rules.rs:40-138 | the score, band and triggered rules in numbers, which the method returns |
| RiskRules.ScoreMonotoneInAmount | engine-rust/src/rules.rs:40-138 | score and band never fall as the amount grows |
| RiskRules.ScoreIgnoresOrder | engine-rust/src/rules.rs:40-138 | reordering the history or the known ids changes nothing |
| RiskRules.CauchySchwarz | engine-rust/src/rules.rs:28-30 | the square of a sum of distances is at most their number times the sum of squares |
| RiskRules.MemberNearMean | engine-rust/src/rules.rs:24-31 | a member of the history lies within sqrt(n-1) standard deviations of the mean |
| RiskRules.OutlierMeaning | engine-rust/src/rules.rs:70-84 | the outlier rule without division or square root |
| RiskRules.OutlierInSums | engine-rust/src/rules.rs:24-84 | the outlier rule from the number, the sum and the sum of squares of past amounts alone |
| RiskRules.KnownAmountIsNoOutlier | engine-rust/src/rules.rs:70-84 | an amount from the history never fires the outlier rule while there are at most ten entries |
| RiskRules.ElevenEntriesAdmitOutlier | engine-rust/src/rules.rs:70-84 | with eleven entries it can: the bound is exact |
| Sessions.InvStep | gateway-go/internal/service/auth_service.go:119-201 | every service call keeps every token family a single lineage |
| Sessions.FamiliesAreLineages | gateway-go/internal/service/auth_service.go:143-201 | in every reachable state each family is one lineage: one owner, each later token minted by exchanging the one before, all but the last used |
| Sessions.FamiliesAreLineagesFromStart | gateway-go/internal/service/auth_service.go:143-201 | in particular in every run from the empty store |
| Sessions.OneLiveToken | gateway-go/internal/service/auth_service.go:143-201 | at most one token of a family is unused and unrevoked, and it is the newest |
| Sessions.RefreshSucceedsExactly | gateway-go/internal/service/auth_service.go:143-178 | a refresh succeeds exactly for the newest token of its family, unused, unrevoked, unexpired, of a known user |
| Sessions.ReuseReportedExactly | gateway-go/internal/service/auth_service.go:145-159 | a refresh reports reuse exactly for a known token that was used or revoked, with its own family and owner |
| Sessions.SpentTokenIsReuse | gateway-go/internal/service/auth_service.go:143-178 | once a token was exchanged, used or revoked, every later refresh with it, in any continuation, reports reuse and leaves its family revoked |
| Sessions.RotationChangesTwoTokens | gateway-go/internal/service/auth_service.go:164-201 | a successful refresh marks the presented token used, adds one of the same family and owner that is live for seven days, and changes no other |
| Sessions.FailedRefresh | gateway-go/internal/service/auth_service.go:145-178 | an invalid refresh changes nothing; one that fails behind its checks uses the presented token up and changes no other |
| Sessions.LoginMintsOneToken | gateway-go/internal/service/auth_service.go:180-201 | a login adds one token of the new family, live for seven days, and changes no other |
| Sessions.ExchangedAtMostOnce | gateway-go/internal/service/auth_service.go:164-177 | each token is exchanged at most once, never after its expiry, for the next of its family |
| Sessions.ReuseKillsFamily | gateway-go/internal/service/auth_service.go:150-162 | reporting reuse revokes every token of the family, otherwise leaves it as it was, and changes no other token |
| Sessions.ReuseIsFinal | gateway-go/internal/service/auth_service.go:150-162 | after it no call in any continuation mints another token of the family |
| MemoryStores.MemoryStore.CreateUser | gateway-go/internal/store/memory.go:29-37 | both indices get the new user |
| MemoryStores.MemoryStore.GetUserByEmail | gateway-go/internal/store/memory.go:39-49 | a copy of the user, or not found |
| MemoryStores.MemoryStore.GetUserByID | gateway-go/internal/store/memory.go:51-61 | a copy of the user, or not found |
| MemoryStores.MemoryStore.UpdateLastLogin | gateway-go/internal/store/memory.go:63-75 | one write through the id index, seen through the email index, no other user changed |
| MemoryStores.MemoryStore.Save | gateway-go/internal/store/memory.go:77-83 | the token is stored in a record of its own |
| MemoryStores.MemoryStore.Get | gateway-go/internal/store/memory.go:85-94 | a copy of the token, or not found |
| MemoryStores.MemoryStore.MarkUsed | gateway-go/internal/store/memory.go:96-105 | exactly this token is marked |
| MemoryStores.MemoryStore.RevokeFamily | gateway-go/internal/store/memory.go:107-116 | exactly the family's tokens are revoked, in whatever order they are visited |
| SlidingWindow.SelectTwice | gateway-go/internal/anomaly/bruteforce.go:43-48 | two cutoffs, in either order, select like the later |
| SlidingWindow.SelectLater | gateway-go/internal/anomaly/bruteforce.go:43-48 | a later cutoff selects fewer items, unless all of the early selection is after it |
| BruteForce.PrunedSeenFrom | gateway-go/internal/anomaly/bruteforce.go:36-61 | for any clock and any cutoff: the pruned slice shows no more than the full history since the reset, and the same exactly if no failure it should show was ever out of the window |
| BruteForce.PrunedIsWindow | gateway-go/internal/anomaly/bruteforce.go:36-54 | for any clock: just after a failure the pruned slice is the full history cut to the window if and only if no failure of the window was ever out of it; else it holds fewer |
| BruteForce.SteadyClockLosesNothing | gateway-go/internal/anomaly/bruteforce.go:36-54 | with a clock that does not step back it always is |
| BruteForce.BackwardClockLoses | gateway-go/internal/anomaly/bruteforce.go:40-48 | a clock that runs ahead and steps back makes the count too small |
| BruteForce.CompactInPlace | gateway-go/internal/anomaly/bruteforce.go:43-48 | the front of the array holds the late times of what it held |
| BruteForce.AppendTo | gateway-go/internal/anomaly/bruteforce.go:49-50 | the appended slice, in place or in a larger array |
| BruteForce.BruteForceTracker.constructor | gateway-go/internal/anomaly/bruteforce.go:25-32 | a new tracker keeps nothing |
| BruteForce.BruteForceTracker.Extended | gateway-go/internal/anomaly/bruteforce.go:43-50 | the key's slice is compacted over its own array and extended, no other key's array is touched |
| BruteForce.BruteForceTracker.RecordFailure | gateway-go/internal/anomaly/bruteforce.go:36-54 | the key keeps the late failures and the new one, other keys are unchanged, and the count triggers at the threshold |
| BruteForce.BruteForceTracker.Reset | gateway-go/internal/anomaly/bruteforce.go:57-61 | the key keeps nothing, other keys are unchanged |
| AuthServices.AlertsFollowFullHistory | gateway-go/internal/service/auth_service.go:126-141 | for any clock: a failed login never raises more than the full history calls for (five failures in five minutes for the IP, eight in fifteen for the account), and exactly that if and only if for each the history calls for nothing or lost nothing |
| AuthServices.IpFailuresCounted | gateway-go/internal/service/auth_service.go:126-133 | the failures that count for an IP, counted in the list of all attempts: those of the last five minutes with no verified attempt after them |
| AuthServices.AccountFailuresCounted | gateway-go/internal/service/auth_service.go:134-141 | and for an account, of the last fifteen minutes |
| AuthServices.SteadyClocksAlertExactly | gateway-go/internal/service/auth_service.go:126-141 | with clocks that do not step back it raises exactly what the full history calls for |
| AuthServices.FaithfulStep | gateway-go/internal/service/auth_service.go:81-98 | what the trackers keep stays the pruned history of the attempts |
| AuthServices.RegisteredCanLogIn | gateway-go/internal/service/auth_service.go:70-95 | after registration exactly the passwords that derive to the same key are accepted |
| AuthServices.CheckMeans | gateway-go/internal/service/auth_service.go:85-95 | an unknown email, a stored hash that does not parse and a password that derives to another key are denied, a crash takes stored parameters without rounds or threads, and exactly a password that derives to the stored key is let in |
| AuthServices.AuthService.constructor | gateway-go/internal/service/auth_service.go:41-55 | empty store and history, two trackers with their windows and thresholds |
| AuthServices.AuthService.AddUser | gateway-go/internal/service/auth_service.go:70-79 | a user is created unless the email is taken or hashing fails |
| AuthServices.AuthService.Register | gateway-go/internal/service/auth_service.go:70-79 | a registration succeeds exactly for a new email when a salt can be had, and is one step of the session history, which keeps the token families lineages |
| AuthServices.AuthService.IssueTokenPair | gateway-go/internal/service/auth_service.go:180-201 | a new unused token of the family, or none |
| AuthServices.AuthService.ExchangeToken | gateway-go/internal/service/auth_service.go:143-178 | tokens and answer are those of the rotation function; reuse is answered, and its event published, exactly for a used or revoked token |
| AuthServices.AuthService.RotateToken | gateway-go/internal/service/auth_service.go:143-178 | the store after it is the session history one step on |
| AuthServices.AuthService.Refresh | gateway-go/internal/service/auth_service.go:143-178 | answer and history are those of one refresh step, which keeps the token families lineages; reuse is reported exactly for a used or revoked token; trackers stay as they were |
| AuthServices.AuthService.CheckPassword | gateway-go/internal/service/auth_service.go:85-95 | unknown email, malformed hash and wrong password are one answer |
| AuthServices.AuthService.NoteBoth | gateway-go/internal/service/auth_service.go:126-141 | both trackers note the attempt; the alerts depend on what they then keep |
| AuthServices.AuthService.Note | gateway-go/internal/service/auth_service.go:126-141 | and exactly these alerts are published |
| AuthServices.AuthService.NoteLogin | gateway-go/internal/service/auth_service.go:119-121 | the last login changes, for this user only |
| AuthServices.AuthService.StartFamily | gateway-go/internal/service/auth_service.go:123 | a token of a new family, if one can be minted |
| AuthServices.AuthService.CheckAndAdmit | gateway-go/internal/service/auth_service.go:81-124 | for each result of the password check: answer, trackers, users, tokens and published events |
| AuthServices.AuthService.Login | gateway-go/internal/service/auth_service.go:81-124 | what is denied joins the attempts as a failure and publishes the alerts of that history, a crash leaves no attempt, and a right password is one login step of the session history, which keeps the token families lineages, publishes the travel alert if the last login was too far and notes the new one |
| Text.DecimalReadsBack | gateway-go/internal/auth/password.go:38-42 | a printed number reads back as itself |
| PasswordHash.Base64RoundTrip | gateway-go/internal/auth/password.go:40-41 | unpadded base64 (sections 3.2 and 4 of RFC 4648) decodes to what was encoded |
| PasswordHash.AlphabetIsStandard | gateway-go/internal/auth/password.go:40-41 | the alphabet is that of section 4 of RFC 4648 |
| PasswordHash.SextetsSpellBytes | gateway-go/internal/auth/password.go:40-41 | each three bytes are four six-bit values, most significant first |
| PasswordHash.ParamsRoundTrip | gateway-go/internal/auth/password.go:54-59 | printed parameters scan back to themselves if they fit their words |
| PasswordHash.ParamsScan | gateway-go/internal/auth/password.go:54-59 | parameters with blanks, leading zeros and anything behind the last number are scanned to these numbers |
| PasswordHash.ScannedParams | gateway-go/internal/auth/password.go:54-59 | and nothing else is scanned |
| PasswordHash.SplitJoin | gateway-go/internal/auth/password.go:49 | fields without the separator, joined by it, split into themselves |
| PasswordHash.JoinSplit | gateway-go/internal/auth/password.go:49 | and what a string splits into joins to it again |
| PasswordHash.StoredRoundTrip | gateway-go/internal/auth/password.go:38-68 | a stored string has exactly six fields and parses back to its parameters, salt and key |
| PasswordHash.ParsedFields | gateway-go/internal/auth/password.go:49-68 | a stored string parses exactly if it has six fields, the second says argon2id and the last three parse, whatever the first and third say |
| PasswordHash.VerifyAcceptsExactly | gateway-go/internal/auth/password.go:48-72 | verification uses the stored parameters and accepts exactly the passwords that derive to the stored key |
| PasswordHash.VerdictMeans | gateway-go/internal/auth/password.go:48-72 | for any stored string: an error, a panic of the key derivation, or the comparison of the derived key |
| PasswordHash.HashedPasswordVerifies | gateway-go/internal/auth/password.go:30-72 | a password verifies against another's hash iff both derive to the same key, so always against its own |
| PasswordHash.HashedPassword | gateway-go/internal/auth/password.go:19-44 | the string stored for a password, with its 64 MiB, one round, four threads and 32 bytes |

## Left out

- HTTP handlers, routing, WebSockets, Redis, Postgres, JWT contents and the user interface: plumbing around the modelled state.
- Floating-point rounding: amounts, tokens and scores are real numbers, and the square root is a parameter with its defining property.
- SHA-256, Argon2 and UUIDs: the hash and the key derivation are parameters, new ids are arguments that are assumed new.
- Emails, IP addresses, limiter keys, user ids, family ids and token hashes in the gateway are numbers, as they are only compared.
- Timestamps and JSON in audit entries are the texts that are hashed; printing and parsing an entry is taken to be the identity.
- Orchestrators.PipelineResult.constructor: does not model the copies of transaction, context, review and model mode that the result carries for display.
- Orchestrators.Emit: does not model the call of the event sink after the record, which only broadcasts the event.
- Orchestrators.CheckTrail: does not model the time of the check, `checked_at`.
- Orchestrators.RecordPolicy: does not model the time of the check, `checked_at`.
- Orchestrators.ApplyPaymentControl: does not model the constant policy version and scope and the time of the decision in the payment record.
- Orchestrators.Orchestrator.ProcessTransaction: security events that arrive at the awaits of a running transaction are not seen by its lookup (agents-python/app/orchestrator.py:276), as the bucket is the one at entry; the results of `Pipeline` and `PipelineRuns` hold for any security event the lookup may find.
- Restart of the audit service while transactions are in flight: reopening is treated for the log alone (`AuditChain.ReopenAfterRun`).
- Sessions.FamiliesAreLineages: claimed for service calls taken one at a time, because the store locks per operation and not per refresh.
- AuthServices.AuthService.Login: takes calls one at a time; the speed test between two logins is a parameter, as it needs trigonometry.
- PasswordHash.VerifyAcceptsExactly: does not model what the key derivation does when asked for an empty key; only zero rounds and zero threads panic in the model, and blanks in the parameter field are the ASCII ones.
- Pipeline.FinalAction: the band is the one that the risk engine derives from the score; without that assumption `Pipeline.ExecutionNeedsBacking` still holds.
- Exceptions of the risk engine, the agents and the event sink end a transaction without a payment; in the model it then makes no further move.
- The case.opened record carries context, review and model mode as well; the model keeps the transaction of it.
- Texts of labels, reasons, summaries and narratives: a reason is the name of its sentence.
- The anomaly forest and live model answers: any verdict of the right shape.
- The impossible-travel rule is a given truth value in the score.
- The Postgres stores, the case stores, the dashboard's copies of rules and pipeline, and the recent-entries lists: not part of this model.
