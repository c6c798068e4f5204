# Verified core of the smoking-detection service

This project models the stateful cores of the service in Dafny and proves what they guarantee over
every input and every run.

* **Public audio.** `AudioLedger` gives the four methods of the SQLite repository that touch the audio
  tables, each as one atomic step on the tables; `AudioRepository` performs them in place and runs the
  request service on top. `AudioProtocol` interleaves any number of requests with controller answers,
  controller exceptions, crashes at any point, operator reconciliations and suppression records.
  `AudioAnswers` says which answer every repository call gets after any such run, `AudioSafety`,
  `AudioSpacing` and `AudioCaps` hold the guarantees over all such runs, `AudioAssumptions` the runs that show why two of them need their assumptions; `AudioPolicy` compares
  the policy's limits with the reservation's own.
* **Idempotent evaluations.** `Evaluations` gives claim, commit and failure report; `EvaluationProtocol`
  interleaves them with reclaims, delayed owners and crashes under arbitrary clock readings;
  `EvaluationLeases` says how long a claim protects its owner and what frees a key; `EvaluationRoute` is
  the HTTP route.
* **Track cascade.** `Observations`, `Cycles`, `Tracks`, `Evidence` and `Engine` are the mutable classes
  with their specification functions; `TrackHistory` and `CycleHistory` relate the incremental track and
  its detector to declarative functions of the messages received, `EvidenceReport` reads the whole
  decision off the observations.
* **Offline evaluation.** `Replay` and `ReplayIds` (sampling clock), `EventSessions`, `SessionGaps`, `SessionRepeat`
  (sessionisation), `Ablation` (VLM ablation counts), `Wilson` and `WilsonScore`
  (confidence intervals).
* **Fault handling.** `Router` (circuit breaker) and `Reconnect` (camera backoff).

Code that updates fields is a class whose methods are tied by `ensures` to a function on a snapshot of
its state (`Snapshot()`); runs are lists of steps folded over that function, so a lemma about runs is a
lemma about the methods.

Findings, where the code and its comments or neighbouring code say different things (the model follows
the code):

* The reservation and the policy read a cap of zero differently: no cap against never. On an empty table
  the one grants and the other refuses (`AudioPolicy.EmptyTable`); `AudioPolicy.AgreeWithZeroCapsIff` and
  `AudioPolicy.ReservationIsStricterIff` say exactly when they agree and when the policy allows whatever
  the reservation grants.
* The route's history leaves out rows acknowledged as duplicate that the reservation counts.
  `AudioPolicy.DuplicateSplits` shows the two disagreeing over any such row, and
  `AudioPolicy.AgreeOnTableIff` that nothing else makes them disagree where no cap is zero.
* Retrying a failed decision overwrites the time of its row. The caps therefore bound rows, and bound
  decisions that were never rejected, but bound controller calls only for some settings:
  `AudioCaps.CallsCappedIff` says exactly which for the hourly cap, `AudioCaps.DailyCallsCappedIff` for
  the daily one, and `AudioCaps.RetriesPileUp` gives the runs that exceed the cap for all others.
* The replay sampler drops a repeated frame id even where the later frame was the better one to keep
  (`ReplayIds.LaterRepeatIsBetter`). Among all frames its sample is therefore the largest possible,
  whatever the times, exactly when no id repeats or there is only one (`ReplayIds.BestForIdsIff`).
* Sessionisation carries `previous_end` across a change of camera or track, so a real gap need not split
  (`SessionGaps.RealGapNotSplit`); `SessionGaps.SplitsIff` is the exact condition.
* An odd maximum reconnect delay can be reached one doubling early, one millisecond above the nominal
  delay (`Reconnect.DelayRoundedUp`); `Reconnect.DelayIsNominal` says exactly when.
* An `Idempotency-Key` header that is present but empty claims nothing and then fails the fence of the
  commit: the route answers 409 and stores nothing (`EvaluationRoute.CreateEvaluation`).

Each repository method is one atomic step, as the lock around the single connection makes it.
`put_audio_receipt` opens no immediate transaction, so for it this assumes one process.

## Model

| member | source | states |
|---|---|---|
| `AudioRepository.Repository.CountedTimes` | src/tp_smoke_detect/adapters/persistence/sqlite.py:938-958 | the loop lists the counted rows of the zone: for every cutoff and every day its counts equal the number of such receipts |
| `AudioRepository.Repository.Append` | src/tp_smoke_detect/adapters/persistence/sqlite.py:1280-1295 | adds one attempt numbered one above the highest on file and touches nothing else |
| `AudioRepository.Repository.Reserve` | src/tp_smoke_detect/adapters/persistence/sqlite.py:877-1022 | tables and answer are those of the atomic step: standing statuses first, then hourly cap, daily cap, cooldown, then a pending row; only a new row is logged |
| `AudioRepository.Repository.Finalize` | src/tp_smoke_detect/adapters/persistence/sqlite.py:1137-1218 | compare-and-set on token and in-doubt status: the answer replaces the row and is logged, every other case leaves the tables alone |
| `AudioRepository.Repository.Reconcile` | src/tp_smoke_detect/adapters/persistence/sqlite.py:1025-1134 | only an expired pending row becomes uncertain, with its token, zone and time kept and an attempt logged |
| `AudioRepository.Repository.Put` | src/tp_smoke_detect/adapters/persistence/sqlite.py:1221-1296 | every call is logged; the row is replaced only where no counted status would be lost |
| `AudioRepository.RequestAudio` | src/tp_smoke_detect/application/request_audio.py:35-161 | an undisturbed request leaves the tables of its protocol script, answers accordingly, calls the controller exactly when its reservation was granted, and leaves in the log the answer under its token, failed for an exception, a duplicate for a repeat, or no playback |
| `AudioRepository.GrantedScript` | src/tp_smoke_detect/application/request_audio.py:107-161 | reserve, send, answer or raise, finalize: the four protocol steps compose to one reservation followed by one finalization and exactly one call |
| `AudioRepository.OtherScripts` | src/tp_smoke_detect/application/request_audio.py:77-101 | a refused, repeated or unapproved request records its attempt and makes no call |
| `AudioProtocol.NumberedMax` | src/tp_smoke_detect/adapters/persistence/sqlite.py:1227-1232 | in a log numbered 1..n the highest number is n, so the next one is n + 1 and never collides |
| `AudioProtocol.FinalizeTouches` | src/tp_smoke_detect/adapters/persistence/sqlite.py:1153-1213 | finalizing a row in doubt with its own token lands, files an answer not on file before, and lets the decision be called again only if that answer is failed or rejected |
| `AudioProtocol.ReconcileTouches` | src/tp_smoke_detect/adapters/persistence/sqlite.py:1053-1129 | reconciliation changes the status of one row, keeps its token and keeps it blocking |
| `AudioProtocol.PutTouches` | src/tp_smoke_detect/adapters/persistence/sqlite.py:1248-1295 | recording a suppression or a repeat never changes a counted row, makes no row counted, and lifts no fence |
| `AudioProtocol.LoneRequest` | src/tp_smoke_detect/application/request_audio.py:107-161 | undisturbed, the four steps of a granted request amount to one reservation, one finalization with the answer or with failed, and one call |
| `AudioProtocol.StepKeeps` | src/tp_smoke_detect/application/request_audio.py:66-161 | every step of every participant keeps the invariant: numbered logs, witnessed rows, owners holding their rows, calls on file as retryable or still blocking |
| `AudioProtocol.Reachable` | src/tp_smoke_detect/application/request_audio.py:66-161 | that invariant holds after every run |
| `AudioAnswers.FateFits` | src/tp_smoke_detect/adapters/persistence/sqlite.py:985-999 | after any run the row of a receipt is what its grants, reconciliations and answers make it: pending from the grant to the end of the lease, uncertain once reconciled, settled as the controller answered |
| `AudioAnswers.LimitsAre` | src/tp_smoke_detect/adapters/persistence/sqlite.py:942-973 | which limit refuses a reservation, hourly cap before daily cap before cooldown, by counting receipts of the six statuses in the last hour, since midnight UTC, in the cooldown |
| `AudioAnswers.ReservationAnswers` | src/tp_smoke_detect/adapters/persistence/sqlite.py:915-973 | after any run and under any limits a reservation answers existing once accepted or duplicate, zone cooldown while held, reservation expired once in doubt or expired, and otherwise, never granted, failed or rejected, as the limits alone decide; only a grant writes |
| `AudioAnswers.GrantWrites` | src/tp_smoke_detect/adapters/persistence/sqlite.py:899-1017 | a grant writes a pending row under its token that expires max(ttl, 1) seconds after the request, and logs attempt one for a new receipt, nothing for a retry |
| `AudioAnswers.AcceptedForGood` | src/tp_smoke_detect/adapters/persistence/sqlite.py:919-925 | once the controller accepted a decision or called it a duplicate, every later reservation, at any time and under any limits, answers existing and changes nothing |
| `AudioAnswers.ReconciliationAnswers` | src/tp_smoke_detect/adapters/persistence/sqlite.py:1050-1130 | after any run reconciling takes effect if and only if the receipt is held and max(ttl, 1) seconds have passed since its request; every other state gets its own answer and no change |
| `AudioAnswers.FinalizationAnswers` | src/tp_smoke_detect/adapters/persistence/sqlite.py:1150-1214 | after any run finalizing takes effect if and only if the receipt is held or in doubt under that token; missing, mismatch and already finalized are told apart and change nothing |
| `AudioAnswers.RecordingAnswers` | src/tp_smoke_detect/adapters/persistence/sqlite.py:1226-1295 | after any run a recorded attempt is logged exactly once and writes the row if and only if the receipt was never granted or was last rejected |
| `AudioSafety.RunLater` | src/tp_smoke_detect/adapters/persistence/sqlite.py:1251-1265 | over any continuation of any run logs only grow, terminal rows are frozen, and no call starts for them |
| `AudioSafety.AttemptHistory` | src/tp_smoke_detect/adapters/persistence/sqlite.py:985-1017 | every log is append-only and numbered exactly 1..n, a receipt exists exactly when it has attempts, every row that is not pending repeats a logged attempt, accepted, duplicate and expired rows never change and are never called again |
| `AudioSafety.CallStartsAfterFailures` | src/tp_smoke_detect/application/request_audio.py:66-161 | when a call starts, every earlier call of that decision is on file as failed or rejected under its own token |
| `AudioSafety.OnlyLatestCallMayStand` | src/tp_smoke_detect/adapters/persistence/sqlite.py:915-937 | in every reachable state all calls of a decision but the latest are on file as failed or rejected |
| `AudioSafety.OwnerAlwaysLands` | src/tp_smoke_detect/adapters/persistence/sqlite.py:1153-1197 | whatever others do meanwhile, a live owner still holds its row in doubt, its finalization lands with any status, and every other token is refused without effect |
| `AudioSafety.CrashedOwnerIsNeverRepeated` | src/tp_smoke_detect/adapters/persistence/sqlite.py:912-937 | once an owner is gone its row stays in doubt for ever and its decision is never called again |
| `AudioSafety.StepRows` | src/tp_smoke_detect/adapters/persistence/sqlite.py:938-999 | only a granted request makes a row count anew, and it has passed every limit |
| `AudioSafety.RowLimitsHold` | src/tp_smoke_detect/adapters/persistence/sqlite.py:906-973 | in every reachable state and under any clock order: at most hourly cap counted rows of a zone in every closed hour of the time line, at most daily cap per UTC date, and any two counted rows of a zone strictly more than the cooldown apart |
| `AudioSafety.RefusesOnlyWhenNeeded` | src/tp_smoke_detect/adapters/persistence/sqlite.py:959-973 | for a new receipt not older than its zone's rows the checks pass if and only if the table with the new row would still respect every limit |
| `AudioSpacing.EnforcedRule` | src/tp_smoke_detect/adapters/persistence/sqlite.py:959-973 | a reservation that passes lies after every counted row of its zone by the cooldown, by the hour where the hourly cap is one, on a later day where the daily cap is one |
| `AudioSpacing.GrantsSpaced` | src/tp_smoke_detect/adapters/persistence/sqlite.py:938-999 | with request times that never go back and one zone per decision, reservations of a zone not on file as rejected keep that distance from one another although retries overwrite row times |
| `AudioSpacing.CallsSpaced` | src/tp_smoke_detect/adapters/persistence/sqlite.py:907-999 | the same for controller calls: any two of a zone that were not rejected are strictly more than the cooldown apart |
| `AudioCaps.DecisionsAreCapped` | src/tp_smoke_detect/adapters/persistence/sqlite.py:938-999 | under the same two assumptions, the never-rejected decisions of a zone that were called in a closed hour, or on a UTC day, number at most the hourly or daily cap, however often each is retried |
| `AudioCaps.RetriesPileUp` | src/tp_smoke_detect/adapters/persistence/sqlite.py:993-999 | one failing decision, retried as soon as the limits allow, makes n + 1 calls, none rejected, in every window that lasts n such periods |
| `AudioCaps.CallsCappedIff` | src/tp_smoke_detect/adapters/persistence/sqlite.py:959-999 | the hourly cap bounds the calls of every such run if and only if a cap is one or the cooldown is long enough that more calls than the cap do not fit into an hour |
| `AudioCaps.DailyCallsCappedIff` | src/tp_smoke_detect/adapters/persistence/sqlite.py:959-999 | the daily cap bounds the calls of every such run on every UTC day if and only if it is one, or the cooldown, or the hour where the hourly cap is one, is long enough that more calls than the cap do not fit into a day |
| `AudioCaps.DailyCapExceeded` | src/tp_smoke_detect/adapters/persistence/sqlite.py:993-999 | three calls on one day against a daily cap of two |
| `AudioAssumptions.ClockMustNotGoBack` | src/tp_smoke_detect/adapters/persistence/sqlite.py:938-999 | with one zone per decision but a request time that goes back, two calls of a zone, neither rejected, come closer than the cooldown |
| `AudioAssumptions.ZoneMustNotMove` | src/tp_smoke_detect/adapters/persistence/sqlite.py:993-999 | with request times in order but a decision retried in another zone, so they do too |
| `AudioPolicy.QuietHoursAreAnArc` | src/tp_smoke_detect/domain/policy/audio.py:202-210 | quiet hours are the half-open arc of the day from start to end, across midnight too, and the whole day when they coincide |
| `AudioPolicy.ReservationIsStricter` | src/tp_smoke_detect/api/app.py:456-480 | for positive caps, whatever the reservation would grant the policy's limits allow |
| `AudioPolicy.ReservationIsStricterIff` | src/tp_smoke_detect/domain/policy/audio.py:173-178 | the policy allows whatever the reservation would grant, on every table, if and only if no cap is zero |
| `AudioPolicy.EmptyTable` | src/tp_smoke_detect/adapters/persistence/sqlite.py:959-973 | on an empty table the reservation passes every limit, while the policy refuses if and only if a cap is zero |
| `AudioPolicy.SameLimitWithoutDuplicates` | src/tp_smoke_detect/domain/policy/audio.py:173-200 | for positive caps, policy and reservation give the same limit, reason included, when the zone holds no acknowledged duplicate |
| `AudioPolicy.DuplicateSplits` | src/tp_smoke_detect/api/app.py:457-476 | at the time of any acknowledged duplicate, an hourly cap that the duplicate just fills is full for the reservation and not for the policy |
| `AudioPolicy.AgreeOnTableIff` | src/tp_smoke_detect/api/app.py:456-480 | on a given table and zone the two agree under all positive caps and at all times if and only if no row of the zone is acknowledged as duplicate |
| `AudioPolicy.AgreeWithZeroCapsIff` | src/tp_smoke_detect/domain/policy/audio.py:173-178 | without duplicates and whatever the caps, the two agree at a given time if and only if no cap is zero, or the daily cap alone is and the hourly cap already refuses |
| `AudioPolicy.ZeroCapNeverAnnounces` | src/tp_smoke_detect/domain/policy/audio.py:173-176 | a cap of zero suppresses every announcement, whatever the history, while a reservation with every limit zero refuses nobody on any table |
| `AudioPolicy.AnnouncesIff` | src/tp_smoke_detect/domain/policy/audio.py:147-194 | some request is announced if and only if the mode is automatic, audio is not muted, no cap is zero and quiet hours are not the whole day |
| `AudioPolicy.PolicyAnswers` | src/tp_smoke_detect/domain/policy/audio.py:147-210 | for each request which suppression it gets, in the order mute, suspension, muted audio, ineligible, shadow, other mode, quiet hours, hourly cap, daily cap, cooldown, and that it is announced if and only if none applies |
| `Evaluations.EvaluationRepository.ClaimEvaluation` | src/tp_smoke_detect/adapters/persistence/sqlite.py:733-829 | rows, unique index and answer are those of the atomic claim, and rows and index agree afterwards |
| `Evaluations.EvaluationRepository.PutDecisionAndEvaluation` | src/tp_smoke_detect/adapters/persistence/sqlite.py:651-679 | decision and completed evaluation are written together or not at all, and only behind the fence of a running claim under the same key |
| `Evaluations.EvaluationRepository.FailEvaluation` | src/tp_smoke_detect/adapters/persistence/sqlite.py:682-705 | marks the row of that id failed, and does nothing when it is gone |
| `EvaluationProtocol.StepKeeps` | src/tp_smoke_detect/api/app.py:262-331 | every step keeps table, owners and commits consistent and undoes nothing that was committed |
| `EvaluationProtocol.Reachable` | src/tp_smoke_detect/api/app.py:262-331 | so it is after every run, whatever the clocks read |
| `EvaluationProtocol.OneDecisionPerKey` | src/tp_smoke_detect/adapters/persistence/sqlite.py:651-679 | at most one decision is ever committed under an idempotency key |
| `EvaluationProtocol.DecisionsAreCommits` | src/tp_smoke_detect/adapters/persistence/sqlite.py:654-676 | the decisions table holds exactly the committed decisions, each named by its own completed evaluation |
| `EvaluationProtocol.HistoryStands` | src/tp_smoke_detect/adapters/persistence/sqlite.py:773-804 | over any continuation a completed evaluation is never deleted or reopened, a key keeps its fingerprint, and a deleted id never returns |
| `EvaluationProtocol.ReclaimedOwnerIsFenced` | src/tp_smoke_detect/adapters/persistence/sqlite.py:664-672 | after a reclaim, and any further steps, the former owner's commit or failure report leaves tables and commits unchanged |
| `EvaluationProtocol.LiveOwnerCommits` | src/tp_smoke_detect/adapters/persistence/sqlite.py:661-676 | an owner whose row is still there commits its decision, however late |
| `EvaluationProtocol.ClaimIsWonIff` | src/tp_smoke_detect/adapters/persistence/sqlite.py:768-829 | in every reachable state a claim is won if and only if the key is free or held under the same fingerprint by an evaluation that failed or runs past its lease, or 300 seconds past its update without one; it conflicts if and only if the fingerprint differs, is otherwise lost to the holder, and changes nothing unless won |
| `EvaluationLeases.LeaseDecides` | src/tp_smoke_detect/adapters/persistence/sqlite.py:746-796 | over any run, while the evaluation of a won claim runs, another claim of the key and fingerprint is lost to it before 300 seconds have passed since the first claim and won from then on |
| `EvaluationLeases.FailureFreesKey` | src/tp_smoke_detect/adapters/persistence/sqlite.py:797-804 | after a reported failure a claim with the same fingerprint is won, whatever the clocks read |
| `EvaluationLeases.CommittedKeyAnswers` | src/tp_smoke_detect/adapters/persistence/sqlite.py:773-829 | once a decision is committed under a key every later claim is answered by that evaluation, or conflicts |
| `EvaluationRoute.CreateEvaluation` | src/tp_smoke_detect/api/app.py:255-346 | the route leaves the table its protocol steps leave, and every answer is fixed: key reused if and only if the claim conflicts, the existing evaluation if and only if the claim is lost to it, created or server error after a won claim, 409 for an empty key; created if and only if its decision is now stored under its own completed evaluation |
| `Cycles.CycleDetector.ObserveOne` | src/tp_smoke_detect/domain/cascade/cycle.py:53-89 | detector state and returned cycle are those of one observation step |
| `Cycles.DetectedCyclesAreReal` | src/tp_smoke_detect/domain/cascade/cycle.py:53-89 | on any input every cycle stands on a real mouth approach and a later retreat from the mouth, its interval lies within the bounds, and cycles do not overlap |
| `Cycles.OpenApproach` | src/tp_smoke_detect/domain/cascade/cycle.py:63-74 | on distinct messages in order the detector holds exactly the first approach since the last retreat |
| `Cycles.CycleReportedIff` | src/tp_smoke_detect/domain/cascade/cycle.py:71-89 | on such messages a cycle is reported exactly when a retreat from the mouth meets an open approach within the bounds, and it carries those two times |
| `CycleHistory.DetectorFilters` | src/tp_smoke_detect/domain/cascade/cycle.py:53-62 | on any input the detector finds the cycles, and holds the approach, that it finds and holds on the first message of each retry key that is not older than an earlier one |
| `Observations.SameKeyIff` | src/tp_smoke_detect/domain/models/observations.py:66-89 | two messages share a retry key if and only if they carry the same event id, or carry none and agree in every field but the model revisions |
| `Tracks.TrackState.MoveTo` | src/tp_smoke_detect/domain/cascade/track.py:51-56 | stage and transitions move together, or not at all |
| `Tracks.TrackState.MoveOn` | src/tp_smoke_detect/domain/cascade/track.py:101-116 | the five gates in order are the specified cascade of stages |
| `Tracks.TrackState.OpenWindow` | src/tp_smoke_detect/domain/cascade/track.py:75-95 | a gap empties window and detector and restarts the stage, and nothing else does |
| `Tracks.TrackState.IngestOne` | src/tp_smoke_detect/domain/cascade/track.py:58-117 | the whole track and the reasons are those of one ingestion step |
| `TrackHistory.SeenAndClock` | src/tp_smoke_detect/domain/cascade/track.py:67-73 | the seen set is the retry keys of all messages and the clock is the latest first occurrence |
| `TrackHistory.ReportedReasons` | src/tp_smoke_detect/domain/cascade/track.py:67-95 | duplicate, out of order and track gap are reported exactly for re-deliveries, for first occurrences older than an earlier one, and for accepted messages more than the tolerance after the last accepted one; nothing otherwise |
| `TrackHistory.CompletedBecause` | src/tp_smoke_detect/domain/cascade/track.py:101-106 | a track is completed at the observation that was not good enough, with bad quality named before bad pose |
| `TrackHistory.WindowIsLongestSuffix` | src/tp_smoke_detect/domain/cascade/track.py:67-98 | after any messages the window is the longest suffix without a gap above tolerance of the accepted ones, and first and last seen are its ends |
| `TrackHistory.WindowIsClean` | src/tp_smoke_detect/domain/cascade/track.py:67-99 | the window holds distinct messages in time order |
| `TrackHistory.IncrementalIsBatch` | src/tp_smoke_detect/domain/cascade/track.py:76-117 | the live detector equals a fresh one run over the window, the stage is the declared function of the window, and the transitions are one connected path that ends there, each with its reason |
| `TrackHistory.RedeliveriesDoNotMatter` | src/tp_smoke_detect/domain/models/observations.py:66-89 | striking out every re-delivery leaves the track exactly as it was |
| `TrackHistory.InsertingRedelivery` | src/tp_smoke_detect/domain/cascade/track.py:67-70 | inserting a re-delivery anywhere after its original changes nothing, then or later |
| `TrackHistory.PersistenceBounds` | src/tp_smoke_detect/domain/cascade/track.py:46-49 | with a non-empty window the persistence is the whole milliseconds from its first to its last message, and cycle count times minimum interval <= persistence <= (observations - 1) times tolerance, through the floor divisions |
| `Evidence.CanonicalChannels` | src/tp_smoke_detect/domain/policy/evidence.py:59-79 | the nested loops compute the family scores, whatever order the channels come in |
| `Evidence.PositiveIffSupported` | src/tp_smoke_detect/domain/policy/evidence.py:62-79 | a family scores above zero exactly when some observation speaks for it, and never above one |
| `Evidence.ScoreIsLargestContribution` | src/tp_smoke_detect/domain/policy/evidence.py:71-75 | the score of a family is the largest contribution of any observation |
| `Evidence.VetoReasonIff` | src/tp_smoke_detect/domain/policy/evidence.py:82-91 | there is a veto reason exactly when some observation carries a recognised veto, a nose contact or a vetoed object |
| `Evidence.PositiveCount` | src/tp_smoke_detect/domain/policy/evidence.py:76-79 | the positive signals number the families that are spoken for |
| `Evidence.VerifiedIff` | src/tp_smoke_detect/domain/policy/evidence.py:93-194 | the outcome is verified, equivalently audio-eligible, if and only if no veto, no ineligible observation, no blocking VLM status, enough cycles, enough persistence and enough families |
| `Evidence.UnclearIff` | src/tp_smoke_detect/domain/policy/evidence.py:135-156 | the outcome is unclear if and only if some VLM status is timeout, malformed or unclear on otherwise untainted observations, and the reason names the gravest present |
| `Evidence.AliasIff` | src/tp_smoke_detect/domain/policy/evidence.py:27-37 | a producer name counts for a family if and only if it is one of that family's names |
| `EvidenceReport.FirstVetoNamed` | src/tp_smoke_detect/domain/policy/evidence.py:84-86 | of the recognised veto names of an observation the first in the order of strings names the reason |
| `EvidenceReport.VetoReasonNamed` | src/tp_smoke_detect/domain/policy/evidence.py:82-91 | the first vetoed observation names the reason: its veto names before a hand at the nose before its object |
| `EvidenceReport.DecisionReasons` | src/tp_smoke_detect/domain/policy/evidence.py:93-194 | on every input the first objection decides, in the order veto, quality, pose, VLM, persistence, families, each with its own reasons; verified and audio-eligible if and only if there is none |
| `EvidenceReport.EvidenceListed` | src/tp_smoke_detect/domain/policy/evidence.py:59-79 | the decision lists, in the order of names, exactly the families some observation mentions, with their scores, positive if and only if supported |
| `Engine.CascadeEngine.Ingest` | src/tp_smoke_detect/domain/cascade/engine.py:44-61 | track and reasons advance by one ingestion and the decision is the policy's on the new window |
| `Engine.EngineVerifiedIff` | src/tp_smoke_detect/domain/cascade/engine.py:44-61 | over whole message histories the engine verifies if and only if the window is convincing with the cycles a fresh detector finds in it, each with a real approach and retreat |
| `Engine.VerifiedStage` | src/tp_smoke_detect/domain/cascade/track.py:101-116 | a verified track stands at object or review |
| `Engine.SpoiledUntilGap` | src/tp_smoke_detect/domain/policy/evidence.py:82-91 | after a vetoed or ineligible observation nothing is verified until a track gap |
| `Engine.DecisionsIgnoreRedeliveries` | src/tp_smoke_detect/domain/cascade/engine.py:44-61 | re-deliveries change no decision |
| `Replay.SampleOrdered` | src/tp_smoke_detect/application/replay.py:221-241 | the loop files every frame and samples the greedy choice among frames of distinct id |
| `Replay.StaysAhead` | src/tp_smoke_detect/application/replay.py:233-241 | the k-th sampled frame is never later than the k-th of any other spaced choice |
| `Replay.GreedyIsLargest` | src/tp_smoke_detect/application/replay.py:233-241 | no spaced choice is larger than the sampled one |
| `Replay.Sample` | src/tp_smoke_detect/application/replay.py:221-241 | every frame lands exactly once in duplicate, skipped or sampled; any two sampled frames are a period less the slack apart; no spaced choice among the first frames of each id is larger |
| `ReplayIds.LaterRepeatIsBetter` | src/tp_smoke_detect/application/replay.py:226-241 | an input where a spaced choice of distinct ids among all frames is larger than the sample |
| `ReplayIds.BestForIdsIff` | src/tp_smoke_detect/application/replay.py:226-241 | whatever times and period, no spaced choice of distinct ids among all frames is larger than the sample, if and only if no id repeats or there is only one id |
| `EventSessions.AggregateOrdered` | ml/evaluation/metrics.py:119-133 | the loop over sorted events yields the merged sessions |
| `EventSessions.AggregateEvents` | ml/evaluation/metrics.py:104-133 | a negative gap is refused, otherwise the merged sessions of the sorted input are returned |
| `EventSessions.EventOrder` | ml/evaluation/metrics.py:116-118 | the sort key is a total preorder |
| `EventSessions.SortedInput` | ml/evaluation/metrics.py:116-118 | the sorted events are the same events by camera, track, start and id, and those alike in all four keep their order |
| `Sorting.LexLeIff` | ml/evaluation/metrics.py:116-118 | the order of strings: a prefix first, else by the first differing character |
| `Sorting.SortIsStable` | ml/evaluation/metrics.py:116-118 | elements that rank equal keep the order they came in |
| `EventSessions.SessionsPartition` | ml/evaluation/metrics.py:123-133 | sessions are the sorted events cut into contiguous runs of one camera and track |
| `EventSessions.MergeIsEnvelope` | ml/evaluation/metrics.py:136-151 | a session has identity and truth of its first event, spans its events in time and latency, takes score and label of the first of its best events, triggers if and only if some event does and is eligible if and only if all are |
| `SessionGaps.SplitsIff` | ml/evaluation/metrics.py:125-130 | between events of one key a split happens if and only if every earlier event of any key ended more than the gap before |
| `SessionGaps.SplitOnlyAcrossRealGap` | ml/evaluation/metrics.py:122-130 | successive sessions of one key are separated by a real gap, for any input |
| `SessionGaps.SingleKeySessions` | ml/evaluation/metrics.py:104-133 | for a single key the sessions are exactly the maximal gap-connected runs |
| `SessionGaps.RealGapNotSplit` | ml/evaluation/metrics.py:122-130 | with two keys a real gap can go unsplit |
| `SessionRepeat.AggregateTwice` | ml/evaluation/metrics.py:104-151 | aggregating an aggregate changes nothing, for any input and gap |
| `Ablation.Projection` | ml/evaluation/ablation.py:342-368 | every sealed row is projected, in order and changed in label and trigger only; it triggers if and only if the baseline and the VLM gate are positive |
| `Ablation.TallyCounts` | ml/evaluation/metrics.py:189-193 | each count of the report is the number of eligible rows of its kind |
| `Ablation.TallyWeaker` | ml/evaluation/metrics.py:189-193 | rows that trigger no more give no more true and no more false positives and the same number of smoking rows |
| `Ablation.AggregateWeaker` | ml/evaluation/metrics.py:104-151 | sessionisation preserves that relation session by session |
| `Ablation.StricterProfileGainsNothing` | ml/evaluation/ablation.py:341-369 | turning the VLM on or raising the threshold keeps the sessions, adds no triggered one, raises neither true nor false positives, and keeps TP + FN |
| `Wilson.WilsonBrackets` | ml/evaluation/ablation.py:89-97 | before clamping, 0 <= lower <= estimate <= upper <= 1 |
| `Wilson.IntervalIsSound` | ml/evaluation/ablation.py:69-97 | for all counts and supported levels the reported interval brackets the estimate inside [0, 1] and neither clamp acts |
| `Wilson.HarmonicMonotone` | ml/evaluation/ablation.py:263-272 | the harmonic mean grows with both arguments |
| `Wilson.F1IsBracketed` | ml/evaluation/ablation.py:237-274 | the F1 endpoints bracket the reported F1 |
| `WilsonScore.ReportedIsScoreTest` | ml/evaluation/ablation.py:89-97 | for all counts and supported levels a proportion lies in the reported interval if and only if it is within z of its own standard errors from the estimate |
| `WilsonScore.LevelsNest` | ml/evaluation/ablation.py:81-97 | the interval at 90% lies within that at 95%, and that within the one at 99% |
| `WilsonScore.LevelsAscend` | ml/evaluation/ablation.py:81-88 | the three supported levels have the two-sided normal quantiles to four places |
| `WilsonScore.NoInterval` | ml/evaluation/ablation.py:72-88 | which counts and levels are refused and which get no interval |
| `WilsonScore.F1OfCounts` | ml/evaluation/metrics.py:194-200 | the reported F1 is 2 TP / (2 TP + FP + FN) |
| `Router.ModelRouter.InferRole` | src/tp_smoke_detect/application/model_router.py:72-134 | one role's circuit takes one step, all others stay; the provider is called exactly when its circuit does not refuse |
| `Router.RolesAreIsolated` | src/tp_smoke_detect/application/model_router.py:82-121 | over any run the circuit of a role is the one its own requests alone would have left |
| `Router.RunAgrees` | src/tp_smoke_detect/application/model_router.py:84-134 | with a monotonic clock each circuit agrees with the failures of its role told by the requests alone; half-open, it has waited out its recovery time |
| `Router.BreakerHolds` | src/tp_smoke_detect/application/model_router.py:72-134 | with a monotonic clock a role is closed exactly while its failures since the last success are below the threshold; later failing calls are a recovery time apart, so f failures span at least (f - threshold) recovery times |
| `Router.NextAnswer` | src/tp_smoke_detect/application/model_router.py:72-134 | after any such run a request is answered without a call if and only if enough failures stand and the last is less than the recovery time ago; afterwards the provider is tried again, success closes, failure opens from now on; exceptions and wrong revisions are failures of their own kind |
| `Reconnect.ReconnectDelay` | native/deepstream/src/media_worker.cpp:105-113 | the loop computes its recursive specification and no intermediate delay exceeds the maximum |
| `Reconnect.DoubledIsClosed` | native/deepstream/src/media_worker.cpp:108-112 | from any delay the loop with its test against half the maximum equals the capped doubling, plus one exactly for an odd maximum one above it |
| `Reconnect.DelayRoundedUp` | native/deepstream/src/media_worker.cpp:109-109 | from one millisecond with a maximum of three the second attempt waits three, not two |
| `Reconnect.CapReached` | native/deepstream/src/media_worker.cpp:109-109 | once a doubling reaches half the maximum every later delay is the maximum |
| `Reconnect.DelayIsNominal` | native/deepstream/src/media_worker.cpp:105-113 | the delay is min(initial * 2^(n-1), max), plus one millisecond if and only if the maximum is odd and one above that doubling |
| `Reconnect.DelayGrows` | native/deepstream/src/media_worker.cpp:105-113 | the delay never shrinks with more attempts and never exceeds the maximum |

## Left out

- Payload columns, outcome and reason labels, camera and command ids of the audio tables: no guarantee depends on them.
- `delete_expired_metadata` and retention: they delete history by design, and the protocol guarantees speak about runs without them.
- Database errors inside a transaction: a rollback leaves the tables as they were, which the protocols cover as a crash before the step.
- Several processes writing through `put_audio_receipt`: it relies on the in-process lock, so its steps are atomic here by assumption.
- Datetime parsing and time zones: times are whole microseconds, days are UTC days.
- UUIDs and SHA-256: tokens and ids are fresh numbers, and the receipt id is a function of the decision id.
- AudioRepository.RequestAudio: runs one request against a repository nobody else uses; interleavings are the subject of the protocol modules.
- EvaluationRoute.CreateEvaluation: takes its two clock readings and the outcome of building the decision as parameters; the compatibility path for repositories without atomic methods is not modelled.
- Configuration changes during a run: the limits of a protocol run are fixed.
- Floating point: scores, clocks of the router, sampling periods and intervals are exact reals, and the square root of the interval is any number satisfying its defining equation.
- Wilson.F1IsBracketed: when there is no true positive the report gives no F1; the lemma then brackets zero.
- Building candidates from sampled frames, manifest loading and publishing in the replay worker: file and network effects.
- Calibration bins, per-class rates, the confusion matrix and `calibrate_threshold`: reports built from the same counts.
- Stage and model revisions in cascade decisions and camera or track ids of a track: carried along unchanged.
- The bounded queues of the media worker and of the candidate publisher, and 64-bit widths in native code.
- HTTP adapters, inference adapters, API validation, the DeepStream pipeline, backup and registry scripts, observability and settings.
