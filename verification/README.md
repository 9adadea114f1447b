# CourseFuzz verification

A Dafny 4.11 model of the parts of CourseFuzz whose correctness spans many functions: the assessment
engine over its restricted language, the run lifecycle with its approval tokens, the GitHub
destination, candidate generation, and the counting and storage cores around them. `dafny verify
dfyconfig.toml` checks everything. Nothing of the original program was executed.

## What is modelled

**The engine.** `RestrictedLanguage` is the admitted Python subset as a syntax tree with an interpreter
(floor remainder, chained comparison, value-returning `and`/`or`, `True == 1`: sections 6.7, 6.10 and
6.11 of the Python 3.12 Language Reference) and the suite loop over it; `LanguageLaws` states what the
interpreter computes, construct by construct, without its own functions. `Sandbox` runs suites; which
executions are lost and which batches start too late is arbitrary. `Oracle`, `Selection` and `Engine`
follow `analyze` through both execution waves to the projected metrics.

**The run lifecycle.** `RunTables` holds the tables, one repository call per atomic operation.
`RunProtocol` makes every service call a thread of such steps that carries its own, possibly stale,
copy of the run; any interleaving, exception and crash is an event. Approval tokens are fresh numbers
and hashes are injective constructors. `RunInvariant` proves the invariant step by step and
`RunTheorems` what follows for tokens, actions and stored runs. Measurements and CI readings are recorded
as facts when they are answered; `RunOrigins` traces every fact to the step that got it, every token to the
call that named its hash, and every change of a row to a thread of its owner. `RunService` has the service
methods themselves, each with the rows it leaves behind and proved to do what its thread does when left
alone, and the recovery queue.
`Destinations` is the coordinator whose receipts those threads carry. Two things the service does not
guarantee are characterised. Writes of one run can overlap: `RunOverlap` gives histories from the empty
database in which they do, and `RunFlights` proves that a second write starts exactly at a claim that the
tables allow while a first one is in flight, and never as long as nobody saves the run's row meanwhile.
And a VERIFIED run need not have passed its target's CI: an approved GitHub run that gets through skips
it exactly when its bytes were already where the head branch stood.

**The GitHub destination.** `GitHubServer` is a repository behind a network that may refuse a request,
take it and lose the answer, or outlive the client; `GitHubDestination` is the adapter. One relation
says what an attempt may change however it ends; it composes over any number of attempts, one after the
other or with their requests interleaved.

**Candidate generation.** `Generators` has the eager provider and the budgeted scheduler, each with its
own loops, `GeneratorTheorems` their equality and what the proposals are. The comment that shrinking keeps
the equality pattern is wrong when the anchor already occurs in the tuple; the exact condition is
proved. `Sorting` and `Ordering` are Python's stable `sorted` and its order on tuples.

**Arithmetic, counting and stores.** `RateLimiter` over exact reals; the documentation of
`retry_after_seconds` says it is always at least one, the code answers zero for a key that may go on,
and the model follows the code. `Wilson` is the unrounded interval; its margin is not divided by the
denominator, so it contains the score interval, and the model says when its ends belong to it.
`Coverage`, `Leases`, `Installations`, `CandidateSeal`, `Scoring`, `ScoringTotals`, `Corpus` and
`CorpusCollection` are the matrix, the lease columns, the installation store, the sealed file, the
nested-loop scorer and the corpus collector; `ScoringKills` and `CorpusMeaning` say what a kill, a
selected record and a reason are in terms of the executions and the upstream programs. Three more properties that fail somewhere come with the
exact condition: the window bound of the limiter when readings run backward (it holds exactly when they
climb no further than the window is long, and the climb bounds the rest), the clusters when subsumed
tests are dropped, and the manifest gate, which rejects every nonempty collection of a policy with other
than two oracle programs.

The engine's answers, the destination's `prepare`, clocks, CI readings, fresh identifiers, database
rows returned in an unspecified order and the results of executed programs are parameters.

## Model

| member | source | states |
|---|---|---|
| RestrictedLanguage.Run | src/coursefuzz/adapters/runner.py:85-110 | The suite loop reports one case per test in order, `passed` counts the passing cases, and `failed` is zero exactly when every test passes |
| RestrictedLanguage.RunAppend | src/coursefuzz/adapters/runner.py:85-110 | A report is that of a concatenated suite exactly when it combines the reports of the halves: no call sees another's state |
| RestrictedLanguage.AllPassIffFull | src/coursefuzz/adapters/runner.py:108-110 | The number of passes never exceeds the number of tests and reaches it exactly when every test passes |
| RestrictedLanguage.FloorMod | src/coursefuzz/adapters/runner.py:38-40 | Python's remainder takes the sign of the divisor and completes a division |
| RestrictedLanguage.CallBounded | src/coursefuzz/adapters/runner.py:14-41 | For integer and boolean programs with constants and inputs of magnitude at most M (M at least 2), a result has magnitude at most M to the number of leaves |
| LanguageLaws.OneLink | src/coursefuzz/adapters/runner.py:21-31 | One comparison evaluates its operands from the left and then gives its truth value, or the first error |
| LanguageLaws.ChainIsAnd | src/coursefuzz/adapters/runner.py:21 | For all expressions, operators, further links and environments, a chained comparison evaluates as the `and` of its first comparison and the chain that starts at its second operand, errors included |
| LanguageLaws.AndOrMeaning | src/coursefuzz/adapters/runner.py:22-29 | `and` and `or` evaluate their second operand only when the first does not decide, and give back an operand, not a truth value |
| LanguageLaws.OperandsGroup | src/coursefuzz/adapters/runner.py:22-29 | A longer `and` or `or` evaluates as one of two operands |
| LanguageLaws.DeMorgan | src/coursefuzz/adapters/runner.py:22-29 | On expressions of opposite truth, `and` is true exactly when `or` of the opposites is not, and the other way round, errors included |
| LanguageLaws.Trichotomy | src/coursefuzz/adapters/runner.py:30-35 | On comparable values exactly one of `<`, `==` and `>` holds, `<=` and `>=` are those or equality, and `!=` is its negation |
| LanguageLaws.OrderRaisesIff | src/coursefuzz/adapters/runner.py:30-35 | Ordering raises exactly on values that are not two numbers or two texts; equality never does |
| LanguageLaws.OrderGoesUp | src/coursefuzz/adapters/runner.py:30-35 | Integers are ordered by the sign of their difference and texts by the code points where they first differ |
| LanguageLaws.EqualityAcrossTypes | src/coursefuzz/adapters/runner.py:90 | Truth values equal one and zero, integers equal the reals of the same value, texts equal no number and None only itself |
| LanguageLaws.TruthMeaning | src/coursefuzz/adapters/runner.py:20-22 | A value is true exactly when it is a number other than zero or a nonempty text |
| LanguageLaws.SumLaws | src/coursefuzz/adapters/runner.py:36-37 | Integer addition commutes, associates and has zero, and subtraction undoes it |
| LanguageLaws.ProductLaws | src/coursefuzz/adapters/runner.py:38 | Multiplication repeats addition and has one |
| LanguageLaws.RemainderLaws | src/coursefuzz/adapters/runner.py:39 | The remainder raises exactly for zero and otherwise differs from the dividend by a multiple of the divisor and lies between zero and it |
| LanguageLaws.RealLaws | src/coursefuzz/adapters/runner.py:36-39 | On reals the operators are the field's, and an integer beside a real counts as the real of its value |
| LanguageLaws.OperandKinds | src/coursefuzz/adapters/runner.py:36-39 | Truth values are integers to every operator, and None is no operand |
| LanguageLaws.LeftToRight | src/coursefuzz/adapters/runner.py:24 | Operands are evaluated from the left and the first error is the expression's |
| LanguageLaws.BlocksInSequence | src/coursefuzz/adapters/runner.py:19-20 | What follows a block runs exactly when the block falls through |
| LanguageLaws.IfLaws | src/coursefuzz/adapters/runner.py:20 | An `if` on a test of the opposite truth with its blocks exchanged is the same `if`, and a true one is its body |
| LanguageLaws.BindMeaning | src/coursefuzz/adapters/runner.py:15-18 | A name stands for the last argument bound to a parameter of that name, and for nothing else |
| LanguageLaws.CallMeaning | src/coursefuzz/adapters/runner.py:89 | A call gives what its first finished statement gives, None when there is none, and raises exactly for a wrong number of arguments |
| LanguageLaws.PassesIff | src/coursefuzz/adapters/runner.py:86-107 | A test passes exactly when the call does not raise and gives the expected value, if one is expected |
| Oracle.EvaluateConsensus | src/coursefuzz/domain/oracle.py:69-96 | The control loop returns unavailable, error or resolved exactly as the set of shown values decides, with the controls as evidence |
| Oracle.EvaluateFixture | src/coursefuzz/domain/oracle.py:104-112 | The scan resolves exactly when some instructor case is on these inputs and says what to expect, and then to the value and label of the first such case |
| Oracle.FixtureMeaning | src/coursefuzz/domain/oracle.py:104-112 | The fixture reading resolves exactly when some case has these inputs and an expected value, and is that of the least such position |
| Oracle.DecideIffUnanimous | src/coursefuzz/domain/oracle.py:125-162 | The composite resolves a value exactly when the reference shows it, every other control shows an equal one and the first instructor case on these inputs with an expected value, if there is one, expects an equal one; then it is the reference's own value |
| Oracle.AbstentionTells | src/coursefuzz/domain/oracle.py:125-147 | Why the composite abstains: the reference failed, else a control failed, else the controls disagree among themselves, else the sources disagree; otherwise it does not abstain |
| Oracle.EvidenceTells | src/coursefuzz/domain/oracle.py:148-162 | The evidence of a resolved decision with a fixture is the reference, the controls in order and the label of that fixture |
| Selection.KeyTotal | src/coursefuzz/domain/engine.py:99-108 | Any two verdicts are comparable under the selection key |
| Selection.KeyAntisymmetric | src/coursefuzz/domain/engine.py:99-108 | Verdicts with equal keys are about the same hypothesis and kill equally many |
| Selection.KeyTransitive | src/coursefuzz/domain/engine.py:99-108 | The selection key orders verdicts transitively |
| Selection.KeyOrder | src/coursefuzz/domain/engine.py:99-108 | The tie-break, criterion by criterion: more kills first, then the smaller sum of magnitudes, then the smaller largest magnitude, then the inputs that are smaller where they first differ, and last the smaller identifier |
| Ordering.SumAbsMeaning | src/coursefuzz/domain/engine.py:103 | The sum of magnitudes adds up over parts and counts a number without its sign |
| Ordering.MaxAbsMeaning | src/coursefuzz/domain/engine.py:104 | The largest magnitude bounds every number from both sides and some number has it |
| Ordering.LexLeIff | src/coursefuzz/domain/engine.py:105-106 | One tuple is at most another exactly when it is its beginning or is smaller where they first differ |
| Selection.SelectMin | src/coursefuzz/domain/engine.py:99-108 | The first verdict that no other one precedes under the full tie-break |
| Selection.LeastKillsMost | src/coursefuzz/domain/engine.py:99-108 | The selected verdict kills at least as many survivors as any other |
| Selection.LeastIsOrderFree | src/coursefuzz/domain/engine.py:99-108 | With unique hypothesis ids every permutation of the verdicts selects the same one |
| Sandbox.BatchSandbox.RunSuite | src/coursefuzz/adapters/sandbox.py:80-101 | One execution gives an output for every test, or none when it is lost; all-passed means not lost and passing every test |
| Sandbox.BatchSandbox.RunSuiteBatch | src/coursefuzz/adapters/sandbox.py:103-110 | A batch executes its programs one after the other, each on its own |
| Engine.AssessmentEngine.Measure | src/coursefuzz/domain/engine.py:151-182 | The metrics and survivors are exactly the programs whose execution was not lost and passed the suite |
| Engine.AssessmentEngine.OutputsByProgram | src/coursefuzz/domain/engine.py:308-321 | Read by input, the table shows for each program what its execution showed, and nothing where it was lost |
| Engine.AssessmentEngine.Screen | src/coursefuzz/domain/engine.py:198-209 | Hypotheses outside arity or domain are recorded by id with the reason; every other input is queued for the waves |
| Engine.AssessmentEngine.DecideAll | src/coursefuzz/domain/engine.py:229-246 | Every valid input gets the oracle's decision on its column, and every resolved one a test for the second wave |
| Engine.AssessmentEngine.Judge | src/coursefuzz/domain/engine.py:276-304 | The killed survivors in order and the first value that differs |
| Engine.AssessmentEngine.VerifyHypotheses | src/coursefuzz/domain/engine.py:184-305 | Two waves give every hypothesis the verdict it gets from what the waves showed, unless it shares its id with an invalid one; every lookup succeeds |
| Engine.BatchedEqualsOneAtATime | src/coursefuzz/domain/engine.py:184-305 | With unique ids and no lost execution the batch gives exactly the one-hypothesis-at-a-time verdicts |
| Engine.HonestVerdictIff | src/coursefuzz/domain/engine.py:184-305 | Judged alone, a hypothesis is verified exactly when its input is in the domain, the reference, all accepted programs and the first instructor case on it agree, and some survivor differs |
| Engine.HonestKills | src/coursefuzz/domain/engine.py:276-304 | Judged alone and verified, a hypothesis kills exactly the survivors that really differ from the reference's value |
| Engine.VerifiedIsTrue | src/coursefuzz/domain/engine.py:255-305 | Whatever executions are lost, a verified verdict is true: accepted programs show the expected value, every killed survivor really differs, and the value shown is that of the first killed one |
| Engine.HardenedSurvivors | src/coursefuzz/domain/engine.py:119-120 | With nothing lost, the hardened suite keeps exactly the survivors that pass the new test |
| Engine.KillsLeaveTheCount | src/coursefuzz/domain/engine.py:119-120 | The survivors after the new test and the killed programs together are no more than the survivors before |
| Engine.AllSurvive | src/coursefuzz/domain/engine.py:119-120 | If every accepted program passes the new test, the number that pass the suite is unchanged |
| Engine.AssessmentEngine.Conclude | src/coursefuzz/domain/engine.py:99-138 | The candidate is in the domain, agreed by every accepted program and kills what it claims; the evidence error cannot occur; with no loss in the measuring waves the suite strictly improves and no accepted program is lost |
| Engine.AssessmentEngine.Analyze | src/coursefuzz/domain/engine.py:55-138 | The survivors are those of the first measurement; the verdicts are those of the first batch, or of the second when the first verified nothing; there is a candidate exactly when one of them is verified, and it is concluded as above from the verdict least under the tie-break, its two measurements being those of the original and hardened suites; otherwise no change is projected; the only failure is the deadline |
| RunTables.RunRepository.CreateRun | src/coursefuzz/repositories/sqlite.py:214-235 | The first call with a stored key, owner and key joined by a colon, inserts the row with its owner; a repeated one returns the stored run and changes nothing; an identifier in use under a new key is refused |
| RunTables.OwnersCollideIff | src/coursefuzz/repositories/sqlite.py:220 | Two owners share a stored key for some keys exactly when one owner is the other, a colon and more |
| RunTables.TenantsKeepApart | src/coursefuzz/security/access.py:14 | Tenant identifiers hold no colon, so a stored key determines its tenant and its idempotency key |
| RunTables.RunRepository.GetRun | src/coursefuzz/repositories/sqlite.py:237-243 | A run is found exactly by its identifier and its owner |
| RunTables.RunRepository.ReadAssignment | src/coursefuzz/repositories/sqlite.py:187-199 | An assignment is read exactly by a tenant that was given access to it, or by anybody when it is global |
| RunTables.RunRepository.SaveRun | src/coursefuzz/repositories/sqlite.py:271-278 | The document is replaced and the owner kept; an unknown run changes nothing |
| RunTables.RunRepository.ClaimApprovedApply | src/coursefuzz/repositories/sqlite.py:280-316 | The claim succeeds exactly when token and payload match an unspent approval of an approved run; then it spends it and moves the run; refused, it changes nothing |
| RunTables.RunRepository.IssueApproval | src/coursefuzz/repositories/sqlite.py:370-382 | The new token replaces whatever approval the run had, unspent |
| RunTables.RunRepository.ConsumeApproval | src/coursefuzz/repositories/sqlite.py:384-392 | Only an unspent approval with this token and payload is spent |
| RunTables.RunRepository.CreateAssignment | src/coursefuzz/repositories/sqlite.py:128-185 | Content already stored only gains access for the tenant; new content is inserted, except that an id in use is refused unless both snapshots are seeded |
| RunTables.RunRepository.ListRecoverableRuns | src/coursefuzz/repositories/sqlite.py:260-269 | Without repeats, the oldest rows that are queued, analysing, applying or awaiting CI, up to the limit: a row left out means the limit is reached by rows no younger |
| RunInvariant.AdvanceOk | src/coursefuzz/services/run_service.py:44-481 | Every step of every call keeps stored runs and the thread's local copy sound and never shrinks the recorded history |
| RunInvariant.TokenStepOk | src/coursefuzz/services/run_service.py:247-311 | Every step keeps tokens fresh, actions matched to what their tokens were issued for and acted tokens spent |
| RunInvariant.ClaimEffect | src/coursefuzz/services/run_service.py:301-311 | A claim starts an action with exactly the payload its approval recorded and spends that approval |
| RunInvariant.ReachKeepsInv | src/coursefuzz/services/run_service.py:44-481 | The invariant holds after every interleaving of calls, exceptions and crashes |
| RunTheorems.TokenStartsOneAction | src/coursefuzz/services/run_service.py:247-311 | In every interleaving a token starts at most one destination action |
| RunTheorems.ActionWritesWhatWasApproved | src/coursefuzz/services/run_service.py:247-311 | Every action's content hashes to the hash that was named when its token was issued |
| RunTheorems.RefusedClaimChangesNothing | src/coursefuzz/services/run_service.py:301-311 | A claim starts an action exactly when it is allowed; refused, it changes no table |
| RunTheorems.HistoryGrows | src/coursefuzz/services/run_service.py:44-481 | Actions and facts are only ever added and a run's snapshot binding never changes |
| RunTheorems.StoredVerifiedRun | src/coursefuzz/services/run_service.py:286-391 | Every stored VERIFIED run has a read-back receipt for its own candidate's bytes and was re-measured equal to its projection against the snapshot bound at creation |
| RunTheorems.VerifiedPassedCiIffCommitted | src/coursefuzz/services/run_service.py:340-452 | A VERIFIED run passed target CI exactly when its receipt carries a commit, and then a successful reading of that very commit is among the recorded facts |
| RunTheorems.PassedCiWasRead | src/coursefuzz/services/run_service.py:428-452 | In every reachable world, a stored run marked as having passed its target's CI has a recorded successful reading of its own commit |
| RunTheorems.FailedCiWasRead | src/coursefuzz/services/run_service.py:454-481 | In every reachable world, a stored EXTERNAL_CI_FAILED run has a recorded reading of its own commit: the failure it names, or a pending one taken more than ten minutes after the write |
| RunOrigins.FactWasAnswered | src/coursefuzz/services/run_service.py:315-320 | Every recorded fact was the outside world's answer, at some step of the history, to a thread that asked for that very candidate or commit |
| RunOrigins.ApproverNamedTheContent | src/coursefuzz/services/run_service.py:247-320 | For every action of every interleaving, somebody of the run's owner called for the approval of exactly the hash of the content it writes, for that run |
| RunOrigins.OnlyTheOwnerTouches | src/coursefuzz/services/run_service.py:44-481 | In every interleaving a run's row and approval change only by steps of a thread that works for its owner, and its owner never changes |
| RunTheorems.OneWriteInFlightPerToken | src/coursefuzz/services/run_service.py:301-340 | At most one destination write is in flight per approval token, in every interleaving |
| RunService.RunService.CreateRun | src/coursefuzz/services/run_service.py:44-84 | A key used before gives back its run if that is one of the same assignment and raises otherwise; a new one creates a queued run bound to the hash of the assignment's present content; the rest of the tables is untouched, and the method does what its protocol thread does when left alone |
| RunService.RunService.Approve | src/coursefuzz/services/run_service.py:247-284 | Granted exactly when the tenant's stored run awaits approval or is approved and its candidate's hash is the one the caller names, and then for that hash, with that approval and the approved row as the only changes; otherwise the call raises and changes nothing; the method does what its protocol thread does when left alone |
| RunService.RunService.Apply | src/coursefuzz/services/run_service.py:286-391 | The method, with the destination coordinator called in the middle, does what its protocol thread does when left alone with that answer; on an approved run the approval is spent exactly when it is unspent and for this token and candidate, and then the run is stored as returned, or APPROVED again if the call raises; one that gets through was re-measured equal to its projection, and awaits CI exactly when it is a GitHub run whose bytes were not where the head branch stood before |
| Destinations.DestinationCoordinator.Apply | src/coursefuzz/adapters/destinations.py:383-410 | Its receipt is the truthful one the protocol carries; a local write touches its own file only and succeeds exactly when the bytes read back; a GitHub receipt lacks a commit exactly when the bytes were there before |
| RunService.RunService.Analyze | src/coursefuzz/services/run_service.py:141-245 | A queued run ends FAILED when its snapshot changed, the engine raises or the destination does not prepare it, NO_ACTION_REQUIRED when nothing is found, and otherwise APPROVAL_REQUIRED with the prepared candidate bound to its own hash; no other row changes; the method does what its protocol thread does when left alone |
| RunService.RunService.Poll | src/coursefuzz/services/run_service.py:393-481 | For a run that awaits its commit's CI the reply is VERIFIED exactly on a successful reading, EXTERNAL_CI_FAILED exactly on a failed one (with its conclusion) or one still pending more than ten minutes after the write (as timed out), and the run itself otherwise; the stored row is the reply's; if the reading raises nothing changes; otherwise as its protocol thread |
| RunService.RunService.RecoverOne | src/coursefuzz/services/run_service.py:102-138 | An interrupted apply is stored APPROVED, an interrupted or queued analysis ends as that of a queued run, and a pending run as its CI reading says; no other row changes |
| RunService.RunService.RecoverIncompleteRuns | src/coursefuzz/services/run_service.py:100-139 | One pass handles the oldest runs up to the limit; if no poll raises, exactly the listed runs that settle leave the queue and every other row stays as it is; if all settle, it drains as far as the limit reaches |
| RunService.DeadlineSettles | src/coursefuzz/services/run_service.py:424-481 | A pending run is settled by a reading exactly when CI has concluded or its deadline has passed |
| RunService.PassDrains | src/coursefuzz/services/run_service.py:100-139 | When every queued run settles, a pass removes exactly the listed runs and keeps all other rows |
| RunService.UnresolvedListBlocks | src/coursefuzz/services/run_service.py:100-139 | A pass whose whole list is unresolved changes no run, and a pass leaves the queue as it was exactly when none of its list settles, whatever waits behind it |
| RunService.RunWorker | src/coursefuzz/worker.py:82-102 | Over any number of passes the queue shrinks by the limit each time until it is empty |
| RunService.ReachableIsKeyed | src/coursefuzz/services/run_service.py:100-139 | Tables left by any interleaving meet what a recovery pass relies on |
| RunService.DrainReachable | src/coursefuzz/services/run_service.py:100-139 | On tables left by any interleaving, once CI has concluded or is ten minutes past the write for every pending run, passes enough for the queue's length leave no run queued, analysing, applying or pending |
| RunService.AppliedWithoutCi | src/coursefuzz/services/run_service.py:340-391 | An approved run whose steps go through ends VERIFIED without a CI reading exactly when no GitHub commit was made |
| RunFlights.OverlapStartsIff | src/coursefuzz/services/run_service.py:247-311 | A run without overlapping writes gets a second one by exactly those events that claim it, as the tables allow, while another thread's write is in flight |
| RunFlights.EverOverlapsIff | src/coursefuzz/services/run_service.py:247-311 | Over a whole history the writes of a run overlap exactly when some claim is allowed over a live write |
| RunFlights.UndisturbedNeverOverlaps | src/coursefuzz/services/run_service.py:100-391 | In every history in which nobody saves a run's row while a write of it is in flight, its writes never overlap and its row says APPLYING as long as one lasts |
| RunFlights.LockedWriteStaysAlone | src/coursefuzz/services/run_service.py:100-391 | From any reachable moment on, a guarded write whose run nobody saves stays the only one, over a row that says APPLYING |
| RunFlights.LockedRefuses | src/coursefuzz/repositories/sqlite.py:280-316 | A row that says APPLYING refuses every claim, whatever token, payload and copy of the run it comes with |
| RunOverlap.SecondWriteJoins | src/coursefuzz/services/run_service.py:103-111 | From every world with a write in flight over an APPLYING row, recovery, an approval and an apply put a second write of the run in flight beside it |
| RunOverlap.HistoryOverlaps | src/coursefuzz/services/run_service.py:44-391 | For every assignment, tenant, key and engine finding, a history from the empty database ends with two threads writing the one run it creates |
| RunOverlap.TwoWritesOfOneRun | src/coursefuzz/services/run_service.py:103-111 | One such history with every value given |
| GitHubServer.AtMostOneOpen | src/coursefuzz/adapters/destinations.py:211-241 | A valid repository holds at most one open pull request per head and base |
| GitHubServer.SecondSendHasNoEffect | src/coursefuzz/adapters/destinations.py:325-361 | A request sent again changes nothing more, provided a write replaces a blob that differs |
| GitHubServer.Server.Send | src/coursefuzz/adapters/destinations.py:348-356 | One attempt takes effect or not and its answer is the server's own, a failing status, or none |
| GitHubDestination.GitHubDestinationAdapter.Request | src/coursefuzz/adapters/destinations.py:325-361 | At most two attempts; the request takes effect at most once, and an accepted answer is the server's for an effect that happened |
| GitHubDestination.GitHubDestinationAdapter.EnsureBranch | src/coursefuzz/adapters/destinations.py:160-178 | The head branch exists afterwards and was created on the approved base commit if it was missing |
| GitHubDestination.GitHubDestinationAdapter.WriteContent | src/coursefuzz/adapters/destinations.py:180-208 | The approved bytes are on the head branch afterwards; a commit is made and reported exactly when they were not there |
| GitHubDestination.GitHubDestinationAdapter.OpenPull | src/coursefuzz/adapters/destinations.py:210-241 | An open pull request for head and base is returned, created if none was open |
| GitHubDestination.GitHubDestinationAdapter.Apply | src/coursefuzz/adapters/destinations.py:144-267 | However the attempt ends, only the allowed changes were made; success means approved bytes, exactly one open pull request and a truthful receipt; an undisturbed attempt succeeds whenever success is possible, and success is possible only then |
| GitHubDestination.WrittenIff | src/coursefuzz/adapters/destinations.py:181-207 | An attempt that converged made its commit exactly when the approved bytes were not where the head branch stood |
| GitHubDestination.GitHubDestinationAdapter.ApplyUntilDone | src/coursefuzz/adapters/destinations.py:144-267 | Started again after every failure the procedure ends converged, and all attempts together changed no more than one attempt may |
| GitHubDestination.SafeComposes | src/coursefuzz/adapters/destinations.py:144-267 | Two attempts in a row change no more than one attempt may: at most one commit and one pull request, other branches untouched |
| GitHubDestination.InterleavedAttemptsAreSafe | src/coursefuzz/adapters/destinations.py:144-267 | However the requests of any number of attempts for one candidate interleave, fail or are cut short, together they change no more than one attempt may and leave at most one open pull request |
| GitHubDestination.ConvergedIsFinal | src/coursefuzz/adapters/destinations.py:180-241 | Once converged, a further attempt changes nothing: no rewrite, no second pull request |
| GitHubDestination.OtherPathsKept | src/coursefuzz/adapters/destinations.py:180-208 | Every other path of the head branch keeps the content it had where the branch started |
| GitHubDestination.CanFinishSurvives | src/coursefuzz/adapters/destinations.py:144-267 | An unfinished attempt never makes a later one impossible |
| GitHubDestination.CheckRunsOfTwoParts | src/coursefuzz/adapters/destinations.py:269-300 | The CI state of a listing is determined by its parts: pending wins, then the first failure, else success |
| GitHubDestination.CheckRunsOfOne | src/coursefuzz/adapters/destinations.py:290-300 | A listing of one check run is pending until it completes, then succeeds exactly on success, neutral or skipped and otherwise fails with its conclusion; an empty listing is pending |
| Generators.PermutationsHas | src/coursefuzz/adapters/generators.py:58 | The permutations of a tuple are exactly its rearrangements |
| Generators.ProductHas | src/coursefuzz/adapters/generators.py:102-103 | The product holds exactly the tuples of the given length over the given values |
| Generators.PermutationGenerate | src/coursefuzz/adapters/generators.py:50-80 | The nested loops yield, test by test and row by row, the rearrangement and its shrunk variants |
| Generators.BoundaryGenerate | src/coursefuzz/adapters/generators.py:87-116 | The loop yields the boundary cases in their key order |
| Generators.Propose | src/coursefuzz/adapters/hypotheses.py:83-170 | The eager provider proposes the first eight distinct unseen items of the concatenated list, numbered in order |
| Generators.GeneratorScheduler.Propose | src/coursefuzz/adapters/generators.py:136-161 | The scheduler lets each generator in turn spend what is left of the budget, each candidate carrying its generator |
| GeneratorTheorems.ScheduleIsSelect | src/coursefuzz/adapters/generators.py:136-150 | For any generators, sharing one budget is selecting from the concatenation of what they yield |
| GeneratorTheorems.SchedulerMatchesProvider | src/coursefuzz/adapters/generators.py:164-170 | The schedule of the default generators has the same ids, inputs, rationales and misconceptions in the same order as the eager selection |
| GeneratorTheorems.ProposeBoth | src/coursefuzz/adapters/generators.py:50-170 | Run side by side, the scheduler over the loops of both generators and the eager provider's own loops propose the same |
| GeneratorTheorems.SelectIsFirstDistinct | src/coursefuzz/adapters/hypotheses.py:152-160 | Selecting under a budget keeps the first so many first occurrences of unseen inputs |
| GeneratorTheorems.RowsHas | src/coursefuzz/adapters/generators.py:58 | The rows of a test are its rearrangements, ascending and without repeats |
| GeneratorTheorems.PermutedInputsIff | src/coursefuzz/adapters/generators.py:50-80 | The permutation generator yields exactly the rearrangements of the instructor's inputs other than those inputs, and each of them with one value that occurs once moved to one or the nearest value of the domain |
| GeneratorTheorems.TestsInOrder | src/coursefuzz/adapters/generators.py:54-57 | The tests are taken by the number of their different values, then by their label |
| GeneratorTheorems.BoundaryCasesHas | src/coursefuzz/adapters/generators.py:91-109 | The boundary cases are all tuples of in-domain limits, their neighbours, zero and one |
| GeneratorTheorems.CasesInOrder | src/coursefuzz/adapters/generators.py:102-109 | The boundary cases are taken by the sum of their magnitudes, then the largest, then as tuples |
| GeneratorTheorems.ProposalsAreAdmissible | src/coursefuzz/adapters/hypotheses.py:152-170 | Proposals are at most eight, in the domain with the right arity, unseen and pairwise different |
| GeneratorTheorems.FewerMeansCovered | src/coursefuzz/adapters/hypotheses.py:124-160 | Fewer than eight proposals only when every boundary tuple is an instructor test or proposed |
| GeneratorTheorems.ShrinkKeepsPatternIff | src/coursefuzz/adapters/hypotheses.py:106-121 | Shrinking keeps the equality pattern exactly when the anchor is not already in the tuple |
| GeneratorTheorems.ShrinkCanBreakPattern | src/coursefuzz/adapters/hypotheses.py:106-121 | For the test (1, 2) over 0..3 the generated item (1, 1) has lost the pattern of (2, 1) |
| GeneratorTheorems.Merge | src/coursefuzz/adapters/hypotheses.py:293-306 | The combined batch is the first eight distinct inputs of four live items and the fallback |
| GeneratorTheorems.MergeReservesHalf | src/coursefuzz/adapters/hypotheses.py:293-306 | None of the first four inputs of either side is lost in the merge |
| Sorting.SortSorts | src/coursefuzz/adapters/generators.py:54-58 | `sorted` with a key gives an ordered rearrangement that keeps the order of equal keys |
| Sorting.StableSortIsUnique | src/coursefuzz/adapters/generators.py:54-58 | Any other ordered stable arrangement is the same list |
| RateLimiter.TokenBucketRateLimiter.Allow | src/coursefuzz/security/rate_limit.py:47-65 | A disabled limiter permits everything; a new key starts with one token less than the capacity; a known one is permitted exactly when what it held, plus the refill for the forward time, up to the capacity, is a whole token, and then spends one; other keys are untouched |
| RateLimiter.TokenBucketRateLimiter.RetryAfterSeconds | src/coursefuzz/security/rate_limit.py:67-83 | The table and the advised seconds after one query, other keys untouched |
| RateLimiter.PermittedIsClimbedFor | src/coursefuzz/security/rate_limit.py:42-65 | With readings in any order, what is permitted was available at the start or refilled while the clock climbed |
| RateLimiter.ClimbBound | src/coursefuzz/security/rate_limit.py:42-65 | In every window of every run, with readings in any order, the requests permitted for a key number at most the capacity plus the refill of the clock's climb |
| RateLimiter.PermittedIsPaidFor | src/coursefuzz/security/rate_limit.py:42-65 | With nondecreasing readings, what is permitted was available at the start or accrued since |
| RateLimiter.WindowBound | src/coursefuzz/security/rate_limit.py:42-65 | With nondecreasing readings in the window, whatever came before, they number at most the capacity plus the refill of the window |
| RateLimiter.BoundedIff | src/coursefuzz/security/rate_limit.py:42-65 | A window of a given length has its bound at given readings, for all limits, earlier calls, keys and numbers of requests, exactly when the readings climb no further than the window is long |
| RateLimiter.BackwardClockBreaksBound | src/coursefuzz/security/rate_limit.py:55-56 | At capacity one, whenever a token fits between two readings, n swings between them permit n + 1 requests in that window, more than its bound exactly when n exceeds its refill |
| RateLimiter.LookingIsHarmless | src/coursefuzz/security/rate_limit.py:67-83 | Asking how long to wait changes no later answer |
| RateLimiter.AdvisedWaitSuffices | src/coursefuzz/security/rate_limit.py:67-83 | Waiting the advised seconds and one millisecond always yields a token |
| RateLimiter.WholeSecondsSufficeIff | src/coursefuzz/security/rate_limit.py:83 | Without the millisecond the advice is right exactly when the missing time is at most a second, whole, or a millisecond or more past a whole second |
| RateLimiter.TwoSecondsTooShort | src/coursefuzz/security/rate_limit.py:83 | With 2.0005 seconds missing the advice is two seconds and the request is still refused |
| RateLimiter.AdviceIsTight | src/coursefuzz/security/rate_limit.py:67-83 | The advice is zero exactly when a request would be permitted now, and otherwise less than a second too long |
| Wilson.ScoreIntervalIff | evaluations/real_scoring.py:258-261 | The rates a score test at the same level does not reject are exactly those within the margin divided by the denominator |
| Wilson.ContainsScoreInterval | evaluations/real_scoring.py:254-262 | Every such rate lies in the reported interval, which lies in [0, 1] |
| Wilson.ContainsProportion | evaluations/real_scoring.py:254-262 | The reported interval contains the observed proportion |
| Wilson.IntervalMirrors | evaluations/real_scoring.py:254-262 | Swapping successes and failures mirrors the interval |
| Wilson.LowerEndIsTightIff | evaluations/real_scoring.py:261-262 | The reported lower end belongs to the score interval exactly when there is no success |
| Wilson.UpperEndIsTightIff | evaluations/real_scoring.py:261-262 | The reported upper end belongs to the score interval exactly when every one is a success |
| Coverage.ComputeClusters | src/coursefuzz/domain/coverage.py:39-56 | The clusters list, in order of first appearance, each signature with its mutants in order |
| Coverage.ClusterIsClass | src/coursefuzz/domain/coverage.py:39-56 | A cluster is exactly one class of equal signatures, complete and with multiplicities, and its signature says for every test whether the grid records a failure |
| Coverage.ClustersPartition | src/coursefuzz/domain/coverage.py:39-56 | Every mutant is in exactly one cluster |
| Coverage.ComputeSubsumption | src/coursefuzz/domain/coverage.py:61-75 | A pair is reported exactly when the child fails some mutant, the parent fails every mutant the child fails, and fails one more |
| Coverage.SubsumptionIsStrictOrder | src/coursefuzz/domain/coverage.py:70-75 | Subsumption is irreflexive, asymmetric and transitive |
| Coverage.DroppingRedundantKeepsKills | src/coursefuzz/domain/coverage.py:61-75 | Removing every subsumed test at once leaves the set of killed mutants unchanged |
| Coverage.PairKeptIff | src/coursefuzz/domain/coverage.py:39-75 | Dropping every subsumed test keeps two mutants alike or apart exactly when each subsumed test that tells them apart has a kept one that does |
| Coverage.ClustersKeptIff | src/coursefuzz/domain/coverage.py:39-75 | The kept tests give the same clusters, in the same order, exactly when that holds for every pair of mutants |
| Coverage.DroppingRedundantCanMerge | src/coursefuzz/domain/coverage.py:39-75 | A grid on which it does not: two mutants told apart only by a subsumed test |
| Leases.LeaseRepository.ClaimRunForWorker | src/coursefuzz/repositories/postgres.py:189-210 | The claim takes rows that need work, whose lease is absent or past and that nobody locks, the oldest up to the limit, and leases exactly them to the worker for 300 seconds |
| Leases.LeaseRepository.HeartbeatLease | src/coursefuzz/repositories/postgres.py:212-223 | The heartbeat succeeds exactly for the recorded holder and extends only that lease |
| Leases.LeaseRepository.ReleaseLease | src/coursefuzz/repositories/postgres.py:225-235 | The release clears the lease exactly for the recorded holder |
| Leases.LeaseIsExclusive | src/coursefuzz/repositories/postgres.py:189-235 | For five minutes after a worker's claim or heartbeat, unless it releases, no interleaving with a monotone clock takes the run or changes the lease on behalf of anybody else |
| Leases.ReplacedWorkerLearns | src/coursefuzz/repositories/postgres.py:212-235 | After another worker's claim the former holder's heartbeat fails and changes nothing |
| Leases.TakeoverIff | src/coursefuzz/repositories/postgres.py:189-223 | A held run can be claimed exactly when it still needs work and five minutes have passed; until then or until somebody does, a heartbeat renews it |
| Installations.InstallationStore.ApplyInstallationEvent | src/coursefuzz/security/installations.py:57-82 | The calls of an event in order; undisturbed, none of them raises |
| Installations.InstallationStore.ClaimInstallation | src/coursefuzz/security/installations.py:245-267 | The claim succeeds exactly on an installation that is known, not suspended and bound to no other tenant, and then changes that binding only |
| Installations.RunKeepsSound | src/coursefuzz/security/installations.py:57-267 | After any interleaving of store calls of events and claims, tenant to installation is a partial injection into existing installations |
| Installations.HistoryRunsCalls | src/coursefuzz/security/installations.py:57-82 | A history of delivered events and claims does what its store calls do, so what holds of every run of calls holds of every history |
| Installations.HistoryKeepsSound | src/coursefuzz/security/installations.py:57-267 | After any events and claims, tenant to installation is a partial injection into existing installations |
| Installations.BindKeepsSoundIff | src/coursefuzz/security/installations.py:235-243 | Binding without a check keeps that invariant exactly when the installation exists and is not another tenant's |
| Installations.ExposureIsExclusive | src/coursefuzz/security/installations.py:269-281 | Two tenants never see the same installation |
| Installations.SuspendedStaysDark | src/coursefuzz/security/installations.py:65-82 | A suspended installation exposes nothing until a full synchronisation or deletion of it |
| Installations.DeletedMustBeReclaimed | src/coursefuzz/security/installations.py:202-215 | After a deletion no tenant is bound to the installation again without a new claim |
| Installations.HiddenAtOnce | src/coursefuzz/security/installations.py:67-72 | Suspending or deleting hides the installation from every tenant at once |
| Installations.FullSyncIsExact | src/coursefuzz/security/installations.py:73-79 | A full synchronisation activates the installation with exactly the event's repositories |
| Installations.SeenAfterChange | src/coursefuzz/security/installations.py:73-82 | After repositories were added or removed, the installation's tenant sees what it had with the added ones, or without the removed ones, and nothing while the installation is suspended |
| Installations.InstallationStore.RepositoriesForWorkspace | src/coursefuzz/security/installations.py:269-281 | A tenant may write exactly to the repositories of its own installation while that is active |
| Installations.ApplyTwice | src/coursefuzz/security/installations.py:57-82 | Applying an event twice equals applying it once |
| Installations.OthersUntouched | src/coursefuzz/security/installations.py:57-82 | An event touches only its own installation, and only a deletion touches claims |
| CandidateSeal.Seal | evaluations/real_scoring.py:177-228 | Sealing succeeds exactly when every generator proposes the budget of different inputs and ordinals for every task and nothing else; otherwise the error is that of the first demand that fails |
| CandidateSeal.SealedCount | evaluations/real_scoring.py:197-226 | A sealed file holds tasks times generators times budget candidates |
| CandidateSeal.SealableIff | evaluations/real_scoring.py:177-207 | What the seal demands, candidate by candidate: every task is known, every generator that occurs proposes exactly the budget for every task, and two of one task and generator differ in ordinal and input |
| Scoring.RunOracles | evaluations/real_scoring.py:313-329 | The expected output exists exactly when all oracle programs completed and agree |
| Scoring.ScoreTask | evaluations/real_scoring.py:300-382 | One loop updates a task's score and the totals; the score is what the outcomes of its proposals say, and what those are the four rows below state by the executions themselves |
| ScoringKills.KilledIff | evaluations/real_scoring.py:331-363 | A wrong program's digest is killed, or a control's falsely killed, exactly when in some query whose oracle programs all completed and agreed a program with that digest did not complete or printed something else |
| ScoringKills.AbstainedIff | evaluations/real_scoring.py:313-330 | A task abstains once for each query whose oracle programs do not all complete and agree, and counts every execution up to where its last query ends |
| ScoringKills.FirstFindingIff | evaluations/real_scoring.py:360-363 | The first finding is the least query, counted from one, in which a wrong program is caught |
| ScoringKills.WallIsPerExecution | evaluations/real_scoring.py:315-359 | If every execution takes the same time, a task takes that time once for every execution it counts |
| ScoringKills.FaithfulProgramsSurvive | evaluations/real_scoring.py:331-363 | A task whose programs always complete with what the oracles print kills nothing, falsely or otherwise |
| ScoringKills.HangingProgramIsKilled | evaluations/real_scoring.py:353-360 | A wrong program that never completes is killed as soon as one query resolves |
| ScoringTotals.ScoreGenerator | evaluations/real_scoring.py:288-414 | Kills, false kills, abstentions, executions, time and first queries of the aggregate are the sums over the tasks |
| ScoringTotals.ExecutionFormula | evaluations/real_scoring.py:310-359 | Executions are the oracle programs for every proposal plus controls and wrong programs for every resolved one |
| ScoringTotals.FirstFindingIsUnique | evaluations/real_scoring.py:360-363 | The first-finding query is the least killing one, and exists exactly when something was killed |
| ScoringTotals.RatesAreProper | evaluations/real_scoring.py:364-382 | A task never kills more wrong programs or controls than it has |
| ScoringTotals.MedianHalves | evaluations/real_scoring.py:386-393 | At most half of the first-finding queries lie below the reported median and at most half above; it is the middle one, or halfway between the two middle ones |
| Corpus.ProgramReceipts | evaluations/real_corpus.py:347-376 | The loop and the final sort give one receipt per usable normalised source |
| Corpus.ReceiptsMeaning | evaluations/real_corpus.py:347-376 | The receipts name exactly the first usable occurrence of every digest, in digest order, without repeats |
| Corpus.BuiltRolesAreDisjoint | evaluations/real_corpus.py:394-451 | No receipt that is built, under any policy, trips the role-disjointness validator; oracles, then controls, are the first accepted receipts and the wrong programs the first wrong ones, in the sizes that follow from the policy |
| CorpusMeaning.ExcludedIff | evaluations/real_corpus.py:394-410 | A fetched row is excluded exactly when its usable programs have too few different accepted or wrong sources or one that is both, and its reasons say which |
| CorpusMeaning.MetaReasonsTell | evaluations/real_corpus.py:330-344 | Each reason the metadata can give is given exactly when that minimum is missed, and none exactly when all are met |
| CorpusCollection.EligibleRaisesIff | evaluations/real_corpus.py:394-451 | Under a policy whose limits cover those of the receipt, an eligible record raises only when its row cannot be fetched or is another record's |
| CorpusCollection.CollectManifest | evaluations/real_corpus.py:454-518 | A successful collection holds the first passing records of the ranking and a ledger of all others that accounts for every record and gives its reasons: those of its metadata, those of its row, or the selection limit when enough passed before it; it stops at a row exactly when one it must fetch raises, for the count exactly when too few pass, and at the gate exactly when it gets there with a task under a policy of other than two oracles or with two tasks that share a name or a source; with unique row indices the ledger check never fires |
| CorpusMeaning.CollectionMeaning | evaluations/real_corpus.py:454-518 | A collection holds as many tasks as the policy asks for, ordered by name and each built from its own row; they belong to records that meet every minimum, and no such record that builds a task is left out in favour of one that ranks after it by digest and name |
| CorpusCollection.UnrepeatedIff | evaluations/real_corpus.py:143-170 | Among built tasks the gate's digest lists repeat or meet exactly when two different tasks share a program source in some roles |
| CorpusCollection.LedgerCheckIff | evaluations/real_corpus.py:514-516 | The ledger check passes exactly when no two excluded records share an index |
| CorpusCollection.SelectionIgnoresOrder | evaluations/real_corpus.py:460-493 | Listing the metadata in another order changes neither the ranking nor the selection |
| CorpusCollection.GateNeedsTwoOracles | evaluations/real_corpus.py:143-170 | On a collection of at least one task the control count is right exactly for a policy of two oracles, and then the gate passes exactly without clashing tasks |
| CorpusCollection.RichRowPasses | evaluations/real_corpus.py:394-451 | A row with enough different usable programs passes whenever its metadata and the policy's roles fit a receipt |
| CorpusCollection.ThreeOraclesRejected | evaluations/real_corpus.py:454-518 | A collection the frozen limits allow, under a policy of three oracles with enough programs for every role, reaches the gate and is rejected |

## Left out

- RestrictedLanguage.CallBounded: real-valued constants and string operands are outside the bound, as are nested function values and string repetition.
- Parsing, the 16 KiB source limit and the decorator check; the model starts from an admitted tree with positional parameters. NaN, string formatting with `%` and the built-in functions, which admitted programs cannot call.
- Engine.AssessmentEngine.Analyze: percentages, the evidence record, generated patch text and the feedback passed to the provider are not modelled; the provider's two answers are parameters, and metrics are counts.
- Oracle.DecideIffUnanimous: reading details, sources and evidence are named values rather than message strings, and the joined provenance text is left out.
- Process and container spawning, output limits and wall-clock measurement; an execution has every output or none.
- Audit events, the evidence bundle and listings of runs: an event append that raises is an interruption of its thread.
- The Postgres run repository; its lease columns are modelled, its run and approval statements are those of SQLite.
- The OpenAI provider, its threads and timeouts, and the semaphore of the resilient provider; the merge takes the live batch as an arbitrary list.
- GitHubDestination.GitHubDestinationAdapter.Apply: one repository without other writers between attempts, blob identifiers are the blobs' contents, and pull requests are never closed or merged.
- RunService.RunService.CreateRun: whether a workspace may use a GitHub target's repository is left out, with the rest of repository scope.
- Destinations.DestinationCoordinator.Apply: GitHub credentials and repository scope are left out; whether a local path stays in its directory and what the disk does are parameters.
- RateLimiter.ClimbBound: floating-point rounding of tokens and times is left out.
- Wilson.ContainsScoreInterval: the rounding to two decimals is left out, and the square root is a number known by its square.
- Scoring.ScoreTask: output normalisation, row verification and receipt hashing are left out; an execution's output is already normalised.
- Corpus.ReceiptsMeaning: text normalisation and hashing are left out; a program comes with the digest of its normalised source.
- CorpusCollection.CollectManifest: manifest and context hashes and JSON serialisation are left out.
- Signature verification and parsing of webhook bodies, lower-casing of repository names, delivery records and the Postgres installation store.
- HTTP routes, server-sent events, the React client, command-line scripts, access policy, the token cache, the execution ledger and schema migration: plumbing, or claims about a single branch.
