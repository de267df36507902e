# A verified model of the ART repository's protocols and algorithms

This project models the parts of the repository where a mistake is easy to make and hard to see:
the tools that run GPU tests on shared clusters and clean up after themselves, the fitter of the
planner's cost model, the policy loss and its diagnostics, the code that keeps distributed ranks
and asynchronous tasks in step, and two small algorithmic engines. `dafny verify dfyconfig.toml`
checks all of it.

**The CI lifecycle** (`scripts/ci/`). `Kubernetes` is the cluster: objects that anyone may create,
relabel, remove or create again under the same name between any two requests. `Reconcile` runs one
attempt's listing, receipts, preconditioned deletes and proof of absence against every such
interleaving and every moment at which the worker may be killed, and `ImageCleanup` does the same
for the label census. `ProcessTable` and `ChildProcess` model the kernel's process table and the
supervisor of a bounded child, with signals, forks, exits and number reuse. `ApiHandshake` is the
start, serve, release and stop protocol of the private API server as a transition system whose
programs may die at any step. `Supervision` is the verdict and the way out of the supervisor.

**The cost-model fitter** (`dev/trainer_rank_cost_fit.py`). `RealVectors` and `Nnls` are the
non-negative least squares; `Selection` and `SelectionLaws` score predictions by the layouts they would select;
`CoefficientSearch` lowers that score by coordinate search and repairs the rounded table;
`TwoStage` is shortlist and re-ranking; `Evidence`, `Certificate` and `Names` are the pipeline
from measured rows to candidates to the certificate and back.

**The loss** (`src/art/loss.py`). `Histogram` is the quantile sketch, `Diagnostics` the additive
reports, `PolicyLoss` the loss with all its branches, and `LossLaws` what the loss is, said of
ratios, advantages and the configuration alone.

**Staying in step.** `Lockstep` is the calibration driver as one program run by N ranks that meet
in collectives (`dev/trainer_rank_landing_acceptance.py`), `CheckedRanks` the wrappers that make
all ranks raise or none (`dev/trainer_rank_diag.py`). `Gather` and `GatherVerdict` are the
asynchronous gathering of trajectory groups under every order of completion, `BatchRun`,
`BatchFailures`, `BatchSafety` and `Batches` the generator that yields them in batches (`src/art/`).

**Engines.** `Wrapping` is greedy line wrapping and the search for a font size
(`dev/yes-no-maybe-vision/generate_images.py`); `Tiles` and `Game2048` are the 2048 game
(`examples/2048/`). `Wrappers` and `Sequences` hold what several modules share.

Code that changes state is modelled by classes and methods with loops, each proved against a
specification. The programs that act on something shared (a cluster, the process table, a provider)
keep a ghost log with one entry a turn: what was met and what was asked for. `Valid()` says that the
log explains everything, so what is proved of the log is proved of the cluster. What surrounds a program (other clients, signals, clocks, a model's answers, the
order of completion) is a schedule or a function given from outside, and every theorem holds for
all of them.

Where the code does not do what one would expect of it, the model follows the code and says when
the expectation holds:

- The child supervisor says that it puts the signal handlers back. It does so for SIGINT on every
  path, and for SIGTERM exactly if no SIGINT arrives in the turn between the two restorations
  (`ChildProcess.Supervisor.Restore`, `ChildProcess.Supervisor.RunChild`); `ChildProcess.TornRun`
  is a run that leaves it behind.
- The supervisor stops the API server, or at least attempts it, exactly if the status was not terminal
  and no interrupt is delivered in a moment between the operations before (`Supervision.Supervisor.Supervise`).
  An interrupt while the verdict of a finished job is recorded makes it raise and fetch the logs only
  (`Supervision.LogsOnly`), one in each of two moments ends it with nothing attempted (`Supervision.TornRun`), and
  one in the last look for the job receipt is swallowed, so that a launched job is not cancelled
  (`Supervision.LostJob`). Which exit code it returns, and when it raises, is said for every position of
  every interrupt.
- The search for the largest font passes over the neighbours of every size it looks at, so its
  result can be up to two below the largest that fits; `Wrapping.Narrows` and
  `Wrapping.MaxFitSize` say exactly when it is the largest, `Wrapping.LargestCanBeMissed` gives an
  instance where it is not.
- A trajectory metric called "exceptions" is added to the count of failures, so that the order of
  completion can decide (`GatherVerdict.ClashMakesOrderMatter`). It does not, and the number of
  failures does, exactly if nothing failed or the failures with all negative and the failures with
  all positive such metrics are on the same side of the budget
  (`GatherVerdict.OrderIsNoMatterIff`).
- For the same reason a generator of batches can let failures pass that are over its budget. Whatever the
  waits and the concurrency, failures stop it whenever there are any exactly if nothing fails or all
  failures, less all negative metrics of that name, are over the budget
  (`BatchFailures.AnyFailureStopsIff`), and never do exactly if nothing fails, or the successes are too few
  for a batch and all failures, with all positive ones, are within it (`BatchSafety.NothingStopsIff`).
- After the first batch the budget is gone, whatever budget was given
  (`BatchFailures.PassesOnIff`). The last batch may be longer than the batch size, because one
  wait yields at most one batch; and within one wait results are taken in the order of a set, so
  batches follow the order of completion only from wait to wait (`BatchRun.TakenWaitByWait`).
- The pairwise score of a cell counts two equal predictions as right when the slower layout is
  listed first (`Selection.InOrder` follows the code).

## Model

| member | source | states |
|---|---|---|
| Kubernetes.GoneForever | scripts/ci/trainer-rank-gpu.py:144-164 | an identifier that no object has any more stays gone, whatever is done to the cluster afterwards |
| Kubernetes.ListedIsKnown | scripts/ci/trainer-rank-gpu.py:112-141 | a listed object can only ever be found under its kind and name, and carries the label for as long as it has the listed version |
| Kubernetes.UnreadIsGone | scripts/ci/trainer-rank-gpu.py:146-161 | reading the only name an identifier can have, and not finding it there, shows that it is gone everywhere |
| Kubernetes.GrantedDeleteIsSelected | scripts/ci/trainer-rank-gpu.py:167-184 | a delete that the preconditions let through hits an object that carries the selected labels at that instant |
| Kubernetes.DeleteIs | scripts/ci/trainer-rank-gpu.py:167-184 | a delete with preconditions is granted exactly if the object has the identifier and the version; then it is gone or has a later version, and otherwise nothing changes |
| Kubernetes.OthersMay | scripts/ci/trainer-rank-gpu.py:112-161 | between two requests others may relabel, remove and replace any object |
| Reconcile.Attempt.Write | scripts/ci/trainer-rank-gpu.py:40-47 | a receipt is replaced as a whole or left as it was, and every receipt on disk stays true whatever the cluster does |
| Reconcile.Attempt.LoadRetained | scripts/ci/trainer-rank-gpu.py:93-98 | a receipt of another attempt is refused; else exactly the identities of both earlier receipts are retained |
| Reconcile.Attempt.ListKind | scripts/ci/trainer-rank-gpu.py:112-141 | what is found is the listing of one instant: an object of the kind and namespace is found exactly if its nonce label is the attempt's, under its name and with its identifier and version; every new identity is on disk before the next request |
| Reconcile.Attempt.List | scripts/ci/trainer-rank-gpu.py:111-143 | a round is one listing of Pods and then one of Services, and nothing receipted is lost if either fails |
| Reconcile.Attempt.ProveAbsence | scripts/ci/trainer-rank-gpu.py:144-161 | reads made one after another, if none raises, show that every retained identity is gone at the same time, at the end; one raises only unanswered or on finding a retained object |
| Reconcile.Attempt.Delete | scripts/ci/trainer-rank-gpu.py:167-184 | the requests are exactly one preconditioned delete for each found object, in order, up to the first that is not answered; the log says what each of them met, and nothing else is asked for |
| Reconcile.Attempt.OnlyOwnedIsTouched | scripts/ci/trainer-rank-gpu.py:167-184 | an object that is not the same after a turn's own request was hit by a delete that the server granted; its nonce label is the attempt's, it is in the attempt's namespace, it has the identifier and version of the request, and that identifier was in the receipt on disk; not found and conflict change nothing |
| Reconcile.Attempt.NothingIsCreated | scripts/ci/trainer-rank-gpu.py:167-184 | no request of the program makes an object |
| Reconcile.Attempt.Resources | scripts/ci/trainer-rank-gpu.py:87-187 | a removal that returns saw no labelled Pod and then no labelled Service, retains every earlier identity, and claims absence exactly if it had something to prove absent, all of which is gone; it raises only for a receipt of another attempt, an unanswered request or an object still found by name |
| Reconcile.Attempt.RequireRetired | scripts/ci/trainer_rank_api.py:296-300 | returning means the retirement receipt exists and the cgroup is still empty |
| Reconcile.Attempt.StopServer | scripts/ci/trainer_rank_api.py:272-293 | returning means the cgroup was seen empty and the retirement receipt is on disk; a receipt once written stays |
| Reconcile.Attempt.RemoveAll | scripts/ci/trainer-rank-gpu.py:190-199 | the removal checks retirement before its first listing and again afterwards, and sends no delete without it |
| Reconcile.Attempt.RunWorker | scripts/ci/trainer-rank-gpu.py:190-199 | no delete is sent unless retirement is on file and the cgroup empty; a removal that returns has seen that before it listed Pods, then Services, then read every name; a worker that returns did its work, and one that raises was hindered: by a request of its own that was not answered, and if it stops the server or removes also by a check of retirement, and if it removes also by the receipt of another attempt or an object still found by name |
| Reconcile.Attempt.Try | scripts/ci/trainer-rank-gpu.py:562-575 | stopping counts only once retirement is checked again; one ending is recorded, a success exactly if the worker returned, and then it did its work; a removal that succeeded confirmed retirement first; a failure was hindered within this very try, as above |
| Reconcile.Operations | scripts/ci/trainer-rank-gpu.py:549-559 | down is tried exactly if a result is on file, cancelling the request exactly if there is none but a request, cancelling the job exactly if there is only a job, and none of them after retirement; stopping the server is always next, and a removal comes last, exactly if there is an allocation |
| Reconcile.Attempt.Cleanup | scripts/ci/trainer-rank-gpu.py:533-601 | absence is reported exactly if the removal succeeded with something to prove absent; then, in this call, an empty cgroup with the retirement receipt on file came first, an empty listing of Pods next, one of Services next, and a read of every retained name last; quiescence is reported exactly if stopping succeeded, and the exit code is 0 exactly if every operation did; every operation is tried in order, and each that failed was hindered in this call |
| ImageCleanup.Census.Note | scripts/ci/gpu-image-cleanup.py:98-120 | what is found is exactly what was found before with the objects of the listing, each counted once, and each still carries the labels while it is unchanged |
| ImageCleanup.Census.List | scripts/ci/gpu-image-cleanup.py:93-120 | a round lists every kind at its own instant and finds exactly what was listed then |
| ImageCleanup.Census.NothingNamed | scripts/ci/gpu-image-cleanup.py:93-120 | after an empty round no object of a kind carried the labels at the instant of its listing |
| ImageCleanup.Census.Delete | scripts/ci/gpu-image-cleanup.py:125-137 | the requests are exactly one preconditioned delete for each found object, in order, up to the first that is not answered |
| ImageCleanup.Census.OnlyOwnedIsTouched | scripts/ci/gpu-image-cleanup.py:125-137 | an object that is not the same after a turn's own request was hit by a delete that the server granted; every label asked for had the value asked for, and its identifier and version were those of the request |
| ImageCleanup.Census.Search | scripts/ci/gpu-image-cleanup.py:88-141 | the search ends well exactly with a round of listings of every kind that found nothing, and otherwise at a request that was not answered, after no empty round |
| ImageCleanup.Census.Cleanup | scripts/ci/gpu-image-cleanup.py:20-145 | a selector with an empty label or value or without one of the three run labels, no kinds, or a bound that is not between 0 and 120 seconds is rejected before anything happens; any other call leaves a receipt, which says absent exactly if the last round of listings of every kind was empty; no round before it was |
| ProcessTable.SealedGroupShrinks | scripts/ci/trainer-rank-gpu.py:288-312 | once killed, the group of an unreaped child only shrinks, whatever forks, exits or leaves, and its number is given to nobody |
| ProcessTable.HeldLasts | scripts/ci/trainer-rank-gpu.py:288-296 | the child keeps its number reserved until it is reaped, by this parent or by someone else |
| ProcessTable.ExitLasts | scripts/ci/trainer-rank-gpu.py:346-352 | an exit that was seen without reaping is still there with the same status |
| ProcessTable.ChildrenAreNotGiven | scripts/ci/trainer-rank-gpu.py:292-294 | other processes can take a child away, which shows, but cannot give one |
| ChildProcess.Supervisor.Install | scripts/ci/trainer-rank-gpu.py:329-336 | if no signal came in between, both signals are only recorded from here on |
| ChildProcess.Supervisor.Start | scripts/ci/trainer-rank-gpu.py:337-342 | a started child leads its own group under a number that is reserved for it, even if a signal arrived meanwhile |
| ChildProcess.Supervisor.Watch | scripts/ci/trainer-rank-gpu.py:343-360 | watching ends with the child's exit status, not reaped, or with an interrupt, the timeout or the loss of the child: with an interrupt or the timeout the child still ran in the last look, lost means it was nobody's child there, and in no earlier look was there any of these |
| ChildProcess.Supervisor.Shoot | scripts/ci/trainer-rank-gpu.py:291-298 | SIGKILL goes to the child's own group, once |
| ChildProcess.Supervisor.KillsAreReserved | scripts/ci/trainer-rank-gpu.py:288-298 | every kill of every run met a number that was reserved for the child, unless someone else had reaped it |
| ChildProcess.Supervisor.ReapsLeaveNothing | scripts/ci/trainer-rank-gpu.py:299-309 | every reap of every run met a group of which nothing could run, unless someone else had reaped the child |
| ChildProcess.Supervisor.Scan | scripts/ci/trainer-rank-gpu.py:299-307 | the answer of a scan is that a process of the group can run only if it met one in its own turn, and that none can only if none can at its end |
| ChildProcess.Supervisor.Reap | scripts/ci/trainer-rank-gpu.py:308-309 | the child is reaped once, only when nothing of its group can run, with the status it exited with |
| ChildProcess.Supervisor.FinishChild | scripts/ci/trainer-rank-gpu.py:288-312 | returning means the child is reaped and nothing survives; otherwise another process reaped the child, or the time had run out and a running member of its group was met in the last pass |
| ChildProcess.Supervisor.Restore | scripts/ci/trainer-rank-gpu.py:373-376 | SIGINT's handler is put back; SIGTERM's is put back exactly if no SIGINT arrives before its turn |
| ChildProcess.Supervisor.Supervise | scripts/ci/trainer-rank-gpu.py:335-372 | the first error outranks the cleanup's, the cleanup's an interrupt, and an interrupt a failing exit code; success means exit status 0 and no survivor |
| ChildProcess.Supervisor.RunChild | scripts/ci/trainer-rank-gpu.py:315-376 | on every path at most one child is launched and at most one reap made, of that child; the outcome ranks errors as above; a survivor is reported only if one was met in the last pass before the handlers are put back; SIGINT's handler is back, and SIGTERM's is left behind exactly if a SIGINT arrived in the turn between the two restorations |
| ChildProcess.TornRun | scripts/ci/trainer-rank-gpu.py:373-376 | a run after which SIGTERM is still only recorded |
| ApiHandshake.RunKeepsInvariant | scripts/ci/trainer_rank_api.py:189-324 | every step of the owner, the server, the stopper, systemd and the clock keeps the protocol's invariant, deaths and restarts included |
| ApiHandshake.AtMostOneLaunch | scripts/ci/trainer_rank_api.py:192-247 | however often the owner dies and starts again, a unit is launched at most once |
| ApiHandshake.LaunchWasAdmitted | scripts/ci/trainer_rank_api.py:192-216 | a plan, a launch and what follows come only after a moment at which admission was open and at least 21 seconds were left; the runtime is the whole seconds left, less twenty |
| ApiHandshake.NothingStartsLate | scripts/ci/trainer_rank_api.py:198-199 | once admission is over and the owner is not past its check nothing is launched any more, and whoever does not serve by then never will |
| ApiHandshake.LateServerLeaves | scripts/ci/trainer_rank_api.py:317-324 | a server that does not serve when admission is over leaves within four steps of its own |
| ApiHandshake.LateOwnerStops | scripts/ci/trainer_rank_api.py:189-269 | an owner that has not released the server when admission is over dies within six steps of its own, unless it had decided on the release before |
| ApiHandshake.StopsOnlyOwn | scripts/ci/trainer_rank_api.py:272-293 | what the stopper stops is the recorded invocation, running and contained, and a receipt of retirement is written only for an empty cgroup |
| ApiHandshake.VerifiedWasVouched | scripts/ci/trainer_rank_api.py:144-150 | a receipt counts as verified only if at some earlier moment it was on file for the plan and the boot, and its invocation was running and contained |
| ApiHandshake.ServingWasReleased | scripts/ci/trainer_rank_api.py:253-324 | the server serves only with a release for its own receipt, written after it was verified, with admission checked on both sides |
| ApiHandshake.RetiredIsForever | scripts/ci/trainer_rank_api.py:272-300 | once the retirement receipt exists it names the recorded server, and in every later state the cgroup is empty |
| ApiHandshake.RetirementIsInReach | scripts/ci/trainer_rank_api.py:272-293 | from every reachable state with the recorded server of this boot, empty or running and contained, four answered steps retire it |
| ApiHandshake.EndsByCleanupDeadline | scripts/ci/trainer_rank_api.py:195-216 | a launch at most five seconds late leaves no process of the unit alive after the cleanup deadline |
| ApiHandshake.ServingAndRetiredAreInReach | scripts/ci/trainer_rank_api.py:189-324 | with 21 seconds left and admission open, some run serves, and some run goes on to retirement, even if time passes and each side first looks in vain |
| Supervision.FewTrailing | scripts/ci/trainer-rank-gpu.py:404-417 | the error counter is the number of failures since the last success |
| Supervision.Supervisor.RunLaunch | scripts/ci/trainer-rank-gpu.py:209-245 | a launch that exits with zero has written the job receipt, and a job receipt of this owner names the job that launch returned |
| Supervision.Supervisor.RunStatus | scripts/ci/trainer-rank-gpu.py:269-278 | a query asks for the recorded job; it is done exactly if there is time, no interrupt comes and the provider answers in that turn, and the status file then holds that answer, bound to owner and job |
| Supervision.Supervisor.Poll | scripts/ci/trainer-rank-gpu.py:387-428 | polling takes exactly the course of launch, survey, queries, readings and waits up to the first turn that ends it: an interrupt, the time, the third failed query in a row, or a verdict; a verdict is recorded exactly if the last answer is final and was read in time and without an interrupt, and it raises nevertheless exactly if an interrupt comes while it is recorded; the code is 0 for SUCCEEDED, 103 for CANCELLED, 102 for a missing job and 100 for the three kinds of failure |
| Supervision.Supervisor.Ask | scripts/ci/trainer-rank-gpu.py:397-424 | one query and one reading: a verdict exactly if the answer is final and read in time without an interrupt; giving up means that the course ends there; the third failure in a row gives up |
| Supervision.Supervisor.Query | scripts/ci/trainer-rank-gpu.py:395-428 | the loop of queries and waits ends with a verdict exactly if the last answer is final and read in time without an interrupt, and otherwise at the first turn that ends polling |
| Supervision.Supervisor.WayOut | scripts/ci/trainer-rank-gpu.py:447-466 | a terminal status leaves the logs to fetch; without one, the job known or else the request is cancelled and stopping the server is the last thing planned |
| Supervision.Supervisor.UncutIff | scripts/ci/trainer-rank-gpu.py:458-481 | the way out is cut short exactly if an interrupt is delivered in a moment between its items, and at the first such moment |
| Supervision.Supervisor.Leave | scripts/ci/trainer-rank-gpu.py:450-485 | the planned operations are attempted in order though others fail, exactly those before the first moment with an interrupt; then the receipt says how each ended, unless an interrupt swallows it; torn means that some moment had one, the last after everything included |
| Supervision.Supervisor.Supervise | scripts/ci/trainer-rank-gpu.py:387-485 | an exit code is returned exactly if the last answer is final and read in time and no interrupt comes in its reading, in its recording or in a moment of the way out; it is 0 exactly for SUCCEEDED, 103 exactly for CANCELLED, 102 exactly for a missing job and 100 exactly for the three kinds of failure; stopping the server is attempted exactly if the status was not terminal and no interrupt cuts the way out short before; the job is cancelled if it was read after the launch or is found in a last look without an interrupt; the job, request and result receipts, the operations and the turns they take are determined by the schedule |
| Supervision.Supervisor.Recover | scripts/ci/trainer-rank-gpu.py:429-456 | the receipt of a failure and the last look for the job each take one turn, and an interrupt in it is swallowed with what is left of it |
| Supervision.LogsOnly | scripts/ci/trainer-rank-gpu.py:418-423 | a run that raises after a SUCCEEDED answer, without a result on file, and attempts nothing but the logs |
| Supervision.LostJob | scripts/ci/trainer-rank-gpu.py:450-465 | a run whose job is on file and not cancelled |
| Supervision.TornRun | scripts/ci/trainer-rank-gpu.py:450-481 | a run that is interrupted before it can stop the server |
| Nnls.OptimalIsNearMinimal | dev/trainer_rank_cost_fit.py:823-828 | coefficients that pass the gradient test are beaten by no non-negative ones by more than twice the tolerance times their sum |
| Nnls.LossTowardSolution | dev/trainer_rank_cost_fit.py:831-842 | along the segment to a restricted solution the squared residual is exactly the solution's plus (1 - alpha)^2 times the energy of the move |
| Nnls.StepNeverRaisesLoss | dev/trainer_rank_cost_fit.py:837-842 | no step toward a restricted solution raises the squared residual, and a positive one lowers it when there is something to gain |
| Nnls.EnteringColumn | dev/trainer_rank_cost_fit.py:825-833 | a column that enters with a positive gradient comes out positive and gives something to gain, whichever solution the solver picks |
| Nnls.SteepestInactive | dev/trainer_rank_cost_fit.py:825-829 | the entering column is the first inactive one with the largest gradient |
| Nnls.StepLength | dev/trainer_rank_cost_fit.py:837-841 | the step is the smallest of the ratios at which a coefficient reaches zero, at most one |
| Nnls.StepBack | dev/trainer_rank_cost_fit.py:837-844 | a step back keeps coefficients non-negative, strictly shrinks the passive set and, with a zero threshold, does not raise the residual |
| Nnls.Restore | dev/trainer_rank_cost_fit.py:830-844 | the inner loop ends with a strictly positive restricted solution, and with a zero threshold strictly below the residual it began with |
| Nnls.MasksAreFew | dev/trainer_rank_cost_fit.py:824-844 | there are at most 2^n passive sets, so a strictly falling residual ends the outer loop |
| Nnls.ScaledLoss | dev/trainer_rank_cost_fit.py:818-819 | the scaled problem has the residuals of the original one at the rescaled coefficients |
| Nnls.ScalesAre | dev/trainer_rank_cost_fit.py:818 | the scale of a column is the larger of its largest entry in size and the floor |
| Nnls.OptimalGivesNearMinimal | dev/trainer_rank_cost_fit.py:818-845 | what holds in the scaled problem holds of the returned coefficients in the original one |
| Nnls.Fit | dev/trainer_rank_cost_fit.py:813-845 | the result is non-negative; ended by the gradient test its residual is beaten by no non-negative coefficients by more than 2e-10 times the largest correlation, or one, times their scaled sum; where no column correlates with the data by more than 1e-10 of its scale, the first pass ends with zeros; with a zero threshold 2^n passes always get there |
| Selection.IsMember | dev/trainer_rank_cost_fit.py:981-983 | every candidate is among the members of its cell |
| Selection.FirstLeast | dev/trainer_rank_cost_fit.py:990-991 | the first of the smallest keys is picked |
| Selection.RunnerUpIsSecond | dev/trainer_rank_cost_fit.py:994-999 | the runner-up time is the least of all but the fastest |
| Selection.CountPairs | dev/trainer_rank_cost_fit.py:1003-1009 | each pair of members is counted once if its times differ by more than 3 percent, as right if its predictions have the order of its times |
| Selection.Group | dev/trainer_rank_cost_fit.py:981-983 | the loop groups the candidates by cell in order of first appearance |
| Selection.Evaluate | dev/trainer_rank_cost_fit.py:980-1036 | the loops compute the report that `SelectionLaws.ReportIs` describes |
| Selection.OnlyOrderMatters | dev/trainer_rank_cost_fit.py:848-858 | report and selection loss depend only on how the predictions order the candidates of each cell |
| Selection.ScalingKeepsReport | dev/trainer_rank_cost_fit.py:848-858 | scaling all coefficients by a positive factor changes no report |
| Selection.CellConstantsKeepReport | dev/trainer_rank_cost_fit.py:848-858 | adding a constant to the predictions of each cell changes no report |
| Selection.LossIsZeroIff | dev/trainer_rank_cost_fit.py:848-858 | the loss is never negative, and zero exactly if every cell selects a fastest layout and has every separated pair in order |
| SelectionLaws.CellOf | dev/trainer_rank_cost_fit.py:990-999 | in each cell the first fastest and the first with the least prediction are picked; the regret and the lead are percentages of the fastest time, the lead that of the fastest of the others |
| SelectionLaws.CellsOfAre | dev/trainer_rank_cost_fit.py:981-983 | every cell that occurs is reported on once, in the order in which they first occur |
| SelectionLaws.ReportIs | dev/trainer_rank_cost_fit.py:980-1036 | the misses are the cells where the fastest leads by more than 3 percent and its spread while the choice is more than 5 percent off; the two counts are the number of all pairs of one cell whose times are more than 3 percent apart, and of those that the predictions order as the times |
| SelectionLaws.LossIs | dev/trainer_rank_cost_fit.py:848-858 | the loss is the sum of the regrets and a twentieth of the percentage of pairs out of order |
| CoefficientSearch.LossIs | dev/trainer_rank_cost_fit.py:877-884 | what is searched is the selection loss of the predictions that the rows and the coefficients make |
| CoefficientSearch.TryCoordinate | dev/trainer_rank_cost_fit.py:888-904 | trying one coefficient improves the loss by more than 1e-9, or changes nothing because none of its six multiples, zero, or for a zero the four multiples of the floor does |
| CoefficientSearch.Search | dev/trainer_rank_cost_fit.py:882-907 | the search never ends above its start, and ends where no trial gains a step unless every sweep gained one |
| CoefficientSearch.TrialsAreTried | dev/trainer_rank_cost_fit.py:888-894 | what is tried in place of a coefficient is zero, a quarter, half, four fifths, five quarters, twice or four times a positive one, and 1, 10, 100 or 1000 floors for a zero |
| CoefficientSearch.FloorIs | dev/trainer_rank_cost_fit.py:878-879 | the floor is a thousandth of the smallest positive coefficient, and a thousandth if there is none |
| CoefficientSearch.ScalingKeepsLoss | dev/trainer_rank_cost_fit.py:910-914 | the scaled starts begin at the same loss |
| CoefficientSearch.FitRegret | dev/trainer_rank_cost_fit.py:861-914 | the result is no worse than the start, non-negative if the start is, and settled unless every sweep gained a step |
| CoefficientSearch.Round | dev/trainer_rank_cost_fit.py:936 | rounding is to within one half, halves go to the even neighbour, and non-negative values stay non-negative |
| CoefficientSearch.Sorted | dev/trainer_rank_cost_fit.py:962 | the distinct trials are tried in ascending order |
| CoefficientSearch.NeighboursAreNext | dev/trainer_rank_cost_fit.py:948-963 | what is tried in place of an entry is one or two more or less, zero, four rounded multiples of a positive one, and the powers of ten up to 1000 for any other, and never less than zero |
| CoefficientSearch.TryEntry | dev/trainer_rank_cost_fit.py:947-968 | trying one entry improves the loss by more than 1e-9, or changes nothing because none of its neighbours on the grid does; entries stay non-negative |
| CoefficientSearch.Integerize | dev/trainer_rank_cost_fit.py:917-971 | a rounded table no worse than the coefficients is returned as it is; any other result is no worse than rounding and settled unless every sweep gained a step |
| Names.SortedAscends | dev/trainer_rank_cost_fit.py:1119 | the cells are taken in strictly ascending order of their names |
| Names.BeforeIs | dev/trainer_rank_cost_fit.py:1119 | names are ordered by their first different character, and a name comes before its extensions |
| TwoStage.SortIsRanked | dev/trainer_rank_cost_fit.py:1070-1076 | sorting by score and label loses nothing and puts nothing after something cheaper |
| TwoStage.CheapOrderIsPermutation | dev/trainer_rank_cost_fit.py:1070-1076 | the cheap order holds exactly the members |
| TwoStage.ShortlistHolds | dev/trainer_rank_cost_fit.py:1059-1078 | the shortlist holds the cheapest, at least one, and every incumbent; what is left out is cheaper than nothing in it but an incumbent |
| TwoStage.ShortlistGrows | dev/trainer_rank_cost_fit.py:1059-1078 | a larger shortlist drops nothing |
| TwoStage.TableScores | dev/trainer_rank_cost_fit.py:1124-1130 | of several layouts with one label the last one's score counts |
| TwoStage.SelectedIsLeast | dev/trainer_rank_cost_fit.py:1131-1133 | with one layout a label the choice has the least second score |
| TwoStage.ShortlistSize | dev/trainer_rank_cost_fit.py:1076-1077 | what follows after the size, or one, of the cheapest are incumbents only |
| TwoStage.OutcomeOfIs | dev/trainer_rank_cost_fit.py:1131-1160 | the choice is the first of the shortlist with the least score that counts for its label; the fastest is a fastest member; regret, cheap regret, what the shortlist lost and the lead are the percentages of the fastest time that the choice, the cheapest, the fastest of the shortlist and the second fastest are above it |
| TwoStage.OnlyRerankOrderMatters | dev/trainer_rank_cost_fit.py:1124-1133 | the outcome depends only on how the second score orders the layouts |
| TwoStage.IrrecoverableIsBetween | dev/trainer_rank_cost_fit.py:1134-1149 | what the shortlist lost is between zero and the selected regret, and zero exactly if a fastest layout is in it |
| TwoStage.IrrecoverableShrinks | dev/trainer_rank_cost_fit.py:1145-1149 | a larger shortlist never loses more |
| TwoStage.EvaluateTwoStage | dev/trainer_rank_cost_fit.py:1119-1149 | the recall counts are equal exactly if the shortlists keep every clear winner, the worst loss is the maximum over the cells, and the misses are the cells over 5 percent off where the fastest leads by more than 3 percent and its spread |
| Evidence.Collect | dev/trainer_rank_cost_fit.py:546-572 | one pass over the rows collects, for each cell, its last row, and for each cell and label the usable samples and whether it was refused |
| Evidence.SamplesAre | dev/trainer_rank_cost_fit.py:546-572 | the samples of a candidate are those of the rows that were measured, admitted, unsplit and compile-free under the current planner, every value as often as it was measured |
| Evidence.LastRowIs | dev/trainer_rank_cost_fit.py:546-552 | the row that counts for a cell is the last of its rows |
| Evidence.NoGapsIffComplete | dev/trainer_rank_cost_fit.py:212-265 | no gap is reported exactly if nothing carried is thin and every listed candidate was admitted and has enough usable samples |
| Evidence.ValidateCompleteness | dev/trainer_rank_cost_fit.py:212-265 | the loops report exactly the gaps, in order |
| Certificate.LoadCandidates | dev/trainer_rank_cost_fit.py:542-606 | the loops load the candidates on which the results below are stated |
| Certificate.SortRealsPermutes | dev/trainer_rank_cost_fit.py:586 | the values of which the median is taken are the samples, each as often as it was measured |
| Certificate.SpreadIsRange | dev/trainer_rank_cost_fit.py:586-587 | the spread is the range of the samples in percent of a median that lies within it |
| Certificate.LoadedIff | dev/trainer_rank_cost_fit.py:573-603 | exactly the listed candidates with two usable samples are loaded |
| Certificate.LoadedIsMade | dev/trainer_rank_cost_fit.py:573-603 | every loaded candidate is one that the last row of its cell lists, with the fields that the extractor defines, the cell's facts, the number of its samples, their median and their range in percent of it |
| Certificate.ListedIsLoaded | dev/trainer_rank_cost_fit.py:573-603 | and whatever is listed there, but for the production selection, and has two samples is loaded so |
| Certificate.CompleteKeepsAll | dev/trainer_rank_cost_fit.py:212-265 | if no gap is reported for two or more repeats, no listed candidate but the automatic one is lost and each has that many samples |
| Certificate.SortIsStrict | dev/trainer_rank_cost_fit.py:603-606 | with unique keys the canonical order is strict |
| Certificate.StrictIsUnique | dev/trainer_rank_cost_fit.py:603-606 | two strictly ordered lists of the same candidates are the same list |
| Certificate.FieldIs | dev/trainer_rank_cost_fit.py:531 | a key of fields joined by bars gives back its fields, the second of which stands for a missing model |
| Certificate.LoadGivesBack | dev/trainer_rank_cost_fit.py:518-539 | loading an exported certificate gives each candidate once, as it is restored, in canonical order |
| Certificate.RoundTrip | dev/trainer_rank_cost_fit.py:392-417 | exporting and loading gives the canonically ordered list back exactly if no candidate has features but the current ones, the candidates of a cell have the same facts, and models and shapes are the origin's, or the key's second field and the facts' shape where it has none |
| Certificate.EvidenceRoundTrip | dev/trainer_rank_cost_fit.py:341-606 | loading evidence, exporting and loading the certificate gives the same candidates in the same order |
| Histogram.Bucket | src/art/loss.py:65-68 | a ratio falls in the first bucket whose upper edge is not below it |
| Histogram.SearchStraddles | src/art/loss.py:147-155 | for a quantile in (0, 1] the search ends in a non-empty bucket that straddles the target |
| Histogram.QuantileIsLeast | src/art/loss.py:139-167 | the quantile is the least value at or below which the histogram, spread evenly in its buckets, has reached the target |
| Histogram.QuantileIsMonotone | src/art/loss.py:125-130 | a larger quantile is not smaller, so p95 is at most p99 |
| Histogram.MergedQuantileIsBetween | src/art/loss.py:95-97 | the quantile of two non-empty histograms added lies between theirs |
| Histogram.MergedQuantilesAreBetween | src/art/loss.py:112-132 | the quantile of any number of merged histograms lies between those of two non-empty ones among them |
| Histogram.SearchFindsBucket | src/art/loss.py:144-149 | the search ends in the bucket of the exact order statistic of rank ceil(q * n), for every list of ratios |
| Histogram.QuantileError | src/art/loss.py:139-167 | the error is less than that bucket's width; past the last edge the result is that edge, a lower bound |
| Histogram.OrderStatisticExists | src/art/loss.py:139-167 | every rank has an order statistic, so the error bound is about every list |
| Diagnostics.Accumulator.Add | src/art/loss.py:80-97 | nothing to add changes nothing, a first report is taken as it is, a later one is added |
| Diagnostics.Accumulator.ToMetrics | src/art/loss.py:99-132 | an empty accumulator reports nothing, any other the metrics of the sum over the ranks |
| Diagnostics.Accumulator.AddAll | src/art/loss.py:80-97 | a step's micro-batches leave the report of all their tokens together |
| Diagnostics.ReportsAdd | src/art/loss.py:27-69 | the report of two micro-batches together is the sum of their reports |
| Diagnostics.ReportCounts | src/art/loss.py:39-69 | a report counts the assistant's tokens with a weight, their ratios' total, those a bucket holds, and those out of the range: with PPO the ones that a positive advantage pushes above it or a negative one below |
| Diagnostics.MetricsAre | src/art/loss.py:119-132 | mean and clipped fraction are over the tokens, zero without any; the quantiles are the 95th and 99th percentile |
| Diagnostics.DistributedMetricsAreOneShot | src/art/loss.py:99-132 | accumulating on every rank and summing over the ranks, from whichever rank, gives the metrics of one report over all tokens |
| Diagnostics.AnyRankFirst | src/art/loss.py:112-117 | the sum over the ranks does not depend on the rank it starts from |
| Diagnostics.RankMetrics | src/art/loss.py:72-132 | each rank runs its own accumulator over its micro-batches, and every one of them gets the metrics of one report over all tokens of all ranks |
| PolicyLoss.SameRatios | src/art/loss.py:299-312 | the importance ratios, at every level, do not depend on ignored positions |
| PolicyLoss.SameTokenLosses | src/art/loss.py:363-386 | every position contributes the same to the loss, an ignored one nothing, in every clipping and truncation branch |
| PolicyLoss.SameKnown | src/art/loss.py:235-241 | nor do the positions whose probabilities are correlated |
| PolicyLoss.SameSamples | src/art/loss.py:354-362 | nor do the tokens the diagnostics count |
| PolicyLoss.IgnoredPositionsDoNotInterfere | src/art/loss.py:263-404 | nothing the loss returns depends on what stands at positions that are not the assistant's |
| PolicyLoss.KlPenaltyIsCentred | src/art/loss.py:349-352 | the penalties add up to exactly -coef * S * e / (m + e) over m assistant positions with total divergence S |
| LossLaws.PartsOf | src/art/loss.py:314-386 | with PPO the loss of a position is the larger of the losses with and without clipping, else minus clipped ratio, advantage and logprob multiplied; the clipped ratio is the nearest one in the range, which is 0.2 to either side for PPO and from 0 to 5 else if not configured; truncation multiplies by the smaller of its ratio and its bound, weights by the weight; masked positions have none |
| LossLaws.RawRatioIs | src/art/loss.py:295-312 | the ratio is by token, by group, or either mean of both, and a missing old logprob stands for the current one |
| LossLaws.TruncationIs | src/art/loss.py:373-381 | with the original logprobs truncation looks at the old policy against the original one |
| LossLaws.AdvantageIs | src/art/loss.py:338-353 | an advantage loses tau times the difference and gains the coefficient times what its divergence is below the average |
| LossLaws.AverageIs | src/art/loss.py:348-349 | the average divergence is over the count of the assistant's positions |
| LossLaws.TotalsAre | src/art/loss.py:383-404 | the loss is the sum over the positions, or that over their count, and so is the entropy |
| LossLaws.CorrelationIs | src/art/loss.py:235-260 | the correlation is over the assistant's positions with an old logprob, in order, and zero for fewer than two of them |
| LossLaws.DiagnosticsOf | src/art/loss.py:354-362 | the diagnostics count the ratios before cap and mask, with the corrected advantages, against the same range |
| LossLaws.ClippedIffChanged | src/art/loss.py:51-59 | a position counts as clipped exactly if clipping changes its loss with PPO, or its ratio else |
| Lockstep.ActKeepsInStep | dev/trainer_rank_landing_acceptance.py:2642-2763 | every local step and every collective keeps all ranks at the same place with the same rows and live list |
| Lockstep.NeverStuck | dev/trainer_rank_landing_acceptance.py:1192-1205 | until all are done some rank can go on, or all stand at the same collective |
| Lockstep.FinishShrinks | dev/trainer_rank_landing_acceptance.py:2707-2763 | every run leaves fewer runs to make |
| Lockstep.FinishIsAccounted | dev/trainer_rank_landing_acceptance.py:2725-2731 | the live list is exactly what the shared rows justify, and the measured rows are whole rotated rounds and the start of the next |
| Lockstep.FinishFollows | dev/trainer_rank_landing_acceptance.py:2642-2763 | the rows are those of the loops: an arm warms up until it is refused or, from the second attempt on, compiled nothing, eight times at most; then the next variant, the next candidate, and rounds of the live arms, each starting one arm later |
| Lockstep.MeetShares | dev/trainer_rank_landing_acceptance.py:2665-2690 | at a collective one rank's failure is everybody's, the time is that of the slowest rank, and the statuses are all that any rank has seen |
| Lockstep.RanksStayInStep | dev/trainer_rank_landing_acceptance.py:2642-2763 | whatever each rank sees locally, executions are bounded, never deadlock, and all ranks have the same phase, rows and live list throughout, and the rows are those of the loops |
| Lockstep.EveryArmEveryRound | dev/trainer_rank_landing_acceptance.py:2745-2750 | rotation leaves no arm out: every live arm is measured once a round |
| Lockstep.TogetherIffSameVerdict | dev/trainer_rank_landing_acceptance.py:2026-2033 | two ranks that judged their own statuses would part exactly if their verdicts differ |
| CheckedRanks.CombinedIsEmptyIffNoneFailed | dev/trainer_rank_diag.py:47-52 | the combined message is empty exactly if no rank failed |
| CheckedRanks.EveryFailureIsQuoted | dev/trainer_rank_diag.py:47-51 | the combined message quotes every failing rank's trace, after those of the failing ranks before it |
| CheckedRanks.DecimalIs | dev/trainer_rank_diag.py:48 | a rank is quoted in decimal digits that stand for it, without leading zeros |
| CheckedRanks.SharedIs | dev/trainer_rank_diag.py:26-52 | what is raised is what the check of rank 0 left under the first wrapper or without a group, and else the combined message, if any check failed |
| CheckedRanks.SharedIffSomeFailed | dev/trainer_rank_diag.py:26-52 | there is an error to raise exactly if a check that counts has failed |
| CheckedRanks.AllRaiseOrNone | dev/trainer_rank_diag.py:12-64 | in every interleaving either all ranks pass the barrier and raise the same message or all return; ranks wait for ever only if a check left by an exception that the wrapper does not catch |
| Gather.GatherContext.RecordMetrics | src/art/gather.py:206-211 | a trajectory adds its reward and its metrics to the sums, and one to the count of each |
| Gather.RecordedIs | src/art/gather.py:206-211 | a trajectory adds its reward to the sum called "reward", each metric to the sum of its name, one to the count of each, and nothing else |
| Gather.FailureIs | src/art/gather.py:136-152 | a failure adds one to the sum called "exceptions" |
| Gather.OverBudgetIs | src/art/gather.py:260-267 | failures are too many when they are more than the budget, and with a budget between 0 and 1 and a known number of groups also more than that part of them |
| Gather.GatherContext.WrapGroup | src/art/gather.py:136-152 | a success is recorded trajectory by trajectory; a failure is counted and passed on exactly if the count is then over the budget |
| Gather.GatherContext.Reset | src/art/gather.py:269-273 | the counts, the progress bar and the budget are gone |
| Gather.GatherGroups | src/art/gather.py:40-66 | gathering raises exactly if some completion does, else it returns the successes in input order |
| Gather.SumsInAnyOrder | src/art/gather.py:206-211 | once all have completed every sum is the same for every order of completion |
| GatherVerdict.OrderIsNoMatterIff | src/art/gather.py:260-267 | every order of completion gives the verdict of the number of failures alone exactly if nothing failed or the failures with all negative and with all positive metrics called "exceptions" are both over the budget or both within it |
| GatherVerdict.SureVerdicts | src/art/gather.py:260-267 | over the budget even with all negative ones every order raises, within it even with all positive ones none does |
| GatherVerdict.RaisesIffOverBudget | src/art/gather.py:260-267 | the case without a metric called "exceptions": gathering raises, in every order, exactly if there is a failure and all of them together are over the count or fraction |
| GatherVerdict.ClashMakesOrderMatter | src/art/gather.py:206-211 | an instance with such a metric that raises or not, by order of completion |
| Batches.Absorb | src/art/batches.py:41 | the results of the tasks that a wait found done are taken in the order of a set; one that was passed on raises, else the batch grows by the successes among them |
| Batches.Complete | src/art/gather.py:136-152 | the tasks of a wait complete in some order, the context counts them in that order, and each is passed on exactly if the context in force says so |
| Batches.YieldBatch | src/art/batches.py:42-47 | a full batch is exactly the batch size, and with it the counts and the budget are gone |
| Batches.Closes | src/art/batches.py:48-49 | what is left at the end is one more batch, if it is anything |
| Batches.Fill | src/art/batches.py:35-36 | tasks are started in order, exactly while fewer than the limit are outstanding |
| BatchRun.FewOutstanding | src/art/batches.py:35-38 | in every wait of every run at most batch size times concurrency tasks are outstanding |
| BatchRun.RunEnds | src/art/batches.py:32-49 | every run ends, with every group that is not skipped completed once |
| BatchRun.TakenWaitByWait | src/art/batches.py:37-41 | after every wait the results taken are those of the tasks completed, each once, and they come before those of any later wait |
| BatchFailures.PassesOnIff | src/art/gather.py:260-273 | a completion is passed on exactly if it is a failure and the count since the last yield is over the budget: the given one before the first yield, none after it |
| BatchFailures.AnyFailureStopsIff | src/art/gather.py:260-273 | with a budget of at least zero, failures stop the run whenever there are any, whatever the waits and the concurrency, exactly if nothing fails or all failures with all negative metrics called "exceptions" are over the budget |
| BatchFailures.FailuresCanBeSpared | src/art/gather.py:206-211 | otherwise, whatever the budget, there are waits and a concurrency with which all failures are let pass |
| BatchSafety.NothingStopsIff | src/art/gather.py:260-273 | no failure ever stops a run, whatever the waits, the concurrency and the budget, exactly if nothing fails, or the successes are too few for a batch and all failures with all positive metrics of that name are within the budget |
| BatchSafety.SomeRunStops | src/art/batches.py:42-47 | otherwise a run that a failure stops is constructed: positive metrics first, or a whole batch first |
| BatchFailures.NoClashAnyFailureStops | src/art/gather.py:260-273 | without a budget and without a metric called "exceptions" a run comes upon a failure that is passed on exactly if a group that is not skipped fails |
| Batches.TrajectoryGroupBatches | src/art/batches.py:24-49 | it raises exactly if the run comes upon a failure that is passed on, in the wait in which it does; otherwise every group after the skip completes once and every success is in one batch, in the order in which results were taken, wait after wait: one batch of exactly the batch size for each yield and one more for what is left; the tasks that complete are those the run has outstanding |
| Wrapping.SplitKeepsLetters | dev/yes-no-maybe-vision/generate_images.py:58 | splitting a text into words loses only blanks |
| Wrapping.SplitOfJoin | dev/yes-no-maybe-vision/generate_images.py:58-73 | joining words with a space and splitting the line again gives the words back |
| Wrapping.StripIs | dev/yes-no-maybe-vision/generate_images.py:65 | stripping takes the blanks off both ends and nothing else |
| Wrapping.Wrap | dev/yes-no-maybe-vision/generate_images.py:54-74 | the lines render the words in order, each line fits or is one word, none could take the next line's first word; no words give one empty line; no other wrapping has fewer lines, if what is drawn gets wider with every word |
| Wrapping.FewestLines | dev/yes-no-maybe-vision/generate_images.py:54-74 | no other such wrapping has fewer lines, for any width that grows with the span |
| Wrapping.Measure | dev/yes-no-maybe-vision/generate_images.py:106-122 | the test is that no line is too wide and the lines with their spacing are not too tall |
| Wrapping.TallIs | dev/yes-no-maybe-vision/generate_images.py:113-117 | the height is that of the lines and of the spacing between them: a quarter of the mean height, rounded down, or one pixel |
| Wrapping.Narrows | dev/yes-no-maybe-vision/generate_images.py:102-127 | a probe rules out what is above it or keeps what it found, and passes over both neighbours |
| Wrapping.MaxFitSize | dev/yes-no-maybe-vision/generate_images.py:80-129 | the search ends; if smaller sizes work whenever larger ones do, it is at most 2 below every size that works, and is the best one exactly if that is the smallest or one that is probed |
| Wrapping.LargestCanBeMissed | dev/yes-no-maybe-vision/generate_images.py:90-127 | an instance in which the search misses the largest size that works |
| Tiles.CondenseSequence | examples/2048/utils.py:89-107 | the index loop computes the recursive condensation |
| Tiles.MergeIsGreedy | examples/2048/utils.py:95-104 | condensing cuts the tiles into greedy groups of one, or two equal ones, in order, and sums them: no tile merges twice |
| Tiles.GreedyIsUnique | examples/2048/utils.py:95-104 | there is only one such grouping |
| Tiles.CondenseKeeps | examples/2048/utils.py:89-107 | the total of a line is conserved and tiles never become more |
| Tiles.CondenseKeepsPowers | examples/2048/utils.py:95-104 | tiles stay powers of two and at most double |
| Game2048.Game.CondenseRows | examples/2048/utils.py:112-123 | the row loops, forward or reversed, make the grid moved left or right |
| Game2048.Game.CondenseColumns | examples/2048/utils.py:125-140 | the column loops, forward or reversed, make the grid moved up or down |
| Game2048.Game.CondenseBoard | examples/2048/utils.py:111-140 | for all four directions the board in place equals the mirrored or transposed left condensation |
| Game2048.MovedIs | examples/2048/utils.py:111-140 | a move condenses every row or column toward the edge that the tiles move to |
| Game2048.MovedKeeps | examples/2048/utils.py:111-140 | a move conserves the total of the board and never adds a tile |
| Game2048.MovedIsProper | examples/2048/utils.py:111-140 | a move keeps powers of two and at most doubles the largest |
| Game2048.Game.Clear | examples/2048/utils.py:29-34 | the clear coordinates are exactly the free cells |
| Game2048.Game.Populate | examples/2048/utils.py:28-39 | one free cell gets a 2 or a 4 and nothing else changes |
| Game2048.Game.constructor | examples/2048/utils.py:43-55 | a new board has exactly two tiles, each a 2 or a 4 |
| Game2048.Game.ApplyAgentMove | examples/2048/utils.py:144-158 | what is no move changes nothing; a move condenses, adds one tile to a free cell and raises the total by exactly 2 or 4 |
| Game2048.MovedLeavesRoom | examples/2048/rollout.py:77-92 | after a move of a game in play there is a free cell, so the board is never full when a tile is added |
| Game2048.UnfinishedIsInPlay | examples/2048/utils.py:167-175 | a game that is not finished has a free cell and no tile over 64 |
| Game2048.GridMaxBounds | examples/2048/utils.py:162-163 | the maximum is the least bound on the tiles |
| Game2048.Rollout | examples/2048/rollout.py:29-100 | against any answers a game makes at most 479 valid moves, ends at the first invalid answer or when a tile is 128 or the board is full, and is won exactly if a tile is 128 |

## Left out

What the models take for granted:

- Kubernetes: identifiers are never reused, an object keeps its kind, namespace and name for life, and every change gives it a version that no object had before. Listings are honest and every listed object has a version; the checks against a server that returns objects that do not match, or without a version, are not modelled.
- Once the creators' cgroup has been emptied it stays empty: processes join it only by forks inside it. That retirement lasts rests on this, as it does in the code.
- Processes do not join another group by setpgid after they were started; a group can only lose members or grow by forks.
- Another process may reap the child (`ChildProcess` says exactly what then fails), but nothing else in this parent does.
- Receipts are replaced atomically, as `write_json` and `write` do; their JSON form, file errors and the owner's own fields are not modelled.
- Creations that are still in flight at the provider when the API server is retired; the code excludes them itself.
- Floating point is modelled by real numbers: rounding, overflow, NaN and infinity do not occur. A missing old logprob is an explicit value.
- Nnls.Fit: the drop and guard thresholds are parameters; the code's 1e-12 and 1e-300 are covered by the safety results, while the strictly falling residual and the 2^n bound are stated for a zero threshold. The linear solver is any function that solves the normal equations on the passive columns.
- Nnls.Restore: the residual is stated to fall for a zero threshold only, for the same reason.
- PolicyLoss.IgnoredPositionsDoNotInterfere: exponential, square root, group mean and correlation are functions given from outside; gradients, detaching and the shift of the packed tensors by one position are not modelled.
- Histogram.QuantileError: the edges are any strictly increasing positive list, not the 257 logarithmic ones of the code, which are one instance.
- Diagnostics.DistributedMetricsAreOneShot: every rank has added at least one report, since a rank without one never reaches the all-reduce.

What the models do not cover:

- ApiHandshake.EndsByCleanupDeadline: the bounds that systemd keeps (ten seconds to start, the runtime, five to stop) are assumed, and the launch delay is a parameter; the probe mode, the check of the listening socket and the host checks are left out.
- ChildProcess.Supervisor.RunChild: a signal that arrives after the last check and before the handlers are back is recorded and not raised, so not every interrupt surfaces.
- Supervision.Supervisor.Leave: an operation counts as attempted even if its worker is refused because the cleanup window is over, or kept from starting by an interrupt; `Works` says when it succeeds. When the given schedule of turns is over the program is interrupted in every turn. Errors of files other than by an interrupt are not modelled.
- Reconcile.Attempt.Cleanup: the operations before the removal (down, cancel) only take turns; what they do at the provider is not modelled. A launch-attempt receipt of another owner, which makes the code raise at once, is not modelled.
- ImageCleanup.Census.Cleanup: the namespace is given; looking it up in the configuration, the patterns for names and identifiers and the kubectl process are left out.
- Lockstep.RanksStayInStep: the forward pass is one local step, so collectives inside it, and exceptions other than the two admission failures, are not modelled; neither are rank-local fields of the rows.
- CheckedRanks.AllRaiseOrNone: without a process group the exchange and the barrier are steps of the one rank alone, where the code has none.
- Gather.GatherGroups: the `after_each` callback, awaitables that count their own trajectories, progress bars and the derivation of completion tokens are left out.
- Batches.TrajectoryGroupBatches: batch size and concurrency are positive; with a zero product the code's wait refuses the empty set of tasks. A consumer that stops early sees a prefix of what is stated.
- BatchFailures.AnyFailureStopsIff: a negative budget is left to the condition for each completion, since it is replaced by none at the first yield.
- Selection.Evaluate: median, p95 and maximum regret and the gates on them are left out as easy; candidate details that the report only copies are too.
- TwoStage.EvaluateTwoStage: the comparison with the version-1 choice, the planning cost, the ordered pairs of the shortlist and the summary statistics are left out.
- Certificate.EvidenceRoundTrip: each cell's last row lists a label once, and a cell without a model has none in its key; a key without a second field, on which the code raises, reads as one with an empty model; the manifest, fingerprints beyond model and shape, the integer table's hash and the text format of the file are left out. Cell keys are given, not built from rows.
- Evidence.ValidateCompleteness: rows are given as parsed; samples without a cell do not occur.
- Wrapping.MaxFitSize: what a font draws is a function from size and text to a box with integer corners; that smaller sizes work whenever larger ones do is a condition of the statement, not a fact about fonts.
- Game2048.Rollout: boards are four by four, the only size for which the code pads correctly; the reward of a lost game, which needs logarithms, and the conversation with the model are left out.
- CoefficientSearch.FitRegret: the term matrix is given; the terms themselves are imported from files that are not part of this model.

Not modelled at all: SkyPilot and its client, the other phases of the landing driver, `validate_manifest` and `carried_certificate_cells`, `fit_reranker` and the command line of the fitter, `gather_trajectories`, the tic-tac-toe example, pricing tables and packaging. They are straight-line code, thin variants of what is here, or outside programs.
