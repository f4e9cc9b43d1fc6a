# Verified model of the sosreport operator

A Dafny 4.11 model of the reconciler in `controllers/sosreport_controller.go`, seen as a work queue that
lives through crashes, stale reads and failed writes, and of the password obfuscator
`containers/scripts/pw_decoder.py`. `dafny verify dfyconfig.toml` verifies all of it.

## How it is built

`Protocol.dfy` is the life of one Sosreport, cut at every call to the API server. Its state holds the three
in-memory records of the CR, how far a pass in flight has come, every stored version of the CR, its Jobs and its
claims, and a history the program does not keep. Events carry what the reconciler cannot choose: answers of
the server, the age of a read, the order in which Go visits a map, crashes, ending Jobs, writes by others. A
write comes back accepted, refused, or stored with its reply lost, and so does a create; a write from an old
version is refused. A write of the CR keeps the stored status and a write of the status keeps the stored
annotations.

An event that cannot happen in a state leaves it alone, so every list of events is a run, and "in every run"
below means all of them. Premises are predicates on (state, event) that hold along the run:

- `Coverage.RecoversCovered`: a pass that loads the to-run record of a kept scheduling loads records that
  cover the scheduled nodes, alone and together with the stored to-run annotation. Reading the latest version
  (`RecoversCurrent`) is enough. A scheduling is kept once it is stored, or once a process died while the stored
  annotations accounted for its nodes.
- `Coverage.RecoversKept`: the to-run annotation it loads holds every scheduled node without a Job. Reading a
  version not older than the scheduling (`RecoversAfterScheduling`) is enough.
- `Lifetimes.SchedulesOnce`: a pass that goes to scheduling finds no to-run record. Reads that never go back
  within a process (`ReadsForward`) are enough.
- `Termination.Smooth`: nothing fails, and Jobs are done before the next pass.

The first three are exact: `Exactness.dfy` shows for each that one read violates it if and only if something
that can follow breaks the result. It does the same for the two events that can do harm without a read: a death
(`DeathExactly`) and a Job whose reply is lost (`LostReplyExactly`). `Runs.dfy` gives, event by event, runs that break a result outside its
premise, and runs that end in a panic. `SmoothRuns.dfy` shows that the fourth can be met for any nodes.

| protocol step | source |
|---|---|
| `BeginStep` | reading the CR, the choice between scheduling and the queue, recovery (`controllers/sosreport_controller.go` 124-171, 677-711) |
| `NodesListedStep` | the node list and its three outcomes (614-651) |
| `JobsListedStep` | dequeue, and whether its write is due (514-546) |
| `WrittenStep` | the answer to a write, errors ignored (441-462) |
| `ClaimAskedStep`, `JobAskedStep` | one turn of the loop that starts nodes (728-762) |
| `LoopLeftStep` | moving nodes, both annotations, the panic on a nil annotation map (764-789) |
| `MirroredStep` | status lists and the test for the end (186-192, 200-223, 656-672) |
| `Restarted` | a crash or a panic: all records are forgotten (79-85) |

`Phases`, `Coverage`, `Lifetimes`, `Mirror`, `Queue` and `Termination` prove the run theorems. Each has one
invariant or a few, kept by small lemmas per group of events. `Settling` adds that a pass writes annotations only
when there is something to record. `Steps` says of each event on its own where it leads and when a write is due.

`Reconciler.dfy` is the program: a class with the fields and methods of `SosreportReconciler`, real loops and
real maps keyed by UID, annotations as JSON texts, and `Cluster.dfy` as the server. Every method says which
protocol events it went through (`es`), that the object and the server now show `Exec(st, es)`, that the
ghost call log grew by exactly the answers in `es`, and that other UIDs are as before. A pass also says which
version it was given and which concurrency the ConfigMap answered (`WhatWasRead`).

`Operation.dfy` puts passes over any CRs, new CRs, foreign writes, ending Jobs and process deaths in any order and
shows that each CR has lived through one run of its own, so the run theorems hold of the stored objects. The
events of a pass of one CR follow one another without events of other actors in between; those are in the
protocol, and the class meets their effects as refused writes, stale reads and old lists. A death between two
calls of a pass is in the protocol too. On the class it needs no method of its own: `Crashes.dfy` shows that it
leaves exactly what a pass leaves whose further calls all fail, followed by a death after the pass.

`Codec` (annotation texts), `Naming`, `Tolerations`, `Configuration`, `Environment` and `PwDecoder` stand alone.

## What the code does differently from what it says

- The comment at `controllers/sosreport_controller.go` 659 says done if either list is empty; the code takes
  both (660-661), and so does the model.
- `refreshSosreport` (467-474) assigns its own pointer, so callers keep the copy the write left them with. The
  model has no refresh.
- The UID goes on the run list before the nodes are listed (157-160). A failed or empty node list therefore
  ends, a pass later, in Finished with nothing run (`Runs.FailedListEndsFinished`); in a process that never
  died nothing else does (`Queue.FinishedWithoutDeaths`).
- A create that reports an error is skipped (749-753), also when its Job was stored; the node can then get a second
  Job, beyond the concurrency (`Runs.LostReplyStartsTwice`), unless the pass is about to panic on a nil annotation
  map (`Exactness.LostReplyExactly`).
- The dequeue (520-535) goes by the node of a Job, not by the process that made it: a done Job of an earlier process
  frees a node that the new process has started again (`Runs.EarlierJobFreesItsNode`).
- `runSosreportJobs` assigns into the annotation map, which is nil after a failed Job list on a CR without
  annotations, and then panics (`Runs.FailedListsPanic`); so does a CR name of more than 43 characters once a
  node is due (`Runs.LongNamePanics`). `Controller.Reconciler.Reconcile` has the exact condition.
- A node can be lost, or a CR be Finished early, when a new process recovers from a version that is not
  current, or when a process dies whose scheduling was not stored; the comment at 79-80 speaks of the caching delay
  only for scheduling. The runs are in `Runs.dfy`, the exact conditions in `Exactness.dfy`.

## Model

| member | source | states |
|---|---|---|
| `Coverage.FinishedMeansDone` | controllers/sosreport_controller.go:188-192 | Once the latest scheduling is kept, in every run whose recoveries load what covers it: between any two API calls each scheduled node is to run, running, or has a done Job, both in memory (once loaded) and in the stored pair of annotations; and when Finished is stored, each has a done Job. Crashes, refused writes, lost replies and failed creates included. Kept means stored, by the write of the scheduling or by a later queue write of the same process, or that what was stored accounted for the nodes when the process died. Both premises are exact (`Exactness.CoverageExactly`, `Exactness.DeathExactly`), and current reads meet the first (`Coverage.CurrentReadsSuffice`). |
| `Queue.FinishedWithoutDeaths` | controllers/sosreport_controller.go:157-195 | As long as the process never died, Finished means done with no premise on writes or reads; so a Finished CR has no Job exactly when nothing was scheduled. |
| `Queue.AliveRun` | controllers/sosreport_controller.go:157-195 | The invariant behind it: Jobs are for scheduled nodes, and only a pass that found nothing left stores Finished. |
| `Coverage.SchedulerRemembers` | controllers/sosreport_controller.go:643-651 | While the process that scheduled lives, every scheduled node is to run or has a Job, and is to run, running or done, in its records: stored or not, whatever is read and whatever fails. |
| `Coverage.OwnRun` | controllers/sosreport_controller.go:643-651 | The invariant behind it. |
| `Exactness.CoverageExactly` | controllers/sosreport_controller.go:677-711 | In any state reached so far under the premise, and at any concurrency: when what a version loads covers the scheduled nodes, alone and beside the stored to-run annotation, every node stays accounted for in everything that can follow with current recovery reads; when it does not, something that can follow leaves a node out. The second half is for CR names of at most 43 characters, or a concurrency of at most 0. |
| `Exactness.DeathExactly` | controllers/sosreport_controller.go:677-711 | With no premise on the run so far: what is stored when the process dies accounts for the scheduled nodes if and only if they stay accounted for, in memory and in what is stored, in everything that can follow with current recovery reads and no new scheduling. |
| `Coverage.CurrentReadsSuffice` | controllers/sosreport_controller.go:677-711 | Runs whose recovery reads are current meet the premise of FinishedMeansDone. |
| `Coverage.CoverRun` | controllers/sosreport_controller.go:514-554 | The invariant behind FinishedMeansDone holds in every reachable state, also between the two halves of a half-written annotation pair. |
| `Coverage.NoNodeIsLost` | controllers/sosreport_controller.go:764-789 | Once the scheduling is stored, the to-run entry and the stored to-run annotation each still hold every scheduled node that has no Job, in every run whose recoveries load a to-run annotation that does. The premise is exact (`Exactness.KeptExactly`), and reads not older than the scheduling meet it. |
| `Exactness.KeptExactly` | controllers/sosreport_controller.go:679-691 | In any state reached so far under the premise: the to-run annotation of a version is complete if and only if recovering from it loses nothing in anything that can follow with reads not older than the scheduling. |
| `Coverage.KeptSinceScheduling` | controllers/sosreport_controller.go:679-691 | Reads not older than the stored scheduling meet the premise of NoNodeIsLost, from the start and after any run that met it. |
| `Coverage.LostRun` | controllers/sosreport_controller.go:677-711 | The invariant behind it, for every stored version since the scheduling. |
| `Lifetimes.AtMostOneJobPerNode` | controllers/sosreport_controller.go:151-160 | Within one process no node gets two Jobs whose creation was reported, for every pattern of failed and lost creates and CR writes and for stale reads, as long as a pass that schedules finds no to-run entry. A second Job is possible only beside one that was stored although its create reported an error; when it is: `Exactness.LostReplyExactly`. |
| `Exactness.LostReplyExactly` | controllers/sosreport_controller.go:747-762 | In a process whose Jobs were all reported so far, the answer to a Job create is harmless, that is, all Jobs of the process stay on distinct nodes in everything that can follow with no further reply lost, if and only if the reply is not lost or the pass works on a copy without annotations, which panics. Otherwise the node is visited again and gets a second Job. |
| `Exactness.LastReadRun` | controllers/sosreport_controller.go:151-160 | In every run the version a queue pass has read would send the next pass to the queue again. |
| `Exactness.OnceExactly` | controllers/sosreport_controller.go:153-160 | The premise is exact: in a process that has a reported Job, going to scheduling again is harmless in all that can follow if and only if it finds no to-run entry. |
| `Lifetimes.ForwardReadsSuffice` | controllers/sosreport_controller.go:79-81 | Reads that never go back to an older version meet the premise, because the run list allows one scheduling. |
| `Lifetimes.ReadsRun` | controllers/sosreport_controller.go:79-81 | The invariant behind it. |
| `Lifetimes.OnceRun` | controllers/sosreport_controller.go:758-771 | The invariant behind it: a node with a reported Job of this process is still to run only inside the loop that started it. |
| `Lifetimes.RunningNeverExceedsCap` | controllers/sosreport_controller.go:722-731 | In every run, restarts included: the running entry and every stored running annotation hold at most as many nodes as the largest concurrency read so far; one loop starts at most the concurrency of its own pass minus the running nodes, and none when that is negative; with no positive concurrency read, no Job exists. |
| `Lifetimes.CapRun` | controllers/sosreport_controller.go:764-789 | The invariant behind it. |
| `Lifetimes.OpenJobsNeverExceedCap` | controllers/sosreport_controller.go:520-535 | In every process: the Jobs not done are at most the largest concurrency read, plus one for each Job of an earlier process and each Job stored although its create reported an error. In a process that found no Job at its start only the latter count. `Runs.EarlierJobFreesItsNode` and `Runs.LostReplyStartsTwice` reach the bounds. |
| `Lifetimes.OpenRun` | controllers/sosreport_controller.go:758-771 | The invariant behind it, for every process: a reported Job that is not done is on a running or just started node, or was dequeued for a done Job of its node that the process did not report. |
| `Phases.PhaseSafety` | controllers/sosreport_controller.go:138-141 | In every run the stored pair (InProgress, Finished) starts at (false, false), only advances to (true, false) and (false, true), is never (true, true), and never leaves (false, true). |
| `Phases.SoundRun` | controllers/sosreport_controller.go:153-166 | The structural invariant of all runs: versions only advance in phase, the copy in flight is one of them with pending edits, the loop visits to-run nodes once. |
| `Mirror.StatusMirrorsQueue` | controllers/sosreport_controller.go:200-223 | Whenever the pass is about to write the status, its two lists enumerate the running and to-run entries in memory without repetition, and Finished is set exactly when both are empty; every stored Finished status has empty lists. This holds whether the CR write before succeeded or not. |
| `Mirror.MirrorRun` | controllers/sosreport_controller.go:764-789 | The invariant behind it. |
| `Mirror.JobsPairWithClaims` | controllers/sosreport_controller.go:739-753 | In every run each Job mounts the claim named after it, created before it; Job names and claims are pairwise distinct; the claims are the Jobs, plus the claims without a Job (claim stored with an error, Job create failed, or cut off by a crash), plus the one in flight: an exact count. |
| `Mirror.PairRun` | controllers/sosreport_controller.go:823-824 | The invariant behind it. |
| `Queue.RefinesQueue` | controllers/sosreport_controller.go:151-195 | Every step of a process that has not died moves nodes only from pending to active to over; the three sets stay disjoint and add up to the scheduled set, and every node that is over has a done Job. |
| `Queue.QueueRun` | controllers/sosreport_controller.go:514-546 | The partition holds in every reachable state of such a run. |
| `Queue.WorkFalls` | controllers/sosreport_controller.go:764-771 | Once both entries are loaded, twice the to-run nodes plus the running nodes falls on each step of the process by at least the number of nodes it starts or dequeues, and never rises. |
| `Termination.FinishesAtExactlyThisPass` | controllers/sosreport_controller.go:716-792 | With every call succeeding, concurrency c > 0 and all Jobs done before the next pass, the CR is Finished at the end of pass ceil(N / c) + 1 after scheduling N nodes: not at an earlier pass end, and there is no later pass. |
| `Settling.NothingNewNothingWritten` | controllers/sosreport_controller.go:774-789 | When the stored annotations are the texts of the records, a pass over the latest version that sees no running node done and starts nothing calls no update of the CR, whatever fails in it: at its end the records hold the same nodes and the store has gained at most a status. |
| `Settling.PassSettles` | controllers/sosreport_controller.go:514-546 | From any reachable state, a queue pass over the latest version whose writes succeed leaves annotations that are the texts of the records, so that NothingNewNothingWritten applies to the next pass. |
| `SmoothRuns.SomeRunFinishes` | controllers/sosreport_controller.go:716-792 | For any nodes whose Job names differ and any concurrency c > 0 such a run exists and reaches that pass. |
| `Termination.PaceRun` | controllers/sosreport_controller.go:722-762 | After k such passes exactly N - k*c nodes (or none) are left to run. |
| `Termination.NeverFinishesOnceConcurrencyIsGone` | controllers/sosreport_controller.go:722-731 | From any point at which no loop with room for another Job is under way, whatever ran before: when only concurrencies of at most 0 are read from then on, a scheduled node that has no Job gets none, and the CR is never Finished while a kept scheduling holds that node, under the premise of FinishedMeansDone. |
| `Termination.NeverFinishesWithoutConcurrency` | controllers/sosreport_controller.go:729-731 | The special case that no positive concurrency was ever read: a kept scheduling of at least one node starts nothing and never becomes Finished. |
| `Runs.FailedListEndsFinished` | controllers/sosreport_controller.go:157-164 | A run in which the node list fails and the CR still becomes Finished with nothing scheduled and nothing run: the UID is on the run list before the list is tried. |
| `Runs.UnstoredSchedulingIsLost` | controllers/sosreport_controller.go:643-651 | A run in which the annotation write of the scheduling is refused, the process dies, and the next one makes the CR Finished without a Job. |
| `Runs.StaleRecoveryFinishesEarly` | controllers/sosreport_controller.go:679-702 | A run that recovers from an old version not older than the scheduling and becomes Finished while the Job still runs: FinishedMeansDone needs current recovery reads. |
| `Runs.HalfStoredPairIsBoth` | controllers/sosreport_controller.go:538-545 | A run with current recovery reads in which the queue write is refused and the next dequeue write is not: after a death the node is both to run and running while its Job is open, so RefinesQueue cannot speak of later processes. |
| `Runs.OlderRecoveryLosesANode` | controllers/sosreport_controller.go:679-691 | A run whose reads never go back and that loses a node by recovering from a version older than the scheduling: NoNodeIsLost needs its premise. |
| `Runs.GoingBackStartsTwice` | controllers/sosreport_controller.go:153-160 | A run that reads back to before the scheduling and starts a node twice in one process: AtMostOneJobPerNode needs its premise. |
| `Runs.LostReplyStartsTwice` | controllers/sosreport_controller.go:749-753 | A run with reads that never go back in which a Job is stored although its create reports an error: its node gets a second Job, and both are open at concurrency 1. |
| `Runs.EarlierJobFreesItsNode` | controllers/sosreport_controller.go:520-535 | A run with reads that never go back and no lost reply in which a process restarts a node, a done Job of an earlier process frees it, and another node is started: two Jobs are open at concurrency 1, as many as OpenJobsNeverExceedCap allows. |
| `Runs.FailedListsPanic` | controllers/sosreport_controller.go:776-777 | A run in which the node list and then the Job list fail, and the process that nobody killed dies. |
| `Runs.LongNamePanics` | controllers/sosreport_controller.go:817-821 | A run over a CR name of more than 43 characters that does the same, with its node still to run. |
| `Crashes.DyingIsFailing` | controllers/sosreport_controller.go:716-792 | Dying between any two calls leaves records and store exactly as when all further calls of the pass fail and the process dies after it. |
| `Steps.EachEntryRecovered` | controllers/sosreport_controller.go:677-711 | Each record is recovered on its own; only an unreadable to-run annotation keeps the running record missing. |
| `Steps.ReadLeadsTo` | controllers/sosreport_controller.go:138-171 | Where reading a version leads, by its phase and the run list; nothing is stored by it. |
| `Steps.NodeListLeadsTo` | controllers/sosreport_controller.go:614-651 | The three outcomes of the node list, what is recorded in each, and which write comes next. |
| `Steps.JobListLeadsTo` | controllers/sosreport_controller.go:514-546 | Exactly the nodes seen done leave the running record, and the write is due exactly when the annotation is not its text. |
| `Steps.WriteLeadsTo` | controllers/sosreport_controller.go:441-462 | The next step does not depend on the answer, and what is stored keeps the other half. |
| `Steps.ClaimLeadsTo` | controllers/sosreport_controller.go:733-745 | One visit per node; only a claim reported as created leads to the Job. |
| `Steps.JobLeadsTo` | controllers/sosreport_controller.go:747-762 | What is stored, and that only a reported Job uses budget. |
| `Steps.LoopLeadsTo` | controllers/sosreport_controller.go:764-789 | Exactly the started nodes move, and the write is due exactly when an annotation is not the text of its record. |
| `Steps.MirrorLeadsTo` | controllers/sosreport_controller.go:185-192 | The status written is Finished exactly when it was or no node is left in memory, and not in progress then. |
| `Steps.DeathForgets` | controllers/sosreport_controller.go:79-85 | A dead process leaves the store as it is. |
| `Steps.TextOfEntry` | controllers/sosreport_controller.go:538 | A missing record is annotated as null. |
| `Runs.OneNodeDone` | controllers/sosreport_controller.go:188-194 | The premises of FinishedMeansDone can be met up to Finished: one node, two passes. |
| `Controller.Reconciler.Reconcile` | controllers/sosreport_controller.go:116-198 | For any CR, one pass goes through protocol events whose answers are, in order, the calls it made, begins with the version the server gave and the concurrency it answered, and ends in the records and the store those events lead to. It panics exactly when its queue pass gets a Job list after which a name has to be cut below nothing or annotations go into a nil map. Every other Sosreport keeps records, versions, Jobs and claims, except that a panic makes all records forgotten. |
| `Controller.Reconciler.Pass` | controllers/sosreport_controller.go:123-198 | The same up to the end or the panic; a CR that is not found leaves everything alone. |
| `Controller.Reconciler.PassOver` | controllers/sosreport_controller.go:138-149 | Finished CRs are not touched and no configuration is read; otherwise it is read before the pass begins, and the concurrency is the one answered. |
| `Controller.Reconciler.Dispatch` | controllers/sosreport_controller.go:151-195 | Nodes are listed exactly when the UID is not on the run list and InProgress is false; otherwise Jobs are, after recovery. What follows is the protocol's run. |
| `Controller.Reconciler.SetGlobalConfiguration` | controllers/sosreport_controller.go:258-314 | Concurrency, storage class, capacity and log level after the call depend only on the two ConfigMap answers; the concurrency is the number the second one gives, which may be negative, or 1. |
| `Controller.Reconciler.AskForGlobal` | controllers/sosreport_controller.go:275-293 | The concurrency is the number under the key concurrency, whatever its sign, and 1 when the ConfigMap, the key or the number is missing; storage class and capacity are the texts under their keys, or nothing and 10Gi. |
| `Controller.Reconciler.AskForDebug` | controllers/sosreport_controller.go:264-274 | Debugging is on exactly for the text true. |
| `Controller.Reconciler.SetDevelopmentConfiguration` | controllers/sosreport_controller.go:320-350 | Image and command are the texts given or the defaults; the pull policy is the text given exactly when Kubernetes knows it, and empty otherwise. |
| `Controller.Reconciler.ReadConfiguration` | controllers/sosreport_controller.go:146-149 | All seven settings after it are those of the three answers, asked anew in the order of the source: log level from the first, concurrency (the number given, or 1), storage class and capacity from the second, image, command and pull policy from the third. |
| `Configuration.LargestConcurrencyGrows` | controllers/sosreport_controller.go:276-284 | The largest concurrency answered so far never falls and bounds every answer. |
| `Configuration.ConcurrencyIsTheNumber` | controllers/sosreport_controller.go:276-284 | The concurrency of an answer is its number, or 1. |
| `Configuration.LargestIsSaid` | controllers/sosreport_controller.go:276-284 | The largest concurrency bounds what every answer of the global ConfigMap says, and some answer says it. |
| `Configuration.SettingIsTheText` | controllers/sosreport_controller.go:285-292 | A setting is the text under its key, or its default. |
| `Controller.CapIsTheNumber` | controllers/sosreport_controller.go:276-306 | The concurrency a pass works with is the number in the ConfigMap it was given. |
| `Controller.Reconciler.StartSosreport` | controllers/sosreport_controller.go:154-166 | After a failed list nothing is written; an empty one leads to the status alone; a list of nodes to the annotations and then the status. |
| `Controller.Reconciler.ScheduleSosreportJobs` | controllers/sosreport_controller.go:614-654 | An error exactly when the list failed, in progress exactly when nodes were listed; eligible names are recorded in memory, annotated, and written with one update. |
| `Controller.Reconciler.ScheduleOnNodes` | controllers/sosreport_controller.go:632-651 | Eligible names are recorded, annotated and written, whatever the answer to the write. |
| `Controller.Reconciler.RecordToRun` | controllers/sosreport_controller.go:643-649 | The to-run entry and its annotation hold the same names, and a nil annotation map is made first. |
| `Controller.Reconciler.EligibleNodeNames` | controllers/sosreport_controller.go:632-641 | A name is in the result exactly when a listed node whose taints are all tolerated carries it under kubernetes.io/hostname, or has no such label and the name is empty. |
| `Controller.Reconciler.SynchronizeJobRunningCache` | controllers/sosreport_controller.go:677-711 | Each entry on its own: present ones stay, and without an error a missing one becomes what its annotation parses to, or stays missing when there is none. It ends with an error exactly when a missing entry has an unreadable annotation; only an unreadable to-run annotation keeps the running entry from being loaded. |
| `Controller.Reconciler.GetSosreportJobs` | controllers/sosreport_controller.go:482-508 | The Jobs of the answered list whose first controlling owner is this Sosreport, all of them and no others, in the order listed. |
| `Controller.Reconciler.DequeueSosreportJobsDone` | controllers/sosreport_controller.go:514-554 | Done nodes leave the running entry, the annotation follows, and the update is called once when the annotation changed and not otherwise; after a failed list nothing changes, not even a nil annotation map, which is the only way the map stays nil. |
| `Controller.Reconciler.RunningAfterList` | controllers/sosreport_controller.go:516-546 | What follows the answer to the list; after an error nothing does. |
| `Controller.Reconciler.ListForDequeue` | controllers/sosreport_controller.go:515-519 | Every node the answered list shows done, however old the list, has a done Job. |
| `Controller.Reconciler.StoreRunning` | controllers/sosreport_controller.go:520-546 | The same for a successful list. |
| `Controller.Reconciler.RecordRunning` | controllers/sosreport_controller.go:520-543 | Entry and annotation after the loop over the listed Jobs; a write is due exactly when the annotations changed. |
| `Controller.Reconciler.AnnotateRunning` | controllers/sosreport_controller.go:538-543 | With the done nodes gone, a write is due exactly when the annotation changes, and then it holds the text of the running entry. |
| `Controller.Reconciler.ForgetDone` | controllers/sosreport_controller.go:520-536 | A node stays in the running entry exactly when it was there and no listed Job of it has a true Complete or Failed condition; a nil entry stays nil, and other UIDs' records stay. |
| `Controller.Reconciler.WriteRunning` | controllers/sosreport_controller.go:542-545 | The update is called once when due, and not otherwise; whatever its answer the loop over the to-run nodes comes next. |
| `Controller.Reconciler.RunSosreportJobs` | controllers/sosreport_controller.go:716-792 | The run step panics exactly when the CR has no annotation map, or its name exceeds 43 characters with a node to start and room for it; otherwise entries, annotations, Jobs and claims are those of the protocol. |
| `Controller.Reconciler.StartNodes` | controllers/sosreport_controller.go:726-762 | The loop visits to-run nodes in any order until the budget is used up; failed templates, claims and Jobs are skipped and do not use budget. |
| `Controller.Reconciler.StartNode` | controllers/sosreport_controller.go:733-758 | One node: template, claim, Job; the node counts as started exactly when both creates reported success, whatever was stored; a name that cannot be cut panics before any call. |
| `Controller.Reconciler.CreateBoth` | controllers/sosreport_controller.go:739-753 | The Job is asked for only after a reported claim. |
| `Controller.Reconciler.AskForClaim` | controllers/sosreport_controller.go:739-745 | The claim is the Job's name with -pvc, controlled by the Sosreport, and new; an error may still leave it stored. |
| `Controller.Reconciler.AskForJob` | controllers/sosreport_controller.go:747-753 | The Job has the name, the node, that claim, the Sosreport as its controller, and no conditions; an error may still leave it stored. |
| `Controller.Reconciler.MoveStarted` | controllers/sosreport_controller.go:764-771 | All started nodes leave the to-run entry and join the running entry, which exists afterwards. |
| `Controller.Reconciler.MoveOne` | controllers/sosreport_controller.go:768-771 | One node moves; deleting from a nil to-run map does nothing. |
| `Controller.Reconciler.RecordQueues` | controllers/sosreport_controller.go:764-786 | Both annotations follow their entries; a nil annotation map panics, always; the update is due exactly when an annotation changed. |
| `Controller.Reconciler.Refresh` | controllers/sosreport_controller.go:775-780 | The string inequality fires exactly when the annotation is not the printed set, and then the text is replaced. |
| `Controller.Reconciler.StoreQueues` | controllers/sosreport_controller.go:764-789 | Moving, annotating and writing together, with the panic condition; the update is called once when an annotation changed, and not at all otherwise. |
| `Controller.Reconciler.MirrorStatus` | controllers/sosreport_controller.go:185-192 | Both lists come from the annotations of the copy in flight; Finished comes from the entries in memory. |
| `Controller.Reconciler.NamesOf` | controllers/sosreport_controller.go:204-211 | The loop over the parsed map lists each name once; a missing or unreadable annotation gives no names. |
| `Controller.Reconciler.SynchronizeRunningStatus` | controllers/sosreport_controller.go:200-223 | Both lists are replaced by enumerations of their annotations; phase flags stay. |
| `Controller.Reconciler.IsSosreportJobsDone` | controllers/sosreport_controller.go:656-672 | True exactly when both entries are missing or empty: the conjunction the code has, not the alternative its comment names. |
| `Controller.Reconciler.Update` | controllers/sosreport_controller.go:441-449 | A write of annotations: a write answered with success replaces the copy, any other answer leaves the copy and the pass goes on with it. |
| `Controller.Reconciler.UpdateStatus` | controllers/sosreport_controller.go:454-462 | A write of the status ends the pass whatever the answer. |
| `Controller.Reconciler.FinishPass` | controllers/sosreport_controller.go:185-194 | Mirroring and the status write together end the pass. |
| `Controller.Reconciler.WorkOnQueue` | controllers/sosreport_controller.go:173-194 | Dequeue, run, mirror and finish in this order; a failed dequeue does not stop the pass. It panics exactly when the answered Job list leaves a nil annotation map, or a node to start under a name longer than 43 characters. |
| `Controller.Reconciler.RunAndFinish` | controllers/sosreport_controller.go:178-194 | Run, mirror and finish, with the same exact panic condition on the records. |
| `Controller.Reconciler.constructor` | controllers/sosreport_controller.go:81-91 | A new process remembers nothing. |
| `Controller.IsJobDone` | controllers/sosreport_controller.go:572-580 | The loop with its early return decides whether some condition is of kind Complete or Failed and true. |
| `Controller.ObjectGetController` | controllers/sosreport_controller.go:560-567 | The loop returns the first owner that is a controller, and nothing exactly when none is. |
| `Cluster.ApiServer.Write` | controllers/sosreport_controller.go:441-445 | A write from an old version is refused and changes nothing; an accepted one appends one version and hands it back; a lost reply appends it and leaves the copy old. |
| `Cluster.ApiServer.Get` | controllers/sosreport_controller.go:124 | A read gives some stored version, and the server records which of how many. |
| `Cluster.ApiServer.Update` | controllers/sosreport_controller.go:444 | What is stored has the annotations sent and the stored status; other CRs see nothing. |
| `Cluster.ApiServer.UpdateStatus` | controllers/sosreport_controller.go:457 | What is stored has the status sent and the stored annotations; other CRs see nothing. |
| `Cluster.ApiServer.CreateClaim` | controllers/sosreport_controller.go:741 | A taken name is refused; a stored claim shows up for its owner only; success is reported only for a stored claim, an error for any. |
| `Cluster.ApiServer.CreateJob` | controllers/sosreport_controller.go:749 | The same for Jobs. |
| `Cluster.ApiServer.ListJobs` | controllers/sosreport_controller.go:485 | A list is an old or current view of stored Jobs, whose conditions only grow. |
| `Cluster.OwnJobsAreOwned` | controllers/sosreport_controller.go:489-506 | Filtering by controller keeps the owned Jobs, all of them and no others, and only views of stored ones. |
| `Cluster.OwnedByFirstController` | controllers/sosreport_controller.go:489-506 | A Job belongs to a Sosreport exactly when its first controlling owner is of kind Sosreport and has its UID. |
| `Cluster.DoneMeansEnded` | controllers/sosreport_controller.go:572-580 | Done means a condition Complete or Failed whose status is True. |
| `Cluster.DoneNodesEnded` | controllers/sosreport_controller.go:520-535 | The nodes dequeued for a list are those of its ended Jobs. |
| `Cluster.AnswersAre` | controllers/sosreport_controller.go:515-535 | What an answered list of Jobs means to the protocol: the nodes of the ended Jobs of this Sosreport. |
| `Cluster.NodeAnswerIs` | controllers/sosreport_controller.go:622-632 | An error, no nodes, or the eligible names. |
| `Cluster.SeenOfTheStore` | controllers/sosreport_controller.go:643-649 | Which annotations and which fields of a Job the protocol sees. |
| `Cluster.TextsCompareSets` | controllers/sosreport_controller.go:542 | The write tests compare texts, and that is comparing sets, including missing annotations, nil maps and texts the operator did not write. |
| `Cluster.ParsedIsParse` | controllers/sosreport_controller.go:681-685 | What recovery reads depends on the text alone. |
| `Cluster.AnnotationWritten` | controllers/sosreport_controller.go:649 | Writing one annotation does not disturb the other. |
| `Operation.Operate` | controllers/sosreport_controller.go:244-253 | Any number of passes over any CRs in any order, new CRs, foreign writes, ending Jobs and process deaths: every CR is where one protocol run, its own, leads; that run knows no concurrency the ConfigMap did not answer, and no old read unless the server gave one of that CR. Deaths inside a pass are covered by `Crashes.DyingIsFailing`. |
| `Operation.Work` | controllers/sosreport_controller.go:116-198 | A pass extends the run of its own CR by a read of the version the server gave, with the concurrency it answered, and by the calls it made; it leaves every other run as it was, or adds a crash to it exactly when the process panics. |
| `Operation.PassOn` | controllers/sosreport_controller.go:116-198 | The same as its own CR sees it. |
| `Operation.End` | controllers/sosreport_controller.go:572-580 | A Job that completes, or fails, is one event in the run of its owner and invisible to all others. |
| `Operation.Kill` | controllers/sosreport_controller.go:79-85 | A killed process is a crash in every run. |
| `Operation.Apply` | controllers/sosreport_controller.go:123-124 | A new CR starts a run of its own. |
| `Operation.Touch` | controllers/sosreport_controller.go:441-445 | A write by somebody else that keeps the records is one event of its own run. |
| `Operation.JobsAfterEnd` | controllers/sosreport_controller.go:482-508 | A Job that completes, or fails, becomes done at one place of its owner's list and changes no other list. |
| `Operation.FinishedOnTheCluster` | controllers/sosreport_controller.go:188-192 | On the stored objects: a CR whose latest version says Finished has, for every scheduled node, a stored Job it controls with a true Complete or Failed condition, when no process died since it was applied, or when its scheduling was kept and its own recoveries loaded what covers it. |
| `Operation.CurrentOnTheCluster` | controllers/sosreport_controller.go:116-149 | The premises from what the server recorded: when every read of this one CR gave its latest version, its recoveries loaded what covers the scheduling and no pass scheduled over a to-run entry. Reads of other CRs do not matter. |
| `Operation.OnceOnTheCluster` | controllers/sosreport_controller.go:151-160 | On the stored objects: when no pass of the CR scheduled over a to-run entry, two Jobs of it and of one process whose creation was reported are for different nodes. |
| `Operation.SafeOnTheCluster` | controllers/sosreport_controller.go:138-141 | On the stored objects and without premises: phases only advance, the running set in memory and the one every stored job-running-list text reads as are within the largest concurrency the ConfigMap ever answered, and claims are Jobs plus orphans, for every CR of the cluster. |
| `Operation.MoreReads` | controllers/sosreport_controller.go:116-149 | What the server records of the reads of a CR decides whether its run stays current, and which concurrencies it knows. |
| `Codec.RoundTrip` | controllers/sosreport_controller.go:643-649 | A printed set, nil or not, is read back as that very set. |
| `Codec.PrintIsCanonical` | controllers/sosreport_controller.go:538-545 | Two texts are equal exactly when the sets are, nil apart from empty. |
| `Codec.PrintedText` | controllers/sosreport_controller.go:538-545 | The texts themselves: null, {}, or the least name quoted with the value {}, a comma, and the rest in the same way. |
| `Codec.BeforeIsLexicographic` | controllers/sosreport_controller.go:538 | The order of the keys is the one of dictionaries. |
| `Codec.ParseExactly` | controllers/sosreport_controller.go:681-685 | The texts that are read: null, and objects with any keys in any order, repeated or not. |
| `Codec.SortedKeysAreUnique` | controllers/sosreport_controller.go:538 | However a map is visited, sorting its keys gives one sequence, so the text does not depend on the order. |
| `Codec.ParseThePrinted` | controllers/sosreport_controller.go:683-685 | Parsing the members of a printed object gives exactly its keys. |
| `Naming.NamesFit` | controllers/sosreport_controller.go:812-824 | A name can be built exactly when the CR name has at most 43 characters, for every node; then Job names have at most 59 and claim names at most 63. |
| `Naming.NamesAre` | controllers/sosreport_controller.go:812-824 | The names written out: CR name, first label of the node cut to 43 characters less those of the CR name, time stamp; and the claim suffix. |
| `Naming.NamesCollideExactly` | controllers/sosreport_controller.go:818-823 | For one CR, Job names are equal exactly when the cut host labels and the 14-character stamps are. |
| `Naming.ClaimNameInjective` | controllers/sosreport_controller.go:824 | Distinct Jobs get distinct claims. |
| `Naming.FirstLabel` | controllers/sosreport_controller.go:818 | The part before the first dot, or all of it when there is none. |
| `Tolerations.Tolerates` | controllers/sosreport_controller.go:585-609 | The nested loop with its break and its last-index test decides: every taint is tolerated by some toleration. |
| `Tolerations.MoreTolerationsMoreNodes` | controllers/sosreport_controller.go:632-641 | The scheduled set only grows with more tolerations, and untainted nodes are always in it. |
| `Tolerations.EligibleAreLabels` | controllers/sosreport_controller.go:632-641 | The scheduled names are the host name labels of tolerated nodes, the empty name for a node without the label. |
| `Tolerations.AllMeansAll` | controllers/sosreport_controller.go:585-609 | Tolerated means: for every taint there is a toleration. |
| `Environment.GetEnvConfigurationFromConfigMapAndSecret` | controllers/sosreport_controller.go:355-407 | For every visiting order: each of the six upload, two development and two secret variables is set exactly when its source has its key, to the value there; credentials come from the Secret only, with newlines trimmed. |
| `Environment.AddSource` | controllers/sosreport_controller.go:377-382 | One loop over a source, in any order, overrides exactly the variables its table reaches. |
| `Environment.OriginInvertsTheTables` | controllers/sosreport_controller.go:356-371 | The three key tables are injective with disjoint ranges. |
| `Environment.MergeIsUnique` | controllers/sosreport_controller.go:373-406 | What two merges of the same sources return is the same map, in whatever orders they visited the entries. |
| `Environment.TrimCutsOnlyNewlines` | controllers/sosreport_controller.go:402 | Only newlines are cut off, and none is left at either end. |
| `Environment.MapToEnvVarArr` | controllers/sosreport_controller.go:797-806 | The array holds every variable of the map once, with its value. |
| `PwDecoder.PasswordRoundTrip` | containers/scripts/pw_decoder.py:25-44 | Encoding yields nothing exactly for an empty argument; otherwise decoding with the same key gives the password back, the text has 4*ceil(n/3) characters, all of the URL-safe alphabet but for '=' in the last two places. |
| `PwDecoder.WrongKeysShow` | containers/scripts/pw_decoder.py:25-44 | Another key gives the password back exactly when both keys, repeated, agree over its length. |
| `PwDecoder.Base64RoundTrip` | containers/scripts/pw_decoder.py:32 | Decoding undoes encoding in all three padding cases. |
| `PwDecoder.OnlyEncodingsDecode` | containers/scripts/pw_decoder.py:32 | Every text the strict decoder accepts is the encoding of what it yields. |
| `PwDecoder.Base64Shape` | containers/scripts/pw_decoder.py:42 | Length and alphabet of an encoding. |
| `PwDecoder.GroupIsTheSameNumber` | containers/scripts/pw_decoder.py:42 | Four characters carry the 24 bits of three bytes, most significant first. |
| `PwDecoder.XorLoop` | containers/scripts/pw_decoder.py:20-23 | The loop over the cycling key is the XOR with the key repeated for ever; an empty key gives nothing. |
| `PwDecoder.CycledIsModulo` | containers/scripts/pw_decoder.py:21 | The repeated key at place i is the key at i modulo its length. |
| `PwDecoder.XorTwice` | containers/scripts/pw_decoder.py:20-23 | XOR with the same key twice is the identity. |
| `PwDecoder.XorCovers` | containers/scripts/pw_decoder.py:20-23 | Byte i is XORed with byte i modulo its length of the key. |
| `PwDecoder.Encode` | containers/scripts/pw_decoder.py:35-44 | The entry point with the loop computes the specified encoding: the base64 text of the password with byte i of it XORed with byte i modulo its length of the key. |
| `PwDecoder.Decode` | containers/scripts/pw_decoder.py:25-34 | The entry point with the loop computes the specified decoding: nothing exactly for an empty argument, an error exactly for a text that encodes nothing, and otherwise the encoded bytes XORed with the repeated key. |

## Left out

- Coverage.NoNodeIsLost: holds under `RecoversKept` and once the scheduling is stored; outside the premise the property fails (`Runs.OlderRecoveryLosesANode`, and exactly then: `Exactness.KeptExactly`).
- Coverage.FinishedMeansDone: holds under `RecoversCovered` for a scheduling that was stored, or whose nodes what was stored accounted for when a process died; outside either the property fails (`Runs.StaleRecoveryFinishesEarly`, exactly then: `Exactness.CoverageExactly`; `Runs.UnstoredSchedulingIsLost`, exactly then: `Exactness.DeathExactly`). A process that never died needs neither (`Queue.FinishedWithoutDeaths`).
- Lifetimes.AtMostOneJobPerNode: speaks of one process and of Jobs whose creation was reported. A crash between the Job and the annotation write repeats the node in the next process, and a Job stored without a report can be repeated in the same one (exactly when: `Exactness.LostReplyExactly`); this is what the code does.
- Lifetimes.OpenJobsNeverExceedCap: the concurrency alone does not bound the open Jobs; Jobs of earlier processes and Jobs stored with an error come on top, and both runs that reach the bound are given (`Runs.EarlierJobFreesItsNode`, `Runs.LostReplyStartsTwice`).
- Exactness.CoverageExactly: its converse asks for a CR name of at most 43 characters or a concurrency of at most 0, because otherwise the pass may panic before anything goes wrong.
- Exactness.LostReplyExactly: takes the first lost reply of a process, a CR name of at most 43 characters and an unused time stamp; a longer name panics before a node is visited again.
- Queue.RefinesQueue: speaks of the process that has not died. Afterwards its three sets need not be disjoint: a queue write that is refused and a dequeue write that is not leave a node in both stored annotations, and the code recovers it as both (`Runs.HalfStoredPairIsBoth`).
- Writes that change nothing: the real server may keep the version, the model always makes a new one.
- Other actors inside a pass of the class methods: in the class they appear as refusals, stale reads and old lists; the protocol interleaves them freely.
- Edits of the annotations, the status or the spec of a CR by others while it is worked on; a CR starts without the two annotations. Annotation texts the operator would not print are kept as such and parsed.
- Deletion of CRs, Jobs or claims, owner garbage collection, and namespaces: one namespace.
- JSON beyond the operator's own shape: whitespace, escapes and values other than `{}` read as unreadable; node names have only letters, digits, '-', '_' and '.'.
- Concurrent passes: reconciles are serial, as with the manager's default of one worker; `init` (228-238) has no effect beyond empty maps.
- Owner references with a nil controller pointer (562): taken as set.
- `ToleratesTaint` and `strconv.Atoi` are parameters; `resource.MustParse` and its panic on a malformed capacity are left out.
- What a Job makes of image, command, storage class, capacity and pull policy (827-929), beyond names, node annotation, claim name and owner; the template is a call that may fail.
- Environment keys are constructors of a datatype, one per text of the three tables and one for all other texts.
- PwDecoder.OnlyEncodingsDecode: speaks of a strict decoder; Python's library skips some foreign characters and is not part of this model.
- PwDecoder.Decode: a text that is not an encoding gives BadText, where Python's library may still decode. The command line (46-49) is left out.
- Events, logging, the manager and its watches.
