# Verified model of the VM agent's one-shot mutations

This project models the parts of the edge-platform agent that change a host
exactly once: the durable admin journal, START and STOP of the registered
containers, paired image replacement, Git-declared Docker objects, managed
files, release directories, and the release-input digests. Each part is a
small state machine over an abstract world in which any call may fail with or
without its effect and the process may die between any two of them.

| module | what it models |
|---|---|
| `AdminJournal`, `AdminJournalProofs` | the admin journal, its lock and its processes, with power loss |
| `JournalScan` | the full scan behind the admission decision |
| `StreamCapture` | bounded capture of the child's pipes and bounded delivery of its input |
| `ServiceOrder`, `VmRun` | dependency order, START and STOP |
| `ImageReplace` | paired gateway and WARP image replacement, pins and marker |
| `TextLines`, `ImagePolicy`, `ImageDelta` | the textual image-policy decision |
| `ManagedObject` | Docker volumes, networks and containers declared by manifests |
| `FileReplace`, `ManagedFilePlan` | single-file replacement and the single-change plan |
| `ReleaseTrees` | the stack, previous, next and rollback directories |
| `PackageGraph`, `InputDigest` | the package walk and the hashed byte stream |
| `MountPaths` | the mount source depth check |

Verify everything with `dafny verify dfyconfig.toml`.

## How to read the contracts

- An operation that changes the world is a method on a class whose primitive
  calls choose their outcome freely. The ghost field `points` collects every
  state in which the process could have been interrupted, and the operation's
  contract says what all of them look like.
- The constant `reliable` rules out failures. Contracts of the form
  `reliable && ... ==> r.Ok?` say that the operation is not merely safe by
  refusing.
- In `ReleaseTrees` the outcome of every call is an argument, so each statement
  is about all outcomes, and dying at a call is that call and all later ones
  failing.
- Error values carry the agent's own codes, shortened in `ReleaseTrees`. Where
  several checks in a row are one check here, the code of one of them stands
  for all.

## Where the code does less than a reader may expect

- A rollback trusts any previous tree that has a marker. The remains of an
  interrupted removal can still have one, so a rollback can activate a torn
  tree, and `ReleaseTrees.LoseEverything` is a run that ends without any whole
  release. Comparing the marker's digest with the files beside it is exactly
  the missing check (`ReleaseTrees.TestIsExact`), except that it also refuses
  a whole release whose bundle names a file the agent writes itself, or one
  installed before the host had credentials.
- The image-policy comparison is documented as byte for byte but works on
  lines, and the model follows the code: a carriage return may come or go at
  the end of any line. `ImageDelta.ByteExactIff` gives the exact condition.
- A new managed file whose name ends in `.native-next` is written in place,
  because its staging name is its own name.
- `.images.env` is renamed without syncing the staged bytes first, so its
  commit is safe against process death but not against power loss.
- An image release interrupted after its pins are committed, with its staging
  file left behind, or with its marker half written is not picked up again by
  the image path.

## Assumptions

- SHA-256 has no collisions, so digests stand for what they digest. A bundle
  file's content stands for its bytes and mode bits together.
- While the owner lock is held no one else changes the modelled Docker objects
  and files. In the journal model, others may change any entry but the admin
  executor's own pending and terminal entries.
- The registry admits each service once, as its decoder checks.
- A resource receipt's name is hexadecimal, so it never ends in `.pending.pb`.

## Model

| member | source | states |
|---|---|---|
| `AdminJournalProofs.AtMostOnce` | edge-platform/crates/edge-agent/src/host_admin_native.rs:504-722 | over every run of any number of processes with failures, deaths and power losses, the program of one operation key is started at most once, and from its BEGIN on its pending or terminal entry is durable |
| `AdminJournalProofs.QuiescentBeforeEveryStart` | edge-platform/crates/edge-agent/src/host_admin_native.rs:575-601 | when a program starts, every earlier one exited, got all its input, reached true end-of-file on both pipes and has a durable receipt |
| `AdminJournalProofs.IncompleteBlocksForever` | edge-platform/crates/edge-agent/src/host_admin_native.rs:196-203 | a started program that is not settled and whose executor is gone blocks every later start for the rest of the run |
| `AdminJournalProofs.IncompleteEndAbandons` | edge-platform/crates/edge-agent/src/host_admin_native.rs:698-722 | an executor that finds its execution incomplete leaves exactly such a blocking BEGIN |
| `AdminJournalProofs.AbandonedForever` | edge-platform/crates/edge-agent/src/host_admin_native.rs:44-72 | a durable BEGIN that no live process owns stays, and no program is started while it does |
| `AdminJournalProofs.SpawnsOnlyGrow` | edge-platform/crates/edge-agent/src/host_admin_native.rs:599-601 | only the start step starts a program, and no step forgets one |
| `AdminJournalProofs.ClearedMeansSettled` | edge-platform/crates/edge-agent/src/host_admin_native.rs:575-577 | passing the admission check made just before BEGIN means every program started so far is settled and no BEGIN is open |
| `AdminJournalProofs.SameOperationRefused` | edge-platform/crates/edge-agent/src/host_admin_native.rs:54-71 | both admission checks pass exactly when the journal is not blocked and holds no pending, terminal or receipt entry of the operation's key |
| `AdminJournalProofs.EntriesNeverRewritten` | edge-platform/crates/edge-agent/src/host_admin_native.rs:25-39 | no step of the executor writes over an existing entry, captures included, and the only entry it removes is its own pending one |
| `AdminJournalProofs.StepKeepsInv` | edge-platform/crates/edge-agent/src/host_admin_native.rs:504-722 | every step of the protocol, every failure and every power loss keeps the journal invariant |
| `AdminJournalProofs.RunKeepsInv` | edge-platform/crates/edge-agent/src/host_admin_native.rs:504-722 | the journal invariant holds in every state of every run |
| `AdminJournalProofs.CompleteOperationUnblocks` | edge-platform/crates/edge-agent/src/host_admin_native.rs:706-711 | from an idle journal an operation can run through to its receipt, which leaves the journal unblocked and only its own key refused |
| `JournalScan.ScanJournal` | edge-platform/crates/edge-agent/src/host_native.rs:109-166 | the scan fails exactly on an unreadable item; otherwise it counts all entries and all pending ones, keeps the first 24 records and finds the first untrusted entry |
| `JournalScan.FailureIs` | edge-platform/crates/edge-agent/src/host_native.rs:128-136 | an entry is reported nonregular, foreign-owned or open to others in this order of precedence, and clean exactly if it is none of them |
| `JournalScan.ProtectedJournalHasPending` | edge-platform/crates/edge-agent/src/host_native.rs:174-183 | the decision is unavailable, untrusted or whether anything is pending, as a statement about which entries exist |
| `JournalScan.DecisionIgnoresOrder` | edge-platform/crates/edge-agent/src/host_native.rs:162-164 | the decision and its error are the same for every directory read order |
| `JournalScan.ScanDecidesBlocked` | edge-platform/crates/edge-agent/src/host_admin_native.rs:59-63 | the scan lets an operation through exactly when the state machine's journal is not blocked |
| `StreamCapture.ExitBoundedPipe.Read` | edge-platform/crates/edge-agent/src/host_admin_native.rs:211-247 | a read returns the next bytes of the stream ahead, and marks end-of-file only at a real one, never at the time cut |
| `StreamCapture.CaptureStream` | edge-platform/crates/edge-agent/src/host_admin_native.rs:85-122 | the evidence is that of the whole stream up to its end, for every way of cutting it into reads; failures are never reported as captures |
| `StreamCapture.StdinPipe.WriteBounded` | edge-platform/crates/edge-agent/src/host_admin_native.rs:144-192 | the child receives exactly the reported prefix of the input; the delivery ends at the first turn at which it is complete, the pipe is broken, two seconds have passed since the child was first seen gone, or a call fails, and reports the first three as delivered and only the last as an error |
| `StreamCapture.DeliveryEnds` | edge-platform/crates/edge-agent/src/host_admin_native.rs:158-191 | over all sequences of turns: a short delivery is reported exactly at an expired or broken-pipe turn, an error exactly at a failed poll, a failed write or a write of nothing; interrupts, a full pipe and empty polls never end it |
| `StreamCapture.CollectExecution` | edge-platform/crates/edge-agent/src/host_admin_native.rs:636-705 | a receipt exists exactly when the input was delivered or cut short and both streams ended, spool failures apart, and each of its completeness and truncation flags is true exactly when the corresponding fact about process, input, streams, previews and spool files is; which join failed is told by the error |
| `StreamCapture.FlagsExact` | edge-platform/crates/edge-agent/src/host_admin_native.rs:681-690 | the counter comparisons decide truncation and completeness exactly, saturation of the 64-bit total included, and preview, spool and stream are prefixes of one another |
| `StreamCapture.DrainIsWholePrefix` | edge-platform/crates/edge-agent/src/host_admin_native.rs:211-247 | a reader gets every byte delivered before the first turn that ends the stream: a zero-length read, a failure, or a turn two seconds after the child was first seen gone |
| `StreamCapture.ReaderEnds` | edge-platform/crates/edge-agent/src/host_admin_native.rs:216-223 | once two turns that see the child gone lie two seconds apart, a reader no longer waits, whoever keeps the pipe open |
| `StreamCapture.WriterEnds` | edge-platform/crates/edge-agent/src/host_admin_native.rs:141-163 | nor does the writer of the child's input |
| `StreamCapture.NoPipeHoldsTheLock` | edge-platform/crates/edge-agent/src/host_admin_native.rs:636-654 | after that time all three joins return, and they give a receipt exactly when no pipe call failed |
| `StreamCapture.SplitReadDoesNotShow` | edge-platform/crates/edge-agent/src/host_admin_native.rs:94-112 | cutting one read in two anywhere in the stream, with an empty poll or interrupt between, changes neither bytes nor ending |
| `ServiceOrder.OwnedVmStartOrder` | edge-platform/crates/edge-agent/src/docker_observation.rs:3772-3794 | success is a permutation with every dependency earlier; it succeeds exactly when there is no duplicate service, no missing dependency and no cycle; failure means no valid order exists; the order depends on nothing but the containers |
| `ServiceOrder.OwnedVmStopOrder` | edge-platform/crates/edge-agent/src/docker_observation.rs:3799-3813 | success is a permutation in which every dependent comes before what it depends on, and occurs exactly when the graph of the present containers is orderable |
| `ServiceOrder.ValidOrderMeaning` | edge-platform/crates/edge-agent/src/docker_observation.rs:3769-3794 | a valid order names every index once and witnesses distinct services, present dependencies and acyclicity |
| `ServiceOrder.StuckMeansUnorderable` | edge-platform/crates/edge-agent/src/docker_observation.rs:3789-3791 | a pass without progress means that the input has a duplicate, a missing dependency or a cycle |
| `ServiceOrder.EveryRemnantCanStop` | edge-platform/crates/edge-agent/src/docker_observation.rs:3796-3813 | whatever subset of an orderable graph is left, its stop order exists |
| `VmRun.ApplyVmRun` | edge-platform/crates/edge-agent/src/docker_observation.rs:1010-1166 | after every engine call, failed or not, started containers have all dependencies running, stopped ones no running dependent, nothing unregistered has changed, and network names are on the way of their restoration; success is exactly the switched or completed containers with all planned repairs made, happens only for admitted plans, and always does when nothing fails |
| `VmRun.RunnableIff` | edge-platform/crates/edge-agent/src/docker_observation.rs:1015-1073 | which runs are admitted, over registered services and containers alone: dependencies in scope, the snapshot unchanged, pinned images, an order, and something to switch or exactly one gateway missing beside running neighbours |
| `VmRun.SwitchInOrder` | edge-platform/crates/edge-agent/src/docker_observation.rs:1118-1146 | every state left behind is one of the prefixes of the order, and success is the whole of it |
| `VmRun.CreateGateway` | edge-platform/crates/edge-agent/src/docker_observation.rs:1063-1117 | creating the one missing gateway is safe at every call because all its neighbours run |
| `VmRun.RestoreNames` | edge-platform/crates/edge-agent/src/docker_observation.rs:656-716 | every state of the network left behind has so many services renamed and at most the next one detached; success is all of them renamed |
| `VmRun.AliasPointMeaning` | edge-platform/crates/edge-agent/src/docker_observation.rs:670-713 | whatever fails, no service loses its name, at most one is taken off the network, it is one being restored, and no other is touched |
| `VmRun.ReadMissingAliases` | edge-platform/crates/edge-agent/src/docker_observation.rs:500-557 | the list holds exactly the services whose container runs on the network without its name, each once and dependencies before dependents; it is refused exactly when a container is absent, the graph has no order or a running container is off the network |
| `VmRun.UnnamedExactly` | edge-platform/crates/edge-agent/src/docker_observation.rs:516-556 | the same of the list along any valid start order |
| `VmRun.NamesRestored` | edge-platform/crates/edge-agent/src/docker_observation.rs:656-716 | restoring such a list leaves every running container under its name |
| `VmRun.RunRepairs` | edge-platform/crates/edge-agent/src/docker_observation.rs:1042-1062 | a network repair stands alone, names are restored only if the list just read is the planned one, otherwise nothing is touched, and afterwards every running container has its name |
| `VmRun.StartProgressSafe` | edge-platform/crates/edge-agent/src/docker_observation.rs:1118-1129 | in every prefix of a start order, whatever was started has its dependencies running |
| `VmRun.StopProgressSafe` | edge-platform/crates/edge-agent/src/docker_observation.rs:1130-1142 | in every prefix of a stop order, nothing that depends on a stopped container still runs |
| `VmRun.StopOrderForEverySubset` | edge-platform/crates/edge-agent/src/docker_observation.rs:3796-3813 | if the declared graph is orderable, a STOP can be ordered for every subset of the registered services that is still there |
| `VmRun.SwitchedPoststate` | edge-platform/crates/edge-agent/src/docker_observation.rs:1518-1571 | after a full switch the poststate check passes exactly when there was something to switch or repair and, for START, nothing missing |
| `VmRun.PoststateRefuses` | edge-platform/crates/edge-agent/src/docker_observation.rs:1530-1568 | the poststate check never passes an owner gone, exchanged or not as desired, an unplanned newcomer, or for START anything missing |
| `VmRun.CreatedPoststate` | edge-platform/crates/edge-agent/src/docker_observation.rs:1537-1551 | after creating the missing gateway the poststate check passes and every registered service runs |
| `ImageReplace.ApplyImageReplace` | edge-platform/crates/edge-agent/src/docker_observation.rs:3063-3221 | changed containers or pins are refused with nothing touched; every state left behind is a phase of the recreation or of the commit, hence orderly in the sense of the next row, whatever the marker and the staging name were; at most one stop per service off target; success is complete; without failures it succeeds unless a left-over staging file bars new pins |
| `ImageReplace.EveryInterruption` | edge-platform/crates/edge-agent/src/docker_observation.rs:3093-3220 | at every interruption containers have old or target images, at most one service that ran is down, no gateway is touched before a WARP off target is renewed nor Line 1 before such a Line 2, changed pins mean all services run verified targets with new ids exactly where the image differed, and a changed marker means new pins |
| `ImageReplace.RecreateOnce` | edge-platform/crates/edge-agent/src/docker_native_gateway.rs:359-563 | at every interruption the container is untouched, stopped, absent, or new at the target image, and no other has changed; another identity or a stopped gateway is refused untouched; at most one stop is sent; success leaves it new and running |
| `ImageReplace.StopAndConfirm` | edge-platform/crates/edge-agent/src/docker_native_gateway.rs:417-528 | exactly one stop is sent, none to an already stopped WARP, however many inspections follow; the recreation goes on only with the container really stopped, lost reply or not |
| `ImageReplace.StoppedIff` | edge-platform/crates/edge-agent/src/docker_native_gateway.rs:332-354 | a readback counts as stopped exactly for this identity, not running and neither restarting, paused nor dead |
| `ImageReplace.RecreateAll` | edge-platform/crates/edge-agent/src/docker_observation.rs:3096-3127 | services off target are recreated one at a time, with at most one stop each, and all states left behind are phases of their order |
| `ImageReplace.PhaseWarpFirst` | edge-platform/crates/edge-agent/src/docker_observation.rs:3013-3019 | in every phase a touched gateway means a renewed WARP, and a touched Line 1 a renewed Line 2, where these were off target |
| `ImageReplace.CommitRelease` | edge-platform/crates/edge-agent/src/docker_observation.rs:3180-3220 | pins are committed before the marker, and every state left behind keeps that order |
| `ImageReplace.PlanAndApply` | edge-platform/crates/edge-agent/src/docker_observation.rs:2882-3061 | a fresh plan and apply reaches the release, recreating exactly the services whose image differs, and without failures does so exactly when the preflight accepts |
| `ImageReplace.PlannableIff` | edge-platform/crates/edge-agent/src/docker_observation.rs:2882-2982 | when an image release can be planned, condition by condition over containers, pins, marker and staging file |
| `ImageReplace.ResumableIff` | edge-platform/crates/edge-agent/src/docker_observation.rs:3287-3340 | an interruption can be finished by planning again exactly when all services are present, gateways run, WARP runs or is off target, no staging file is left, the marker names another release and matching pins come with drift; pins this run has committed are never resumable this way |
| `ImageReplace.AllRecreatedVerifies` | edge-platform/crates/edge-agent/src/docker_observation.rs:3144-3179 | once every service off target is recreated the poststate loop passes, with a new id exactly where the image differed |
| `ImageReplace.PoststateIff` | edge-platform/crates/edge-agent/src/docker_observation.rs:2665-2673 | the poststate loop passes exactly when each service runs at its own pin, under a new id exactly if its image was another |
| `ImagePolicy.ParsePins` | edge-platform/crates/edge-agent/src/docker_observation.rs:1431-1467 | parsing succeeds exactly when the lines are the three known keys, each once, with exact digest references, and returns their values |
| `ImagePolicy.ExactRefText` | edge-platform/crates/edge-agent/src/docker_observation.rs:1456-1465 | an exact reference is the repository, the digest prefix and 64 lower-case hexadecimal digits |
| `ImageDelta.GatewayDelta` | edge-platform/crates/edge-agent/src/docker_observation.rs:2747-2792 | accepts exactly when one gateway line goes from the current to a new, non-zero digest and nothing else differs |
| `ImageDelta.NewGatewayIff` | edge-platform/crates/edge-agent/src/docker_observation.rs:2771-2782 | a new gateway image is an exact reference other than the current and the all-zero one |
| `ImageDelta.ApplicationDelta` | edge-platform/crates/edge-agent/src/docker_observation.rs:2797-2820 | accepts exactly when the desired lines are the installed lines with a new gateway and the requested WARP image, Mesh, order and final newline kept, and returns those images |
| `ImageDelta.DeltaIffReconstructs` | edge-platform/crates/edge-agent/src/docker_observation.rs:2809-2817 | the gateway-only check on the text with WARP set back decides exactly that reconstruction |
| `ImageDelta.NormalizedLines` | edge-platform/crates/edge-agent/src/docker_observation.rs:2809-2812 | the textual replacement changes the WARP line and no other, and keeps the final newline |
| `ImageDelta.SubstitutedText` | edge-platform/crates/edge-agent/src/docker_observation.rs:2809-2812 | replacing the two values in the installed bytes rewrites exactly those two lines and keeps every line ending |
| `ImageDelta.ByteExactIff` | edge-platform/crates/edge-agent/src/docker_observation.rs:2745-2756 | an accepted desired text is byte for byte the installed text with its two image values replaced exactly when every line ends in it as it did |
| `ImageDelta.CarriageReturnAccepted` | edge-platform/crates/edge-agent/src/docker_observation.rs:2745-2756 | a concrete delta that is accepted although a line gains a carriage return |
| `ImageDelta.CarriageReturnDropped` | edge-platform/crates/edge-agent/src/docker_observation.rs:2745-2756 | a concrete delta that is accepted although a line loses one |
| `ImagePolicy.ReplacedPin` | edge-platform/crates/edge-agent/src/docker_observation.rs:2809-2812 | replacing the gateway's or WARP's pin by another of its key hits that whole line and never part of another pin |
| `TextLines.ReplaceLines` | edge-platform/crates/edge-agent/src/docker_observation.rs:2809-2812 | replacing inside a text is replacing inside each of its lines, for one-line needles |
| `TextLines.LinesAndEndings` | edge-platform/crates/edge-agent/src/docker_observation.rs:2755-2756 | a text is determined by its lines and their terminators |
| `ManagedObject.ApplyManagedObject` | edge-platform/crates/edge-agent/src/docker_managed_object.rs:724-935 | a failed compare-and-swap touches nothing; every state left behind changes only the named object and only within its effect's sequence; with an unchanged configuration it is still the same container, with a changed one a new container, after a restart one started anew; success is what the separate readback calls converged; without failures it succeeds |
| `ManagedObject.Preflight` | edge-platform/crates/edge-agent/src/docker_managed_object.rs:556-646 | an accepted plan matches the engine at that moment and has the effect its two manifests call for, and without failures a plan is produced whenever a matching one exists |
| `ManagedObject.EffectsExactly` | edge-platform/crates/edge-agent/src/docker_managed_object.rs:510-554 | each effect is planned exactly for the change of manifests that calls for it, and planning refuses exactly an unsupported, non-monotonic or empty change |
| `ManagedObject.CasRefuses` | edge-platform/crates/edge-agent/src/docker_managed_object.rs:273-278 | what passes the compare-and-swap has the planned object and both its networks under the identities the plan saw |
| `ManagedObject.PoststateIsConverged` | edge-platform/crates/edge-agent/src/docker_managed_file.rs:627-654 | whatever passes the poststate check is reported converged by the independent classifier |
| `ManagedObject.ConvergedIff` | edge-platform/crates/edge-agent/src/docker_managed_file.rs:627-654 | the readback reports converged exactly an object that is absent, or present, owned, configured, running and networked, as its manifest says |
| `ManagedObject.PoststateProvesChange` | edge-platform/crates/edge-agent/src/docker_managed_object.rs:923-932 | a created, replaced or restarted container that passes is not the very one the plan saw |
| `ManagedObject.AchievedPasses` | edge-platform/crates/edge-agent/src/docker_managed_object.rs:895-933 | an effect that reached its goal passes every poststate check, its network's included |
| `ManagedObject.RestartAccounting` | edge-platform/crates/edge-agent/src/docker_managed_object.rs:530-552 | along any run of accepted changes to a present container the restart generation never falls, rises at most one a step and pays for every restart; at its upper bound it stays and no restart is planned |
| `ManagedObject.PerformReplace` | edge-platform/crates/edge-agent/src/docker_managed_object.rs:879-893 | stop, remove and recreate leave only intermediate states of the named container and end in a new one |
| `ManagedObject.PerformDelete` | edge-platform/crates/edge-agent/src/docker_managed_object.rs:818-855 | stop and remove leave only the old object, the stopped object or none |
| `ManagedObject.PerformCreate` | edge-platform/crates/edge-agent/src/docker_managed_object.rs:764-817 | creation leaves none, the new object, or for containers the new one started |
| `ManagedObject.PerformToggle` | edge-platform/crates/edge-agent/src/docker_managed_object.rs:856-878 | start, stop and restart change only the running state and start time of the container |
| `ReleaseTrees.ApplyBundle` | edge-platform/crates/edge-agent/src/main.rs:926-1035 | for every way its calls can fail, be cut short or be the last, the layout left is the one of a definite end, with all four directories given; it reports success exactly when the release is active, and refuses with nothing touched |
| `ReleaseTrees.UnfinishedIsUnmarked` | edge-platform/crates/edge-agent/src/main.rs:972-993 | a release staged only in part carries no marker that can be read |
| `ReleaseTrees.RollbackBundle` | edge-platform/crates/edge-agent/src/main.rs:1037-1098 | for every way its renames can fail, the layout left is the old one, the swapped one or one of two with the scratch directory; a stale digest, a missing marker or an occupied scratch path is refused untouched; it reports success exactly when the trees are swapped as authorised |
| `ReleaseTrees.FailuresArePutBack` | edge-platform/crates/edge-agent/src/main.rs:1018-1088 | a failed activation puts the active release back and a failed rollback both trees, when the compensating renames work |
| `ReleaseTrees.EveryEndIsReached` | edge-platform/crates/edge-agent/src/main.rs:957-1025 | each of the ends listed for an apply and a rollback is one that some outcome of their calls leads to |
| `ReleaseTrees.Replay` | edge-platform/crates/edge-agent/src/main.rs:926-1098 | the operations make every run of the relation the theorems speak of |
| `ReleaseTrees.ActiveReleaseKept` | edge-platform/crates/edge-agent/src/main.rs:996-1025 | wherever an apply ends, the release active on entry is whole in stack or previous |
| `ReleaseTrees.BothReleasesKept` | edge-platform/crates/edge-agent/src/main.rs:1069-1088 | wherever a rollback ends, both trees are in two different directories |
| `ReleaseTrees.RollbackUndoesApply` | edge-platform/crates/edge-agent/src/main.rs:1037-1098 | a rollback after an apply makes the former release active again |
| `ReleaseTrees.TwoRollbacksCancel` | edge-platform/crates/edge-agent/src/main.rs:1037-1098 | two completed rollbacks are the identity |
| `ReleaseTrees.TestIsExact` | edge-platform/crates/edge-agent/src/main.rs:892-923 | over any run, each operation ending anywhere, a tree that can become active has files matching its marker's digest exactly when it is a whole release of an ordinary bundle of the run |
| `ReleaseTrees.RollbackTestIsExact` | edge-platform/crates/edge-agent/src/main.rs:1055-1057 | a completed rollback makes a whole release active exactly when the previous tree passed that digest test before it |
| `ReleaseTrees.PartPassesAsWhole` | edge-platform/crates/edge-agent/src/main.rs:917-918 | no part of a release passes the test, whatever its bundle names |
| `ReleaseTrees.OnlyCutRemovalsTear` | edge-platform/crates/edge-agent/src/main.rs:1000-1008 | as long as no removal of a previous release is cut short, every directory that can become active holds a whole release or nothing |
| `ReleaseTrees.CutRemovalTears` | edge-platform/crates/edge-agent/src/main.rs:1001-1008 | a removal cut after losing a file leaves a previous tree that fails the test |
| `ReleaseTrees.WholeReleaseKept` | edge-platform/crates/edge-agent/src/main.rs:926-1098 | over any run, wherever its operations end, a whole release stays active or restorable if every rollback first makes the digest test |
| `ReleaseTrees.UnguardedRollbackLosesEverything` | edge-platform/crates/edge-agent/src/main.rs:1046-1057 | without it, a run of four operations begins with two whole releases and ends with none in any directory |
| `ReleaseTrees.LoseEverything` | edge-platform/crates/edge-agent/src/main.rs:926-1098 | the operations themselves make that run |
| `ManagedFilePlan.PlanManagedFile` | edge-platform/crates/edge-agent/src/docker_managed_file.rs:343-424 | a plan's one change turns the installed files into exactly the release's; planning succeeds exactly for a new digest and a well-formed bundle that differs at one allowed name, or at none when exactly one declared network object is lost and the bundle carries its manifest |
| `ManagedFilePlan.ManagedPathStays` | edge-platform/crates/edge-agent/src/docker_managed_file.rs:40-54 | a managed file lies directly in the managed directory under a name that is neither hidden nor leads out |
| `ManagedFilePlan.ChangeAllowedIff` | edge-platform/crates/edge-agent/src/docker_managed_file.rs:390-404 | a change is allowed exactly to a managed file with plain, non-empty content within the limit |
| `ManagedFilePlan.SelectLost` | edge-platform/crates/edge-agent/src/docker_managed_file.rs:130-222 | finds the lost object exactly when all Docker objects have converged and one row is missing, known and manifested while all others have converged |
| `ManagedFilePlan.DiffNames` | edge-platform/crates/edge-agent/src/docker_managed_file.rs:364-406 | the loop keeps the single change found so far and everything equal so far, and refuses exactly a second or forbidden change |
| `ManagedFilePlan.ApplyManagedFile` | edge-platform/crates/edge-agent/src/docker_managed_file.rs:549-616 | checks, Docker object, file and marker in this order: each failure tells which of them can have moved and how far, the marker is written only with the object converged and the file in place, the installed files are then the release's exactly when no file outside the plan had appeared, and without failures it succeeds |
| `ManagedFilePlan.InstalledAfter` | edge-platform/crates/edge-agent/src/docker_managed_file.rs:557-614 | with neighbours and target as checked, the installed files are the release's exactly when there is no stranger |
| `FileReplace.AtomicManagedFileChange` | edge-platform/crates/edge-agent/src/docker_managed_file.rs:507-546 | at every death or power loss the target shows its old or new bytes whole; a stale before value or a left-over staging file refuses with the target untouched; success is durable and changes no other file; without failures it succeeds |
| `FileReplace.ApplicableIff` | edge-platform/crates/edge-agent/src/docker_managed_file.rs:513-529 | which inputs the file change accepts |
| `FileReplace.StageAndRename` | edge-platform/crates/edge-agent/src/docker_managed_file.rs:520-535 | creating, filling, syncing and renaming keep every view of the target old or new |
| `FileReplace.StagingIsTargetIff` | edge-platform/crates/edge-agent/src/docker_managed_file.rs:524 | the staging name equals the target exactly for targets with the staging extension |
| `FileReplace.InPlaceWriteIsTheOnlyException` | edge-platform/crates/edge-agent/src/docker_managed_file.rs:524-533 | a new file under the staging extension is the one case in which an interrupted write can show a partial file |
| `FileReplace.CommitImages` | edge-platform/crates/edge-agent/src/docker_observation.rs:3183-3197 | at every process death the pins file holds the old or the new bytes; a left-over staging file refuses with nothing touched |
| `FileReplace.CommittedImagesCanTear` | edge-platform/crates/edge-agent/src/docker_observation.rs:3188-3196 | because the staged bytes are not synced, a power loss after the commit may leave any bytes |
| `InputDigest.ComputeStream` | edge-platform/scripts/runtime_input_digest.py:116-134 | the loops feed exactly the framed stream, which decodes to its inputs, and refuse exactly fields too long for their prefix |
| `InputDigest.StreamBegins` | edge-platform/scripts/runtime_input_digest.py:120-123 | every stream begins with its domain, the schema as four bytes, the contract tag and the framed build contract |
| `InputDigest.DecodeStream` | edge-platform/scripts/runtime_input_digest.py:51-53 | decoding a stream gives back its build contract, files and inputs |
| `InputDigest.StreamOfDecoded` | edge-platform/scripts/runtime_input_digest.py:116-134 | whatever decodes is the stream of its decoding |
| `InputDigest.StreamsDetermineInputs` | edge-platform/scripts/windows_input_digest.py:161-179 | two input sets give one stream exactly when they are equal |
| `InputDigest.VmAndWindowsStreamsDiffer` | edge-platform/scripts/windows_input_digest.py:165-167 | no VM stream is a Windows stream |
| `InputDigest.FeedField` | edge-platform/scripts/windows_input_digest.py:24-26 | appends the eight-byte length and the bytes, or fails when the length does not fit |
| `InputDigest.BigEndian` | edge-platform/scripts/runtime_input_digest.py:51-53 | each length byte counts in units of 256 to the number of bytes after it |
| `PackageGraph.ReachablePackageDirs` | edge-platform/scripts/windows_input_digest.py:54-88 | ends on every finite tree, returns exactly the packages reachable from the roots, and fails exactly when some reachable package is faulty |
| `PackageGraph.CollectDependencies` | edge-platform/scripts/windows_input_digest.py:71-87 | fails exactly on an invalid, escaping or manifest-less local dependency, and otherwise adds exactly the local ones |
| `MountPaths.CheckMountDepth` | edge-platform/crates/edge-agent/src/docker_native_gateway.rs:146-159 | accepts exactly the texts that do not begin with a slash and in no prefix lead up more than once beyond the names they lead down, which are exactly those whose resolution never leaves the owner root; the counter is the distance below it; each refusal has its own code |
| `MountPaths.PiecesOfText` | edge-platform/crates/edge-agent/src/docker_native_gateway.rs:149 | the pieces of a path hold no slash and joined by slashes give it back |
| `MountPaths.NamedPieces` | edge-platform/crates/edge-agent/src/docker_native_gateway.rs:149-155 | components stand, in order, for exactly the pieces that are neither empty nor a dot, the parent exactly for two dots |

## Left out

- Signatures, Worker authorisation, HTTP calls, protobuf and YAML decoding: opaque inputs here.
- Resource (non-admin) journal operations and signed recovery: only their entries' effect on the admin journal is modelled.
- Ownership, mode and symlink checks outside the journal scan: a read that may fail, or one trusted flag per journal entry in the state machine.
- Managed routes, firewall tables and DNS links: one call that may fail, inside `ManagedFilePlan.ApplyManagedFile` and `VmRun.RunRepairs`.
- Network attachment, Compose digest and graph comparisons: reads that may fail.
- Alias repairs inside image replacement: a read that may fail there, modelled in `VmRun.RestoreNames` for START.
- The single-template config replacement: it uses the recreate step modelled here, on one gateway.
- Compose and graph compilation: the registered services, dependencies and images are inputs.
- The credential-store checks of a first installation and the names its bundle must have: part of a request's `wellFormed` flag.
- Files rendered into an active stack after its installation, which a digest test would have to leave out.
- How a manifest's bytes decode to a Docker object: the planned object is an input of `ManagedFilePlan.ApplyManagedFile`.
- Mount targets, mount modes and published ports of the gateway policy: text checks without state.
- Names beginning with a dot in `FileReplace.Staging`: managed file names begin with a letter or digit.
- Wall-clock time beyond a clock value per turn of the pipe loops and a bounded number of inspections.
- Sorting of package directories and files before hashing: the stream takes them in the order given.
- Which characters count as blank around a pin key: only ASCII blanks, which changes an error code at most.
- A stop request that takes effect only after the operation has given up on it.
