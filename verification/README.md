# A model of the MicrovmMachine controller

The provider keeps one microVM per MicrovmMachine on one of several Flintlock hosts. Three parties take
part: the object stored in the API server, the controller's in-memory copy of it, and the hosts that own
the microVMs. Every call between them can fail on its own, the controller writes the object in separate
patches (one of them deferred to the end of the reconcile), and users, hosts and the cluster act between
any two calls. This project models that protocol, the provider-ID text that ties a machine to its microVM,
host placement, and the cluster controller that publishes the host pool; and it proves what the order of
the writes is meant to guarantee, over every run.

| file | content |
|---|---|
| `GoStrings.dfy`, `Options.dfy` | the string functions the code relies on; optional values |
| `ProviderIDs.dfy` | the acceptance pattern of provider IDs, its meaning, and the parser |
| `MachineIDs.dfy` | the machine's provider-ID printer and its two readers |
| `Placement.dfy` | host choice: explicit, recorded, or by hash over the sorted host names |
| `Machines.dfy`, `Controller.dfy` | the MicrovmMachine object; what the controller does between two calls |
| `Protocol.dfy` | the labelled transition system: steps, what enables them, runs |
| `Invariant.dfy` | the invariant of the protocol and that every step keeps it |
| `Safety.dfy` | theorems over all runs |
| `Deletion.dfy`, `Provisioning.dfy` | a delete comes to an end, and exactly when; so does provisioning |
| `Endings.dfy` | what every reconcile answers and leaves in memory, for every outcome of its calls |
| `StatusStory.dfy` | the stored status, told from what reconciles concluded and what was written |
| `Scenarios.dfy` | runs that exist: a whole life, what is reported, a stalled delete, and what goes wrong outside the assumptions |
| `Reconciler.dfy` | the controller as imperative code, proved to be a run of the protocol |
| `Clusters.dfy` | the cluster controller: pool publication and status |

`dafny verify dfyconfig.toml` covers all of it.

## How the protocol is modelled

A state holds the world (stored object, existing microVMs, what a reconcile would read), the controller's
position and local variables, and bookkeeping that no party reads. All freedom is in the step labels, so a
run is a list of labels. A call of the controller is one step with its answer; code between two calls is one
function of `Controller`. Steps also include a crash at any point, a user's delete, other controllers'
finalizers, any change on a host (a DELETING microVM only stays or goes), and changes of the failure-domain
map, the two gates and the machine's own failure domain. `Reconciler` holds the same logic as methods on
objects with fields; a `World` object answers each call with any answer the protocol allows after any number
of steps by the others, and every method shows that what has happened is a run. The methods themselves run to
their end; a process that dies is modelled around them, by `Operate`, which cuts what a reconcile did at any point.

Some outcomes are more general than the services promise: a patch may write the resource, the status, both
or neither and still come back as an error, a failing create may have made a microVM (it is then counted as
lost), and a failing delete may have reached the host.

## Assumptions

- One reconcile at a time for the object, and a read returns the object as stored. The objects read besides the MicrovmMachine are read at one moment.
- A patch that succeeds has written resource and status; it keeps the deletion mark, fails on a missing object and on adding a finalizer to a deleting one. A deleting object disappears with its last finalizer.
- Uids given by a host are new on that host, non-empty, and without slash or newline; host names have neither.
- A microVM that is DELETING stays so until it is gone.
- A lookup returns the microVM with the instance ID asked for. It answers nothing, or an error whose text contains "not found", only if that microVM does not exist. `Scenarios.MisleadingDelete` and `Scenarios.MisleadingCreate` show what an error text breaks that has "not found" in it and means something else.
- A machine is not told to move: a change of the owner Machine's failure domain unsets it or names the host in use (`Protocol.Agrees`). `Scenarios.MoveKeepsHost` shows that for a stored provider ID this is exactly what keeps stored and chosen host equal; `Scenarios.MoveThenDeleteLeaks` and `Scenarios.MoveMidwayThenDeleteLeaks` show a leak for a move while the microVM exists and for one while it is about to be made. A move after the recorded microVM is gone is excluded too, because the host would change, although it leaks nothing.
- The owner lookups that may stop a reconcile before it begins are an input of `Reconciler.Reconcile`.
- The object starts without finalizer, provider ID and status.

## Where the code falls short

- A machine that is deleted before a provider ID was stored needs a host only to ask it about nothing. If the pool is empty and the machine names no failure domain, its deletion stalls until that changes (`Deletion.StalledForever`, `Scenarios.StallReached`, `Deletion.DeletableExactly`).
- A delete reconcile that cannot connect to the host returns neither an error nor a requeue (`Safety.QuietExactly`).
- The gates turn the condition false and leave Ready alone (`StatusStory.SplitExactly`).
- An error about anything else whose text has "not found" in it lets a machine go while its microVM runs, or gets a second microVM made in its place (`Scenarios.MisleadingDelete`, `Scenarios.MisleadingCreate`).
- With 32-bit ints the hash index can be negative (`Placement.NegativeIndex32`).

## Model

| member | source | states |
|---|---|---|
| ProviderIDs.PatternIsWellFormed | internal/scope/providerid.go:49-55 | the pattern, read as "the text splits into stretches, one per piece", accepts a string if and only if its first colon is not at the start, `//` follows it, the last character is not a slash and no newline stands in between |
| ProviderIDs.ParsesExactlyWellFormed | internal/scope/providerid.go:58-84 | a string is parsed if and only if it passes that direct check, the empty string gives its own error, and the result is a colon-free prefix before `://` and a non-empty slash-free suffix after the last slash |
| ProviderIDs.ParsesExactlyText | internal/scope/providerid.go:49-84 | a string is parsed if and only if it is a non-empty colon-free provider, `://`, newline-free text, and one last character that is not a slash |
| ProviderIDs.ValidateNeverFails | internal/scope/providerid.go:63-81 | matching the pattern and being parsed are the same, so the final validation never rejects |
| MachineIDs.InstanceRoundTrip | internal/scope/machine.go:272-295 | for every host and uid, reading the instance back gives the uid if and only if the uid is empty, or is slash-free with no newline in the host or before the uid's last character |
| MachineIDs.HostRoundTrip | internal/scope/machine.go:386-395 | for every host and uid, reading the host back gives the host if and only if the host has no slash and the end of the host and the start of the uid do not spell the prefix again (or what its removal leaves restores the host) |
| MachineIDs.HostAcross | internal/scope/machine.go:391-394 | what the host reader answers when removing every occurrence of the prefix eats into the host |
| MachineIDs.HostOfMeans | internal/scope/machine.go:386-395 | for any text at all, the host is what stands before the first slash once every occurrence of the prefix is dropped |
| GoStrings.RemoveAllFirst | internal/scope/machine.go:391 | dropping every occurrence drops the first one and goes on behind it |
| GoStrings.RemoveAllNone | internal/scope/machine.go:391 | a text without an occurrence is left as it is |
| MachineIDs.InstanceOfMeans | internal/scope/machine.go:288-295 | for any text at all, the instance is what stands behind the last slash if the text is of the accepted form, and empty otherwise |
| MachineIDs.HostRoundTripCanFail | internal/scope/machine.go:391-394 | a slash-free host that is not read back |
| MachineIDs.RoundTrip | internal/scope/machine.go:271-295 | both readers undo the printer on all names that hosts and clusters give |
| MachineIDs.PrintInjective | internal/scope/machine.go:272-275 | two slash-free microVM names print alike only if they are equal |
| MachineIDs.GeneratedIDParses | internal/scope/providerid.go:129-134 | the instance reader recovers the last segment of every generated ID with newline-free segments and a non-empty slash-free last one |
| MachineIDs.GeneratedIDHasNoHost | internal/scope/providerid.go:132-134 | the host reader finds the empty host in every generated ID, so the two printers are not interchangeable |
| Placement.ChooseFailureDomain | internal/scope/machine.go:204-222 | for every order in which the map may be walked, the answer is the one name before which exactly checksum modulo n of the n names come, including the one-name shortcut; none for an empty map |
| Placement.ChoiceExactly | internal/scope/machine.go:219-222 | a name is the fallback choice if and only if it is published and exactly checksum modulo n of the names come before it, where "before" is told from the two texts |
| Placement.LeIsBefore | internal/scope/machine.go:219 | the sort order is: a proper prefix, or the smaller character at the first difference |
| Placement.SortedUnique | internal/scope/machine.go:219 | a multiset of names has exactly one sorted listing, which is why the walk order does not matter |
| Placement.IndexInRange | internal/scope/machine.go:220 | with 64-bit ints the index is in range for every checksum |
| Placement.IndexInRange32 | internal/scope/machine.go:220 | with 32-bit ints it is in range exactly for checksums below 2^31 or at a multiple of the number of names below 2^32 |
| Placement.NegativeIndex32 | internal/scope/machine.go:220 | the largest checksum with two names gives the index -1 there |
| Machines.NotFoundAnywhere | controllers/microvmmachine_controller.go:489-491 | an error means "absent" if and only if its text has "not found" somewhere in it |
| Invariant.StepKeeps | controllers/microvmmachine_controller.go:135-300 | every allowed step of the controller, the hosts, the users and the cluster keeps the protocol invariant |
| Safety.RunKeeps | controllers/microvmmachine_controller.go:135-300 | so does every run, from any state of the invariant |
| Safety.NoLeak | controllers/microvmmachine_controller.go:260-297 | in every run, existing microVMs are the recorded one, the one just made, and lost ones; lost ones are exactly as many as creates none of whose patches wrote the resource; at most one exists besides them; without the finalizer only lost ones are left |
| Safety.LostIsLosses | controllers/microvmmachine_controller.go:135-139 | the number of lost microVMs is the number counted from the labels of the run and the position of the controller |
| Safety.NoLeakWhenNothingLost | controllers/microvmmachine_controller.go:171-203 | in every run in which no create lost all its patches, crashes included, no microVM is left on any host once the finalizer is off or the object gone |
| Safety.FinalizerBeforeCreate | controllers/microvmmachine_controller.go:272-289 | at every create, in every run, the stored object carries the finalizer, even if it was deleted meanwhile |
| Safety.FinalizerKept | controllers/microvmmachine_controller.go:201-203 | the finalizer leaves the store only with the deferred patch of a delete reconcile whose own lookup, made with or without a recorded provider ID, was answered "absent"; what it asked about is still absent, it is the recorded microVM if there is one, and only lost microVMs exist |
| Safety.WriteOrder | controllers/microvmmachine_controller.go:171-289 | at every position of every run: the finalizer is stored at a create, not-ready and the finalizer at a delete of the recorded microVM, and the finalizer goes only after an "absent" answer in the same reconcile |
| Safety.ObjectGoes | controllers/microvmmachine_controller.go:201-203 | an object leaves the store exactly at the step that leaves it deleted and without any finalizer, its own or another controller's |
| Safety.StoredHostIsChosen | internal/scope/machine.go:194-202 | a stored provider ID is the printed form of a microVM that was made on the host it names, and that host is what placement chooses now |
| Safety.CallsReachRecorded | controllers/microvmmachine_controller.go:156-171 | lookups and deletes are addressed to the recorded microVM on its own host |
| Safety.ProviderIDStable | controllers/microvmmachine_controller.go:260-293 | a stored provider ID is never dropped, changes only in a patch of a reconcile that was told its microVM is absent, and keeps its host |
| Safety.FoundKeepsProviderID | controllers/microvmmachine_controller.go:291 | a reconcile that found its microVM writes the same provider ID again |
| Safety.StickyPlacement | internal/scope/machine.go:194-223 | once a provider ID is stored, every later reconcile uses the host it names and every later provider ID names it, whatever happens to the failure-domain map |
| Safety.NotReadyBeforeDelete | controllers/microvmmachine_controller.go:178-196 | at every delete call the stored object is already not ready, has its finalizer, and records the microVM being deleted |
| Safety.DeletedAtMostOnce | controllers/microvmmachine_controller.go:190-198 | over any run each microVM gets at most one delete that reaches its host |
| Safety.StatusCoherent | controllers/microvmmachine_controller.go:334-379 | in every reachable state the condition, Ready, VM state, provider ID, finalizer and deletion mark of the stored object agree, gate conditions excepted |
| Safety.ReadyIffConditionTrue | controllers/microvmmachine_controller.go:216-236 | Ready and a true condition coincide in every run whose gates do not close again |
| Safety.ClosingAGateSplitsStatus | controllers/microvmmachine_controller.go:216-236 | from every idle state with a ready machine, closing a gate and reconciling leaves Ready with a false condition |
| StatusStory.SplitExactly | controllers/microvmmachine_controller.go:216-236 | over any run, Ready is stored with a false condition if and only if the last written verdict on the microVM is that it runs and a closed gate has been written since; Ready alone if and only if the first half holds |
| Safety.QuietExactly | controllers/microvmmachine_controller.go:150-299 | a whole reconcile returns neither error nor requeue if and only if a gate was closed, the ID of a microVM reported CREATED was committed, a delete was told "absent", or a delete could not connect |
| Safety.QuietMeans | controllers/microvmmachine_controller.go:201-346 | the quiet endings leave a ready machine, or one without the finalizer, in memory |
| Endings.EveryEnding | controllers/microvmmachine_controller.go:135-300 | every reconcile that runs to its end, whatever its calls answer and the others do, has one decisive call: until then the object is the one read, changed field by field as its position says (finalizer, printed provider ID, not-ready with the deleting reason), and that call fixes the error, the requeue flag and the last change of the object |
| Endings.DecidesExactly | controllers/microvmmachine_controller.go:150-379 | which calls are decisive, and with which error, requeue flag and object, for every branch of both paths: closed gates, no host, failed connection, lookup, patch, create and delete, an absent or DELETING microVM, and the five reported states; no other call ends a reconcile |
| Endings.StepOnItsWay | controllers/microvmmachine_controller.go:150-297 | a call that is not decisive leaves the object as the next position says |
| Endings.DeferredPatchStores | controllers/microvmmachine_controller.go:135-139 | a deferred patch that succeeds stores the object in memory, or removes a deleted object with its last finalizer |
| Deletion.DeletionTerminates | controllers/microvmmachine_controller.go:150-208 | if no call fails, and at most n times in all the host answers DELETING or placement finds no host, the finalizer is off after n + 2 reconciles or 7 (n + 2) calls, with any interference, and only lost microVMs exist |
| Deletion.RecordedDeletionTerminates | controllers/microvmmachine_controller.go:150-208 | with a stored provider ID the same holds with no assumption about placement |
| Deletion.HostlessExactly | internal/scope/machine.go:194-213 | placement finds no host if and only if the machine's failure domain is unset, no provider ID is recorded and no failure domain is published |
| Deletion.StalledForever | controllers/microvmmachine_controller.go:156-161 | a machine being deleted in that situation keeps its finalizer through every run that leaves placement alone, each delete reconcile ending in the failure-domain error |
| Deletion.DeletionEndsExactly | controllers/microvmmachine_controller.go:150-208 | while placement is left alone and no call fails, after two more reconciles than polls, or seven times as many calls, the finalizer is off if and only if placement found a host at the start |
| Deletion.DeletableExactly | controllers/microvmmachine_controller.go:150-208 | with placement left alone, some run, failures and interference included, takes the finalizer off a machine being deleted if and only if placement finds a host for it now |
| Deletion.CanGoOn | controllers/microvmmachine_controller.go:150-208 | from every state of a delete, any number of calls can succeed in a row without a poll, so the bounds above are reached |
| Deletion.RunBudget | controllers/microvmmachine_controller.go:171-198 | while the finalizer is on, completed delete reconciles never exceed the polls of a DELETING microVM and the loads without a host by more than the budget of the state |
| Deletion.CanMove | controllers/microvmmachine_controller.go:150-208 | at every position of a delete some call of the controller can succeed, also after the object is gone |
| Provisioning.ProvisioningTerminates | controllers/microvmmachine_controller.go:210-299 | if no call fails, nobody deletes the machine, and at most n times in all a gate is closed, placement finds no host or a microVM is not reported CREATED, all but n of the completed reconciles store a ready machine with a true condition and a running VM state, and 8 (n + 1) calls are enough for one |
| Provisioning.RunDebt | controllers/microvmmachine_controller.go:210-299 | the same from every position of a normal reconcile, with the setback it has already met |
| Provisioning.CanProceed | controllers/microvmmachine_controller.go:210-299 | at every position of a normal reconcile some call of the controller can succeed |
| Scenarios.Provision | controllers/microvmmachine_controller.go:243-299 | with open gates and a host, some single reconcile makes the microVM on that host and stores a ready machine that names it |
| Scenarios.DeleteOnce | controllers/microvmmachine_controller.go:178-198 | a delete reconcile that finds its microVM changes the stored object to not-ready with the deleting reason and nothing else, makes one delete call, gets the microVM DELETING and asks to be called again without an error |
| Scenarios.PollOnce | controllers/microvmmachine_controller.go:178-198 | one that finds it DELETING makes no delete call, changes no microVM, stores the same and asks to be called again without an error |
| Scenarios.LetGo | controllers/microvmmachine_controller.go:201-207 | a delete reconcile that finds nothing removes the object |
| Scenarios.Lifecycle | controllers/microvmmachine_controller.go:150-300 | every new machine with a host has a run to ready and on to an empty store with no microVM anywhere |
| Scenarios.FoundIsReported | controllers/microvmmachine_controller.go:334-379 | a normal reconcile that finds its microVM makes none and stores its object with exactly the VM state, Ready and condition of the host's answer; error and requeue flag are exact for each of the five states |
| Scenarios.GateIsReported | controllers/microvmmachine_controller.go:216-236 | from every idle state with a gate closed, ready or not, one reconcile stores the object as it was with a false condition (cluster infrastructure first, then bootstrap data), changes nothing else and is quiet |
| Scenarios.DeleteFailureIsReported | controllers/microvmmachine_controller.go:190-195 | a failing delete ends with that error and no requeue, the delete-failed reason stored, the finalizer and the record kept |
| Scenarios.CrashAfterCreateLeaks | controllers/microvmmachine_controller.go:285-297 | the bound on lost microVMs is met: from every reachable state with a microVM just made, a crash and a user's delete leave it behind |
| Scenarios.MoveKeepsHost | internal/scope/machine.go:195-202 | a change of the machine's failure domain keeps stored and chosen host equal if and only if it unsets it or names the stored host |
| Scenarios.MoveThenDeleteLeaks | internal/scope/machine.go:195-197 | from every idle reachable state with an existing microVM and nothing lost, a move to another host and then a delete let the machine go while its microVM stays |
| Scenarios.MoveMidwayThenDeleteLeaks | internal/scope/machine.go:195-197 | so does a move in the middle of a reconcile that is about to create the microVM |
| Scenarios.MisleadingDelete | controllers/microvmmachine_controller.go:489-491 | at every delete lookup of every run with the microVM there, an error lets the machine go, quietly and with the microVM still running, if and only if its text has "not found" in it |
| Scenarios.MisleadingCreate | controllers/microvmmachine_controller.go:254-293 | in a normal reconcile such an error gets a second microVM made and recorded, and the first stays with nothing naming it |
| Scenarios.StallReached | controllers/microvmmachine_controller.go:285-289 | the stalled delete is reached from every new machine on a published host, with nothing lost: one failing create, a user's delete, and an emptied pool |
| Reconciler.World.PatchMachine | internal/scope/machine.go:151-174 | any outcome of a patch, after any interference, continues the run; success means that the stored object is the one in memory, or gone without its finalizer |
| Reconciler.World.GetVM | controllers/microvmmachine_controller.go:171-176 | any answer of a lookup that the assumptions allow continues the run; "found" and "absent" are true when they are given |
| Reconciler.World.CreateVM | controllers/microvmmachine_controller.go:285-288 | any outcome of a create continues the run; success means that the microVM exists on that host |
| Reconciler.World.DeleteVM | controllers/microvmmachine_controller.go:191-195 | any outcome of a delete continues the run; success means that the microVM is DELETING or gone |
| Reconciler.World.Connect | controllers/microvmmachine_controller.go:302-332 | connecting to the host succeeds or fails, nothing else |
| Reconciler.World.ReadMachine | controllers/microvmmachine_controller.go:62-71 | one read: the object as stored, or nothing because it failed or the object is gone |
| Reconciler.World.Kill | controllers/microvmmachine_controller.go:135-139 | a process that dies leaves the world where the steps done by then had left it, and nothing it held in memory; the deferred patch is among what may not happen |
| Reconciler.World.ReadOwners | controllers/microvmmachine_controller.go:73-119 | the owners as they are at that moment |
| Reconciler.MachineScope.GetFailureDomain | internal/scope/machine.go:194-223 | the machine's own failure domain, then the recorded host, then the published name with the checksum's rank; none exactly if nothing is published then |
| Reconciler.MachineScope.SetProviderID | internal/scope/machine.go:272-275 | for every name that hosts and clusters give, both readers find that microVM in the machine afterwards; nothing else changes |
| Reconciler.MachineScope.Patch | internal/scope/machine.go:151-174 | the in-memory object is what the protocol expects to be committed |
| Reconciler.MachineScope.ParseMicroVMState | controllers/microvmmachine_controller.go:334-379 | for each of the five states the exact object, error and requeue flag; quiet if and only if CREATED; a coherent machine with finalizer and provider ID stays coherent |
| Reconciler.MachineScope.ReconcileNormal | controllers/microvmmachine_controller.go:210-270 | every execution continues the run and ends with the object and the result of the protocol; a closed gate makes no call and changes only the condition, to the first closed gate's reason; no host is an error exactly if nothing is chosen, recorded or published; an error before the finalizer changes nothing; past both gates a quiet end means a ready machine |
| Reconciler.MachineScope.CommitAndCreate | controllers/microvmmachine_controller.go:272-300 | the same for the part from the finalizer on; a create is made only if nothing was found, and what was found is reported by its state |
| Reconciler.MachineScope.ReconcileDelete | controllers/microvmmachine_controller.go:150-208 | every execution continues the run and ends with the object and the result of the protocol; a requeue means not-ready with the deleting reason, a quiet end nothing but a cleared finalizer, a failed lookup an unchanged object |
| Reconciler.MachineScope.StopVM | controllers/microvmmachine_controller.go:178-198 | not-ready with the deleting reason, or the delete-failed one exactly after a failed delete; a DELETING microVM gets no delete call, another gets one; a requeue exactly if there is no error |
| Reconciler.Dispatch | controllers/microvmmachine_controller.go:107-148 | from the read to the deferred patch: a whole reconcile whose answer is the protocol's, quiet exactly in the four cases, and decided by one call as in `Endings` |
| Reconciler.Reconcile | controllers/microvmmachine_controller.go:59-148 | every execution continues the run with exactly one read; it ends because the read failed, the object is gone, a lookup stopped it, or as a whole reconcile (read, owners, deferred patch last) whose answer is the protocol's, is quiet exactly in the four cases, and is decided by one call as in `Endings` |
| Reconciler.Operate | controllers/microvmmachine_controller.go:59-148 | reconciles on a new machine, any of them killed at any point, are a run with one read each unless killed, and the microVMs that exist are bounded by its lost creates, plus one only while the finalizer is on |
| Clusters.PublishedKeys | controllers/microvmcluster_controller.go:203-220 | the published keys are exactly the endpoints of the pool |
| Clusters.PublishedFlag | controllers/microvmcluster_controller.go:215-217 | each value is the flag of the last host with that endpoint |
| Clusters.FallbackIsPoolHost | internal/scope/machine.go:206-222 | fallback placement over a published pool picks the endpoint of one of its hosts, and fails exactly for an empty pool |
| Clusters.ClusterScope.SetFailureDomains | controllers/microvmcluster_controller.go:193-225 | the loop publishes the pool and touches nothing else; without a placement it is an error and nothing changes |
| Clusters.ClusterScope.ReconcileNormal | controllers/microvmcluster_controller.go:128-160 | the endpoint error exactly if neither object has an endpoint, then with nothing changed; the placement error exactly if one has and there is no pool, then with Ready only; otherwise Ready, the pool and the availability; a requeue exactly while the API server is down |
| Clusters.StatusMeans | controllers/microvmcluster_controller.go:128-160 | after any run the stored status is a function of the last stored reconcile that passed the endpoint check, and of the last one that also had a placement |
| Clusters.ReadyExactly | controllers/microvmcluster_controller.go:134-138 | after any run the cluster is ready if and only if some stored reconcile of a cluster not being deleted saw an endpoint on either object |
| Clusters.LastPoolShows | controllers/microvmcluster_controller.go:140-157 | the last such reconcile with a pool determines the published map and the availability |
| Clusters.ReadyForever | controllers/microvmcluster_controller.go:138 | Ready never goes back to false |
| Clusters.AvailableImpliesReady | controllers/microvmcluster_controller.go:138-157 | an available load balancer implies Ready |
| Clusters.ReadyShowsLastPool | controllers/microvmcluster_controller.go:138-142 | a ready cluster shows the pool of the last such reconcile, provided it had a placement |
| Clusters.ReadyWithoutPool | controllers/microvmcluster_controller.go:138-142 | the placement is needed: Ready is set before it is looked at |

## Left out

- gRPC client, TLS, basic auth and bootstrap secrets: connecting to a host succeeds or fails, nothing more is modelled.
- The patch helper, condition list and summary condition of cluster-api are not part of this model; a patch writes the resource (finalizer, provider ID) and the status (Ready, VM state, condition) as two units, and a condition is absent, true, or false with a reason (severity and message are fixed by the reason).
- Stale reads from an informer cache, and the recreation of an object under the same name.
- CRC-32: the checksum of the machine name is an arbitrary 32-bit value.
- Recovery after a failed deferred patch: the error is only logged, so the next reconcile comes from the manager's resync; `Deletion.DeletionTerminates` assumes that these patches succeed.
- `ControlPlane` flags in fallback placement: the code does not read them, so nothing is claimed about them.
- The early exits of both `Reconcile` methods (object missing, no owner, paused) are one step without effect.
- Admission webhooks, SSH key precedence, label and MAC defaulting, the watch mapping from clusters to machines, generated code, manager setup, manifests and end-to-end utilities: single-branch facts or plumbing.
- Addresses, failure reason and failure message of the machine status: the controller does not write them.
