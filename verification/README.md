# A verified model of the Matrix kernel

Matrix activates components in dependency order, admits calls through tickets,
withdraws components without losing calls in flight, and owns every resource a
component acquires. This project models those parts of it in Dafny and proves what
they promise, over every input, every run or every interleaving.

`dafny verify dfyconfig.toml` checks all of it.

## What is modelled

| part | modules | form |
|---|---|---|
| dependency graph: cycle search, Kahn order, reverse reachability | `Graph`, `Names` | loops and a recursive search, against reachability and closed walks |
| binding resolution and staleness | `Bindings` | loops, against what each requirement refers to |
| context table, lifecycle transitions, reconciler | `Contexts`, `Kernel`, `Coherence`, `Reconcile`, `Lifecycle`, `KernelObject` | objects updated in place, against transition functions with preserved invariants |
| call table, confirmed effects | `Calls`, `Effects` | objects updated in place; runs of whole operations |
| admission against withdrawal | `Tickets` | step machine at lock granularity |
| dependency admission, quotas, deadlines, call chains | `Admission`, `AdmissionLimits` | step machine at lock granularity |
| dependency open and cancel of one session | `DepSync` | step machine at lock granularity |
| resources, registry, bus | `Resources`, `Holdings`, `HoldingsObject`, `Agreement`, `Outcomes` | objects updated in place; runs of whole operations |
| acquisition against withdrawal | `Acquiring` | step machine at lock granularity |
| stream credit between two hosts | `Stream` | two objects and a machine with a lossy channel |
| JSON structure scan, id window, restart budget | `Json`, `IdWindow`, `Restart` | loops, against a document tree, a plain history and a count over time |

A dispose appears three times, at different depth: as one transition with an outcome in
`Kernel`, with the releases it makes in `Holdings`, and split at its locks in `Tickets`.
`Agreement` proves that the first two move the context table alike, and that an
uninterrupted dispose of the third ends as the second does. The machines of `Tickets`, `Admission`,
`DepSync` and `Effects` move tickets by the functions of `Calls`, which the table object
there performs in place.

Time, thread starts, random draws, the network and the peer's answers are
parameters of the steps. Counters that the source keeps in 64 bits are natural
numbers, except where the source saturates them. Text is a sequence of characters,
so positions in `Json` count characters where the source counts UTF-8 bytes; the
scanner only ever compares ASCII bytes and steps over whole characters.

## Where the code gives less than one would expect

In each case the exact condition is proved, and an input or a run that meets it is given.

- A dependency admission that fails its revalidation takes its ticket out with a
  bare removal. An activation is left in CleanupPending by that exactly when the
  rollback takes the last ticket of a parked, releasable activation nobody is about to
  re-evaluate, and no caller registers afterwards (`Tickets.StrandedIff`); it stays so
  for good exactly when, in addition, no caller is between its first check and its
  registration (`Tickets.StrandedForGoodIff`). `Tickets.RollbackCanStrand` is a run.
- The same rollback returns its quota without looking at whether the removal found
  the ticket. If the ticket was cancelled and reaped in between, the quota comes back
  twice. The counters are right in every state of a run exactly when no rollback of
  the run lost its ticket that way (`Admission.ConservedIff`);
  `Admission.RacedRollbackReturnsTwice` is a run.
- A logical id whose fault budget is spent stays Failed for good: reloading its manifest
  leaves the failed activation in place, and so does everything else
  (`Lifecycle.FailedForGood`); `Lifecycle.FailedRun` is a run. A reload replaces an activation exactly when it is neither
  failed nor being disposed by another thread (`Lifecycle.LoadReplaces`).
- The first chunk of a stream is accepted without a window check
  (`Stream.FirstChunkDecides`); one byte over 96 KiB suffices
  (`Stream.FirstChunkOverruns`). The second bound, 1 MiB, cannot be passed in practice:
  a frame is at most 1 MiB and carries the chunk in base64. A sender that obeys its own
  window never exceeds the receiver's (`Stream.CreditHolds`).
- The structure scan rejects every text with a surrogate `\u` escape, also the pairs
  that section 7 of RFC 8259 allows (`Json.ScanDecides`, `Json.SurrogatePairRejected`).
- The revocation of "descendants" reaches direct children only
  (`Calls.CallsTable.RevokeDescendants`, `Calls.GrandchildStaysOpen`), although its
  comment speaks of descendants.
- A failed batch acquisition releases its own resources, but does not restore a
  capability entry of another instance that it had replaced
  (`Holdings.FailedBatchDrops`, `Holdings.FailedBatchCanDrop`). The same holds of the
  function that acquires a definition's resources, which parsed manifests never make
  fail, because the parser rejects blank names.

## Model

| member | source | states |
|---|---|---|
| `Graph.Follow` | crates/matrix-core/src/deps.rs:277-312 | one edge of the depth-first search: an edge back onto the search stack yields a real cycle, otherwise every node left finished has only finished successors |
| `Graph.Visit` | crates/matrix-core/src/deps.rs:277-312 | the recursive search from one node ends with a real closed walk or with the node finished; it terminates on every graph |
| `Graph.FindCycle` | crates/matrix-core/src/deps.rs:273-317 | returns None exactly when the graph has no closed walk; a returned path is a closed walk of real edges |
| `Graph.StuckSetHasCycle` | crates/matrix-core/src/deps.rs:320-365 | a non-empty set of nodes that each depend on a member of the set contains a closed walk (why an incomplete Kahn run means a cycle) |
| `Graph.TopologicalIsAcyclic` | crates/matrix-core/src/deps.rs:320-365 | a graph that has a provider-first order has no closed walk |
| `Graph.ReverseEdges` | crates/matrix-core/src/deps.rs:322-332 | the consumers map is the exact reverse of the edge map, repeated edges included |
| `Graph.Degrees` | crates/matrix-core/src/deps.rs:322-332 | the initial in-degree of a node counts its edges with repetition |
| `Graph.CounterPositive` | crates/matrix-core/src/deps.rs:346-353 | the counter of a consumer about to be decremented is above zero, so it never underflows even on repeated edges |
| `Graph.Decrement` | crates/matrix-core/src/deps.rs:349-356 | needs a positive counter, takes one off, and keeps the ready list exactly the nodes at zero that have not been emitted |
| `Graph.TopoOrder` | crates/matrix-core/src/deps.rs:320-365 | returns Some exactly when the graph has no closed walk; the order lists every node once, providers before consumers |
| `Graph.TransitiveConsumers` | crates/matrix-core/src/deps.rs:369-397 | terminates on every graph and returns exactly the other nodes from which the target is reachable by a non-empty path, sorted, without repeats |
| `Bindings.ProviderCandidates` | crates/matrix-core/src/deps.rs:230-243 | the candidates are exactly the definitions that declare the base at the major asked for, or at any version when none is asked for; in name order, each once |
| `Bindings.ProvidersOf` | crates/matrix-core/src/deps.rs:246-270 | the edges of one definition are exactly the explicit providers and candidates its requirements refer to |
| `Bindings.GraphEdges` | crates/matrix-core/src/deps.rs:246-270 | the edge map handed to the graph algorithms, for every definition |
| `Bindings.EdgesRefer` | crates/matrix-core/src/deps.rs:246-270 | an edge exists exactly when a requirement refers to that definition |
| `Bindings.ResolveFor` | crates/matrix-core/src/kernel.rs:2095-2189 | resolution succeeds exactly when every requirement has an Active provider that is the named one, or the only one, to declare the interface at the right version, and then binds each to it; otherwise the error explains the first requirement that has none: nobody declares it, several do, the named one is unknown or has the wrong version, or the provider is not Active |
| `Bindings.ProvidesIff` | crates/matrix-core/src/deps.rs:164-174 | a capability satisfies a requirement exactly when the definition declares that base at that major, or at any version when none is asked for |
| `Bindings.SettlesIff` | crates/matrix-core/src/kernel.rs:2095-2189 | the provider resolution settles on is the named one if it declares the interface, otherwise the only definition that does |
| `Bindings.ExplainedIsUnanswered` | crates/matrix-core/src/kernel.rs:2095-2189 | a requirement whose failure is explained has no binding that would answer it |
| `Bindings.JoinSnoc` | crates/matrix-core/src/deps.rs:221-223 | the path of a cycle is shown part by part with a separator between any two |
| `Bindings.DigitsValue` | crates/matrix-core/src/deps.rs:56-61 | a version shown is read back as the same number |
| `Bindings.ResolveAllOk` | crates/matrix-core/src/kernel.rs:2095-2189 | resolution succeeds exactly when each requirement resolves by itself, and then yields those bindings in order |
| `Bindings.SoleProviderIsTarget` | crates/matrix-core/src/kernel.rs:2095-2189 | a requirement that settles on a provider at all settles on every definition that provides it and is not excluded by an explicit choice, so there is only one |
| `Bindings.ResolvedNotStale` | crates/matrix-core/src/kernel.rs:2192-2210 | bindings just resolved are not stale |
| `Bindings.ResolveAllFrame` | crates/matrix-core/src/kernel.rs:2095-2189 | resolution depends only on the states of the definitions the requirements refer to |
| `Bindings.BindingsStale` | crates/matrix-core/src/kernel.rs:2192-2210 | the loop answers whether some binding names an activation that is not the current Active one |
| `Contexts.ContextTable.Create` | crates/matrix-core/src/context.rs:119-141 | a new activation gets unused ids, the next generation of its logical id and becomes current |
| `Contexts.ContextTable.Claim` | crates/matrix-core/src/context.rs:220-254 | exactly a caller that finds the activation in service moves it to Quiescing; the others learn that it is unknown, being disposed, or gone |
| `Contexts.ContextTable.Activate` | crates/matrix-core/src/context.rs:280-294 | promotion succeeds only from a state that has not started |
| `Contexts.ContextTable.Await` | crates/matrix-core/src/context.rs:296-307 | a waiting mark is refused once the activation has started |
| `Contexts.ContextTable.Mark` | crates/matrix-core/src/context.rs:256-275 | the unguarded marks change one record's state and cause and nothing else |
| `Contexts.OneActive` | crates/matrix-core/src/context.rs:119-141 | at most one activation of a logical id is Active; it is the current one and has the highest generation |
| `Contexts.CreateInOk` | crates/matrix-core/src/context.rs:119-141 | creating an activation over an idle one keeps the table invariant and reuses no id |
| `Contexts.SetStateOk` | crates/matrix-core/src/context.rs:256-307 | every mark the kernel makes keeps the table invariant and never leads back from a withdrawn state |
| `Contexts.FreshOnce` | crates/matrix-core/src/context.rs:220-254 | after a fresh dispose claim no later claim of the same activation is fresh |
| `KernelObject.Kernel.Dispose` | crates/matrix-core/src/kernel.rs:2853-3057 | the method performs the dispose transition of the lifecycle model, claim included |
| `KernelObject.Kernel.CreateWaitingInstance` | crates/matrix-core/src/kernel.rs:2214-2256 | a waiting activation in a new generation, with its plugin entry |
| `KernelObject.Kernel.EnsureWaiting` | crates/matrix-core/src/kernel.rs:2261-2342 | idempotent waiting: the transition whose reported change `Coherence.EnsureWaitingReports` ties to an actual one |
| `KernelObject.Kernel.WithdrawToWaiting` | crates/matrix-core/src/kernel.rs:2347-2369 | an activation in service is disposed and replaced by a waiting one |
| `KernelObject.Kernel.PromoteWaiting` | crates/matrix-core/src/kernel.rs:2438-2513 | revalidates against fresh states and commits the fresh bindings |
| `KernelObject.Kernel.CreateActive` | crates/matrix-core/src/kernel.rs:2516-2576 | a new Active activation with the resolved bindings |
| `KernelObject.Kernel.WithdrawPhase` | crates/matrix-core/src/kernel.rs:2657-2686 | consumers first: the loop withdraws exactly what the snapshot shows unsound |
| `KernelObject.Kernel.ActivatePhase` | crates/matrix-core/src/kernel.rs:2688-2744 | providers first: the loop stops at the first definition it changes |
| `KernelObject.Kernel.CyclePhase` | crates/matrix-core/src/kernel.rs:2617-2644 | every member of the cycle that is not failed, quiescing or parked ends Waiting, showing "cycle: " and the path, in its record and its entry; one that was Active is out of service (parked if it is busy, disposed otherwise); every other logical id and every record of theirs is unchanged; a change is reported exactly when there is one |
| `KernelObject.Kernel.ReconcileStep` | crates/matrix-core/src/kernel.rs:2590-2744 | one pass, over the order or the cycle the graph search found; on a cycle it does what `CyclePhase` states |
| `KernelObject.Kernel.Reconcile` | crates/matrix-core/src/kernel.rs:2580-2588 | the bounded loop keeps coherence; on an acyclic definition set its 2n + 4 budget always ends in a converged state; on a cyclic one it ends with the members of a cycle waiting and showing it, and touches nothing that is not on a cycle or is on its way out |
| `KernelObject.Kernel.LoadManifest` | crates/matrix-core/src/kernel.rs:2787-2850 | replacing a definition disposes the current activation, then reconciles; afterwards nothing is stuck that was not failed or being disposed by another thread, and where work was left behind a successor of a later generation waits or is Active |
| `KernelObject.Kernel.DisposePlugin` | crates/matrix-core/src/kernel.rs:3062-3081 | removing a definition disposes its activation, then reconciles |
| `Coherence.CreateWaitingOk` | crates/matrix-core/src/kernel.rs:2214-2256 | keeps records, plugin entries and bindings coherent |
| `Coherence.DisposeOk` | crates/matrix-core/src/kernel.rs:2853-3057 | keeps coherence, activates nothing, leaves every other logical id alone and leaves the disposed one out of service |
| `Coherence.EnsureWaitingOk` | crates/matrix-core/src/kernel.rs:2261-2342 | a definition out of service ends up waiting for the given reason, an Active one is left alone, and "no change" means no change |
| `Coherence.EnsureWaitingReports` | crates/matrix-core/src/kernel.rs:2261-2342 | a change is reported exactly when something changed |
| `Coherence.WithdrawOk` | crates/matrix-core/src/kernel.rs:2347-2369 | an Active definition ends up waiting in a new activation; coherence is kept and nothing else is touched |
| `Coherence.PromoteOk` | crates/matrix-core/src/kernel.rs:2438-2513 | a waiting definition that resolves becomes Active with exactly those bindings; coherence is kept and nothing else is touched |
| `Coherence.CreateActiveOk` | crates/matrix-core/src/kernel.rs:2516-2576 | a definition out of service that resolves becomes Active in a new activation with exactly those bindings; nothing else is touched |
| `Coherence.LoadOk` | crates/matrix-core/src/kernel.rs:2787-2850 | keeps coherence across a change of definition |
| `Coherence.RemoveOk` | crates/matrix-core/src/kernel.rs:3062-3081 | keeps coherence across a removal |
| `Coherence.FinalizeOk` | crates/matrix-core/src/kernel.rs:1788-1837 | keeps coherence when parked cleanup ends |
| `Coherence.FailOk` | crates/matrix-core/src/kernel.rs:3376-3409 | keeps coherence when the fault budget is spent |
| `Reconcile.WithdrawPass` | crates/matrix-core/src/kernel.rs:2657-2686 | a pass over a state with an unsound Active definition strictly shrinks the Active set and changes no stuck definition |
| `Reconcile.StaysClean` | crates/matrix-core/src/kernel.rs:2688-2744 | activating a definition makes no Active definition unsound, so no withdrawal follows activation |
| `Reconcile.ActivationPass` | crates/matrix-core/src/kernel.rs:2688-2744 | a pass over a sound state settles one more definition together with everything it depends on, or changes nothing and everything is settled |
| `Reconcile.PassDecreases` | crates/matrix-core/src/kernel.rs:2590-2744 | every pass that reports a change strictly lowers the measure; a pass that reports none changed nothing |
| `Reconcile.ReconcileConverges` | crates/matrix-core/src/kernel.rs:2580-2588 | at most 2n passes change anything, n when no withdrawal is due, whatever order ties are taken in: the 2n + 4 budget suffices |
| `Reconcile.ConvergedIsQuiet` | crates/matrix-core/src/kernel.rs:2590-2744 | a converged state is a fixpoint of the pass, for every provider-first order |
| `Reconcile.ConvergedActive` | crates/matrix-core/src/kernel.rs:2095-2189 | at the fixpoint a definition is Active exactly when it is not stuck and every requirement has an Active provider that is the named one, or the only one, to declare it |
| `Reconcile.ConvergedBindings` | crates/matrix-core/src/kernel.rs:2095-2210 | at the fixpoint the bindings name, requirement by requirement, the current instance and generation of that provider |
| `Reconcile.ConvergedWaits` | crates/matrix-core/src/kernel.rs:2688-2744 | at the fixpoint a definition that is neither Active nor stuck waits, showing the first requirement nothing answers |
| `Reconcile.StuckIsLeft` | crates/matrix-core/src/kernel.rs:2708-2714 | a pass leaves failed, quiescing and parked activations exactly as they are |
| `Reconcile.FixpointUnique` | crates/matrix-core/src/kernel.rs:2580-2744 | on an acyclic set the definitions and the stuck set determine the Active set |
| `Reconcile.HistoryDoesNotMatter` | crates/matrix-core/src/kernel.rs:2580-2744 | two kernels with equal definitions and stuck sets converge to equal Active sets, whatever happened before |
| `Lifecycle.ReachableIsCoherent` | crates/matrix-core/src/kernel.rs:2347-2576 | every state reached by commands, faults, finalizations and passes is coherent |
| `Lifecycle.RunIsMonotone` | crates/matrix-core/src/context.rs:119-307 | along every run records keep their identity and nothing leaves a withdrawn state |
| `Lifecycle.AtMostOneActive` | crates/matrix-core/src/context.rs:119-141 | in every reachable state a logical id has at most one Active activation, the current one with the highest generation |
| `Lifecycle.NoReentry` | crates/matrix-core/src/context.rs:220-307 | an activation that left Active is never Active again |
| `Lifecycle.IdsNeverReused` | crates/matrix-core/src/context.rs:119-141 | instance and context ids that appear later were never used before |
| `Lifecycle.ClaimedAtMostOnce` | crates/matrix-core/src/context.rs:220-254 | over a whole run no activation's dispose claim is fresh twice |
| `Lifecycle.FreshIsLogged` | crates/matrix-core/src/context.rs:220-254 | the log behind that statement records every fresh claim and nothing else |
| `Lifecycle.CycleMembersWait` | crates/matrix-core/src/kernel.rs:2617-2644 | what a pass over a cycle does to every logical id, as stated for `CyclePhase` |
| `Lifecycle.DeferStep` | crates/matrix-core/src/kernel.rs:2580-2644 | over any number of passes on a cyclic set, only members of cycles that were not on their way out move, what waits keeps waiting, and nothing new is on its way out |
| `Lifecycle.LoadReplaces` | crates/matrix-core/src/kernel.rs:2797-2821 | a reload replaces whatever it finds except a failed activation and one being disposed, and where work is left behind a waiting successor stands in at once |
| `Lifecycle.LoadElsewhere` | crates/matrix-core/src/kernel.rs:2797-2821 | a reload touches no other logical id |
| `Lifecycle.RemoveTakesOut` | crates/matrix-core/src/kernel.rs:3062-3081 | removing a plugin parks its activation if it is busy and disposes it otherwise |
| `Lifecycle.RemoveElsewhere` | crates/matrix-core/src/kernel.rs:3062-3081 | and touches no other logical id |
| `Lifecycle.FaultFails` | crates/matrix-core/src/kernel.rs:3376-3409 | when the fault budget is spent the current activation is Failed with the cause, and nothing else changes |
| `Lifecycle.FinalizeMoves` | crates/matrix-core/src/kernel.rs:1788-1837 | exactly a parked activation that is no longer busy becomes Disposed |
| `Lifecycle.FailedForGood` | crates/matrix-core/src/kernel.rs:2798-2805 | along every run a logical id whose current activation has failed keeps it, failed: no reload, removal, dispose or pass brings it back |
| `Lifecycle.FailedRun` | crates/matrix-core/src/kernel.rs:2798-2805 | a run in which a failed plugin is reloaded and stays failed |
| `Tickets.AlwaysSafe` | crates/matrix-core/src/kernel.rs:1332-1410 | the admission invariant holds in every interleaving of opens, ends and one dispose |
| `Tickets.HandedTicketPinsResources` | crates/matrix-core/src/kernel.rs:2867-3030 | a ticket handed to its opener and still in the table was there when the dispose claimed Quiescing; while it is there nothing has been released and the activation is not Disposed |
| `Tickets.HeldIs` | crates/matrix-core/src/kernel.rs:2999-3057 | until the release everything is held, after it exactly what refuses; a Disposed activation had nothing that refuses |
| `Tickets.HandedIff` | crates/matrix-core/src/kernel.rs:1332-1410 | a caller that registered is handed its ticket exactly when its bindings still stand and no dispose has been claimed |
| `Tickets.ScanHeedsPolicy` | crates/matrix-core/src/kernel.rs:2918-2942 | the scan of a dispose cancels an open call that does not drain, gives one that drains a deadline and leaves it open, and changes no other ticket |
| `Tickets.DrainingIsKept` | crates/matrix-core/src/kernel.rs:2918-2964 | over any stretch of a run, a draining call still in the table has lost its authority only if somebody moved it or its deadline had passed |
| `Tickets.AuthorityEnds` | crates/matrix-core/src/kernel.rs:2918-2973 | when a dispose decides whether to park, and ever after, no call handed to its opener keeps its authority |
| `Tickets.AttendedStep` | crates/matrix-core/src/kernel.rs:1200-1202 | a parked, releasable activation with an empty table becomes unattended only by a rollback that takes its last ticket while nobody is about to re-evaluate it, and becomes attended again only by a caller registering late |
| `Tickets.AttendedIff` | crates/matrix-core/src/kernel.rs:2969-3006 | over a whole run: unattended exactly when such a rollback happened and no caller registered since |
| `Tickets.StrandedIff` | crates/matrix-core/src/kernel.rs:1788-1837 | once everybody has finished and no ticket is left, a releasable activation is in CleanupPending exactly when such a rollback happened and no caller registered since; otherwise it is Disposed and holds nothing |
| `Tickets.NeverStranded` | crates/matrix-core/src/kernel.rs:1788-1837 | without such a rollback it is always Disposed, harmless rollbacks included |
| `Tickets.LateCallerFinalizes` | crates/matrix-core/src/kernel.rs:1395-1402 | a caller that was past its first check registers, is refused, settles and so disposes a stranded activation |
| `Tickets.ForGoodIff` | crates/matrix-core/src/kernel.rs:1200-1202 | a stranded activation stays parked in every continuation exactly when no caller is between its first check and its registration |
| `Tickets.StrandedForGoodIff` | crates/matrix-core/src/kernel.rs:1200-1202 | the same condition over a whole run: stranded, no registration since, none on the way |
| `Tickets.RollbackCanStrand` | crates/matrix-core/src/kernel.rs:1200-1202 | a whole run after which the activation stays in CleanupPending for good |
| `Calls.CallsTable.Alloc` | crates/matrix-core/src/calls.rs:235-271 | a fresh id, Admitted, and no other ticket touched |
| `Calls.CallsTable.SetDepMeta` | crates/matrix-core/src/calls.rs:274-280 | describes a ticket that is still there and reports whether it was |
| `Calls.CallsTable.LeaveAdmitted` | crates/matrix-core/src/calls.rs:367-426 | the guarded moves (accept, expire, cancel) succeed exactly on an Admitted ticket |
| `Calls.CallsTable.SetState` | crates/matrix-core/src/calls.rs:395-401 | the unguarded move, on any ticket that is there and to any state |
| `Calls.CallsTable.SetDrainUntil` | crates/matrix-core/src/calls.rs:403-411 | a deadline is set on an Admitted ticket only, though the call reports success on any |
| `Calls.CallsTable.Remove` | crates/matrix-core/src/calls.rs:449-456 | takes one ticket out and returns it |
| `Calls.CallsTable.RevokeDescendants` | crates/matrix-core/src/calls.rs:296-312 | cancels exactly the open direct children and reports them |
| `Calls.GrandchildStaysOpen` | crates/matrix-core/src/calls.rs:296-312 | a chain of three tickets: revoking the children of the first leaves the third Admitted |
| `Calls.CallsTable.RevokeChildrenOfConsumer` | crates/matrix-core/src/calls.rs:315-331 | revokes exactly the consumer's open children and reports each once |
| `Calls.CallsTable.ExpireOverdue` | crates/matrix-core/src/calls.rs:428-447 | expires exactly the open tickets whose deadline has come and reports them |
| `Admission.OwnersMove` | crates/matrix-core/src/kernel.rs:1110-1210 | every step hands a reservation on to exactly one new owner; only reserving adds one and only returning takes one away |
| `Admission.QuotaConserved` | crates/matrix-core/src/kernel.rs:955-964 | in every run whose rollbacks find their ticket: the global counter is the sum of the session counters and equals dependency tickets in the table plus reservations not yet returned; no session keeps an entry at zero |
| `Admission.NeverSaturates` | crates/matrix-core/src/kernel.rs:955-964 | in such a run no saturating subtraction meets a zero counter |
| `Admission.RollbackBalancesIff` | crates/matrix-core/src/kernel.rs:1196-1210 | a rollback keeps the balance exactly when its ticket is still in the table |
| `Admission.ConservedIff` | crates/matrix-core/src/kernel.rs:1110-1210 | over any run the counters are right in every state exactly when no rollback had lost its ticket to a concurrent end |
| `Admission.RacedRollbackReturnsTwice` | crates/matrix-core/src/kernel.rs:1737-1751 | a run in which a child is cancelled and reaped before its admission revalidates, so that its quota is returned twice |
| `Admission.ChainsBounded` | crates/matrix-core/src/kernel.rs:1081-1162 | along every chain of dependency calls ever admitted, together in the table or not: ids fall strictly towards the root, depth changes by exactly one per link and stays within the limit of admission, and no child's deadline passes that of a dependency call above it |
| `Admission.AlwaysChained` | crates/matrix-core/src/kernel.rs:2918-2942 | the chain invariant over the log of all dependency tickets, and its agreement with the table, hold in every interleaving |
| `Admission.LogStays` | crates/matrix-core/src/kernel.rs:1126-1162 | what a dependency ticket was admitted with is never revised or forgotten |
| `Admission.DeadlineNeverMoves` | crates/matrix-core/src/kernel.rs:2918-2942 | a dependency ticket has the same parent, depth and deadline in any two states that hold it: only Drain tickets are given new deadlines |
| `Admission.TableIsLogged` | crates/matrix-core/src/kernel.rs:1149-1162 | the log holds every dependency ticket of the table as it is, and no other ticket of it |
| `AdmissionLimits.QuotasHold` | crates/matrix-core/src/kernel.rs:1104-1125 | in every interleaving, races included, a session never holds more than its quota, all together never more than the global one, and no ticket has more open children than its policy allows |
| `AdmissionLimits.DeadlineIsLeast` | crates/matrix-core/src/kernel.rs:1126-1148 | every open dependency call has a deadline: the least of what its policy allowed, what its caller asked for and what its parent had left |
| `AdmissionLimits.AdmittedWhenFree` | crates/matrix-core/src/kernel.rs:1086-1220 | under every quota a call with an open parent that is not too deep is admitted, counted once for its session and once overall |
| `Effects.GrantedIsCurrent` | crates/matrix-core/src/kernel.rs:1608-1657 | a granted local commit is by the current activation, Active or within its drain, at the highest generation |
| `Effects.EffectHistory` | crates/matrix-core/src/calls.rs:506-533 | in every run: one effect per ticket at most, generations of a logical id never fall along local effects, and the ring is exactly the last 1024 |
| `Effects.CommittedByCurrent` | crates/matrix-core/src/kernel.rs:1540-1670 | each local effect was confirmed by the then-current activation of its logical id |
| `Effects.Ledger.PushEffect` | crates/matrix-core/src/calls.rs:506-533 | the append-then-evict loop keeps exactly the last 1024 |
| `Effects.Ledger.EffectsFor` | crates/matrix-core/src/calls.rs:535-544 | exactly the effects of the logical id asked for, in their order |
| `Effects.EffectKernel.CheckLocal` | crates/matrix-core/src/kernel.rs:1608-1657 | a local leg passes exactly when its owner is the current activation under the same generation and epoch, and is Active, or Quiescing with the drain not over |
| `Effects.EffectKernel.CommitEffect` | crates/matrix-core/src/kernel.rs:1540-1670 | a commit is granted exactly to an open ticket whose chain stands, before its deadline, with its registration or its owner in place; it confirms one effect under that owner and spends the ticket; a refusal tells why, confirms nothing and changes no ticket, except that an overdue dependency ticket expires |
| `Effects.CommitMeans` | crates/matrix-core/src/kernel.rs:1540-1671 | the same of the transition, condition and outcome on either side |
| `DepSync.NeverReadmitted` | crates/matrix-core/src/calls.rs:367-425 | a ticket that leaves Admitted never returns to it, the unguarded moves included |
| `DepSync.TableOnlyLeaves` | crates/matrix-core/src/calls.rs:296-447 | every step moves the tickets already there by the table's own moves, bulk revocations and expiries included, and none regains its authority |
| `DepSync.AcceptedAtMostOnce` | crates/matrix-core/src/kernel.rs:1418-1450 | of all attempts to accept a child at most one succeeds |
| `DepSync.RevokedNeverOk` | crates/matrix-host/src/lib.rs:1783-1893 | a request answered `revoked`, before or after the worker mapped it, has no ok result and never gets one |
| `DepSync.OkIsTerminal` | crates/matrix-host/src/lib.rs:2081-2083 | a request answered ok has lost its ticket's authority, so a later cancel finds nothing to revoke |
| `DepSync.AlwaysOk` | crates/matrix-host/src/lib.rs:1847-1893 | the per-request invariant of pending, wanted and mapped that both rest on |
| `DepSync.DispatchedIff` | crates/matrix-host/src/lib.rs:1870-1893 | a worker that has its ticket dispatches the call exactly when no cancel of the request came in since it was opened, and aborts it otherwise |
| `DepSync.ChainDecides` | crates/matrix-core/src/kernel.rs:1418-1530 | an accept goes on exactly when the ticket is still there, in time and its chain stands; an overdue ticket expires and no other changes |
| `DepSync.OkWasExamined` | crates/matrix-core/src/kernel.rs:1418-1450 | no ok is sent for a request whose chain was not found standing and in time |
| `DepSync.DispatchedCanSucceed` | crates/matrix-core/src/kernel.rs:1418-1450 | a dispatched call whose ticket is open, whose chain stands and whose result comes is accepted once and answered ok |
| `DepSync.NewRequestCanSucceed` | crates/matrix-host/src/lib.rs:1847-1893 | from any reachable state a new request that nobody cancels can be answered ok |
| `DepSync.CancelRevokes` | crates/matrix-host/src/lib.rs:1783-1846 | a cancel of a mapped request whose ticket is open takes its authority and is answered revoked |
| `Resources.ResourceTable.Register` | crates/matrix-core/src/resources.rs:232-374 | taken exactly when its name is not blank, its interval is between 1 and 60000 and its thread starts; then there is one more record and index entry, otherwise records and index are as before |
| `Resources.ResourceTable.RollbackRegister` | crates/matrix-core/src/resources.rs:465-497 | removes a record only while it is held, with its index entry |
| `Resources.ResourceTable.BeginRelease` | crates/matrix-core/src/resources.rs:381-433 | granted exactly to a record that is held and does not refuse, which is then the only one to change |
| `Resources.ResourceTable.ActiveFor` | crates/matrix-core/src/resources.rs:551-566 | counts exactly the owner's records that are still held |
| `Resources.RegisterOk` | crates/matrix-core/src/resources.rs:232-374 | index and records keep agreeing, in acquisition order |
| `Resources.RollbackOk` | crates/matrix-core/src/resources.rs:465-497 | index and records keep agreeing after a rollback |
| `Resources.BeginReleaseOk` | crates/matrix-core/src/resources.rs:381-433 | no handle is claimed twice and the claims are exactly the Released records |
| `Resources.ReleasesCounted` | crates/matrix-core/src/resources.rs:568-570 | `total_releases` is the number of Released records |
| `HoldingsObject.Registry.ProvideInstance` | crates/matrix-core/src/registry.rs:46-56 | the latest provider replaces the entry |
| `HoldingsObject.Registry.RevokeCapIfOwned` | crates/matrix-core/src/registry.rs:100-114 | removes the entry exactly when it is the instance's own or ownerless |
| `HoldingsObject.Bus.SubscribeInstance` | crates/matrix-core/src/bus.rs:40-50 | adds a subscriber once |
| `HoldingsObject.Bus.UnsubscribeTopicIfOwned` | crates/matrix-core/src/bus.rs:68-76 | keeps every other instance's subscriptions in order |
| `Holdings.UnpublishExactly` | crates/matrix-core/src/registry.rs:100-114 | withdrawing a publication removes that instance's entry of that kind and no other |
| `Holdings.ObtainOk` | crates/matrix-core/src/kernel.rs:1894-1917 | register-then-publish keeps every entry backed |
| `Holdings.UndoOk` | crates/matrix-core/src/kernel.rs:1949-1959 | taking back a publication and its record after a failed revalidation keeps every entry backed |
| `Holdings.ReleaseHandleOk` | crates/matrix-core/src/kernel.rs:2035-2057 | release-then-unpublish keeps every entry backed |
| `Holdings.ReleaseFromOk` | crates/matrix-core/src/kernel.rs:1841-1874 | releasing in reverse order keeps the invariant, and if nothing refused nothing is left held |
| `Holdings.RevokedAll` | crates/matrix-core/src/kernel.rs:2896-2913 | going through the owner's handles withdraws every publication it has |
| `Holdings.ProvisionOk` | crates/matrix-core/src/kernel.rs:2373-2434 | acquiring a definition's resources keeps the invariant, whether it succeeds or rolls back |
| `Holdings.ProvisionAllOrNone` | crates/matrix-core/src/kernel.rs:2373-2434 | all or none: it succeeds exactly when every kind is acceptable (a parsed manifest's names always are), and then each has a new resource the instance holds and publishes; otherwise every resource made on the way is released; earlier records are as before either way |
| `Holdings.FailedProvisionDrops` | crates/matrix-core/src/kernel.rs:2419-2434 | of the function, for any kinds: after a failure other instances keep their subscriptions, and a capability entry survives exactly when its name was not registered before the failing one |
| `Holdings.BatchOk` | crates/matrix-core/src/kernel.rs:1996-2014 | acquiring a batch keeps the invariant, whether it succeeds or releases what it had |
| `Holdings.BatchAllOrNone` | crates/matrix-core/src/kernel.rs:1996-2014 | an activation in service gets the whole batch exactly when every item is taken, each then held and published; otherwise every resource made on the way is released, except those that refuse; earlier records are as before either way |
| `Holdings.FailedBatchDrops` | crates/matrix-core/src/kernel.rs:1996-2014 | after a failed batch other instances keep their subscriptions, and a capability entry survives exactly when its name was not acquired before the failing item: the releases restore no entry that was replaced |
| `Holdings.FailedBatchCanDrop` | crates/matrix-core/src/kernel.rs:1996-2014 | a batch that takes a name and then fails leaves nobody providing it, whoever did before |
| `Holdings.DisposeOk` | crates/matrix-core/src/kernel.rs:2853-3057 | a whole dispose keeps the invariant |
| `Holdings.FinalizeOk` | crates/matrix-core/src/kernel.rs:1788-1837 | finalizing keeps the invariant |
| `Holdings.AlwaysHeld` | crates/matrix-core/src/kernel.rs:1841-2062 | in every reachable state index and records agree, no handle was claimed twice, and every registry or bus entry is backed by a resource its instance still holds |
| `Holdings.ParkedPublishesNothing` | crates/matrix-core/src/kernel.rs:2896-2913 | an activation awaiting cleanup or disposed publishes nothing |
| `Holdings.DisposedHoldsNothing` | crates/matrix-core/src/kernel.rs:1841-1874 | a Disposed activation holds nothing and publishes nothing |
| `Holdings.DisposeKeepsOthers` | crates/matrix-core/src/kernel.rs:2853-3057 | disposing leaves every other instance's entries, subscriptions and resources unchanged |
| `HoldingsObject.Holder.ReleaseContextResources` | crates/matrix-core/src/kernel.rs:1841-1874 | the reverse loop and the failures it reports |
| `HoldingsObject.Holder.RevokePublications` | crates/matrix-core/src/kernel.rs:2899-2913 | the loop over the owner's handles |
| `HoldingsObject.Holder.DisposeInstance` | crates/matrix-core/src/kernel.rs:2853-3057 | performs the dispose transition, keeps the invariant and leaves the others unchanged |
| `HoldingsObject.Holder.MaybeFinalize` | crates/matrix-core/src/kernel.rs:1788-1837 | performs the finalize transition and keeps the invariant |
| `HoldingsObject.Holder.AcquireResource` | crates/matrix-core/src/kernel.rs:1881-1992 | rejects an activation that is not Active; otherwise registers, publishes and revalidates, undoing both when the activation is no longer current and Active |
| `HoldingsObject.Holder.ReleaseResource` | crates/matrix-core/src/kernel.rs:2019-2070 | a pinned resource is kept; otherwise releases and unpublishes |
| `HoldingsObject.Holder.AcquireBatch` | crates/matrix-core/src/kernel.rs:1996-2014 | the batch loop with its releases, newest first, keeping the invariant |
| `HoldingsObject.Holder.Rollback` | crates/matrix-core/src/kernel.rs:2419-2434 | releases what was acquired, newest first |
| `HoldingsObject.Holder.AcquireDefinition` | crates/matrix-core/src/kernel.rs:2373-2417 | the loop of the all-or-none acquisition and its rollback |
| `Agreement.DisposeAgrees` | crates/matrix-core/src/kernel.rs:2853-3057 | a dispose with all its releases moves the context table exactly as the lifecycle model's single transition does |
| `Agreement.FinalizeAgrees` | crates/matrix-core/src/kernel.rs:1788-1837 | a finalize that settles moves the table as the lifecycle model's does; one that cannot changes at most the cause shown |
| `Agreement.ReleasedExactly` | crates/matrix-core/src/kernel.rs:1841-1874 | the reverse loop releases exactly the held resources that do not refuse, and reports a failure exactly when one does |
| `Agreement.SettleAgrees` | crates/matrix-core/src/kernel.rs:1841-1874 | settling leaves held what the release step of the interleaved machine leaves, and is Disposed exactly when that is |
| `Agreement.DisposeFitsPath` | crates/matrix-core/src/kernel.rs:2853-3057 | a whole dispose ends in the phase, and holding what, the uninterrupted claim, scan, check and mark or release path of the interleaved machine ends with |
| `Outcomes.AcquireOutcome` | crates/matrix-core/src/kernel.rs:1881-1992 | an acquisition succeeds exactly when the activation is in service, the table takes the resource and revalidation still finds it there: one more record, held and published; otherwise the records are as before |
| `Outcomes.AcquireElsewhere` | crates/matrix-core/src/kernel.rs:1881-1992 | whether it succeeds or is undone, it touches no publication but its own |
| `Outcomes.ReleaseOutcome` | crates/matrix-core/src/kernel.rs:2019-2070 | a release that is not pinned marks exactly that record, unless it refuses, and withdraws exactly that publication |
| `Outcomes.DisposeOutcome` | crates/matrix-core/src/kernel.rs:2853-3057 | the dispose that claims withdraws every publication; with calls in flight it parks and releases nothing, otherwise it releases exactly what does not refuse and parks exactly when something does; any other dispose changes nothing |
| `Outcomes.FinalizeOutcome` | crates/matrix-core/src/kernel.rs:1788-1837 | a parked activation without calls in flight is settled in the same way; any other stays |
| `Acquiring.AlwaysInv` | crates/matrix-core/src/kernel.rs:1881-1992 | in every interleaving of acquisitions, releases and one dispose, everything shown or held is accounted for: by a record the dispose has yet to reach, by a caller about to take it back, or by a refusal |
| `Acquiring.RaceLeavesNothing` | crates/matrix-core/src/kernel.rs:1930-1992 | once all callers have finished, an activation whose dispose has gone through its publications shows nothing, and a Disposed one holds nothing either |
| `Acquiring.KeptIff` | crates/matrix-core/src/kernel.rs:1881-1992 | a caller that has published keeps what it acquired exactly when no dispose has been claimed and the activation has not been superseded |
| `Acquiring.AcquiresAlone` | crates/matrix-core/src/kernel.rs:1881-1992 | a caller nobody interrupts ends with its resource held and shown |
| `Stream.SenderLeg.RelayData` | crates/matrix-host/src/lib.rs:3188-3263 | a chunk is forwarded exactly when the leg is live, it is the next in sequence, it fits the grant and there is quota; only then does the sent count grow, by its length; the leg ends exactly on a live chunk in sequence that does not fit |
| `Stream.SenderLeg.AddCredit` | crates/matrix-host/src/lib.rs:2976-2990 | credit is added to a live leg up to the 64-bit maximum, and nothing else changes |
| `Stream.ReceiverLeg.OnStreamData` | crates/matrix-runtime/src/route_executor.rs:544-666 | a chunk is taken exactly when the leg is live and it is the first, or the next in sequence and within grant and cap; the leg ends exactly on one in sequence that is not; the top-up is 32 KiB, or what is left to the cap, when less than 32 KiB would stay open |
| `Stream.ReceiverLeg.OnStreamTerminal` | crates/matrix-runtime/src/route_executor.rs:669-681 | ends the leg: whatever frames arrive afterwards, its state no longer changes |
| `Stream.TerminalIsFinal` | crates/matrix-runtime/src/route_executor.rs:669-681 | after a terminal the receiver takes nothing more, whatever arrives |
| `Stream.CreditHolds` | crates/matrix-runtime/src/route_executor.rs:544-617 | over a channel that loses, delays, reorders or repeats data and loses or delays credit: accepted <= sent <= sender grant <= receiver grant <= 1 MiB, no over-credit end, and 32 KiB stay open unless the grant is at its cap |
| `Stream.AcceptedIsContiguous` | crates/matrix-runtime/src/route_executor.rs:544-617 | the accepted bytes are one contiguous piece of what was forwarded |
| `Stream.RoundArrives` | crates/matrix-runtime/src/route_executor.rs:544-617 | a chunk within the window, offered with quota and delivered with its credit, is accepted, and both ends stand level again |
| `Stream.EverythingArrives` | crates/matrix-runtime/src/route_executor.rs:544-617 | a stream of chunks of at most 32 KiB, 1 MiB in all, arrives whole over a channel that delivers everything: the windows never stop it |
| `Stream.FirstChunkDecides` | crates/matrix-runtime/src/route_executor.rs:566-600 | the first chunk is taken without a window check: for any frames the receiver stays within its grant exactly when that chunk is at most 96 KiB, and within the cap exactly when it is at most 1 MiB |
| `Stream.FirstChunkOverruns` | crates/matrix-runtime/src/route_executor.rs:566-600 | a first chunk one byte over 96 KiB is taken and leaves the receiver past its own grant |
| `Json.ReadString` | crates/matrix-proto/src/envelope.rs:168-216 | the loop reads a string body and unescapes it, or fails exactly where the recursive reading does |
| `Json.ReadPrinted` | crates/matrix-proto/src/envelope.rs:168-216 | reading any printed string gives its content back, unless it spells a surrogate half |
| `Json.SkipWord` | crates/matrix-proto/src/envelope.rs:217-241 | passes over a literal word or a run of number characters |
| `Json.SkipsNumber` | crates/matrix-proto/src/envelope.rs:217-241 | a number of section 6 of RFC 8259 is passed over exactly |
| `Json.ScanStep` | crates/matrix-proto/src/envelope.rs:250-353 | one token of the scanner, every branch and fault |
| `Json.ScanStructure` | crates/matrix-proto/src/envelope.rs:154-359 | the loop with its index and frame stack computes the scan of the whole text |
| `Json.ScanValue` | crates/matrix-proto/src/envelope.rs:154-359 | the stack machine reads a value exactly when the recursive check on the document tree passes, and leaves the stack as it was |
| `Json.PassesIff` | crates/matrix-proto/src/envelope.rs:131-132 | the recursive check is unique keys, bounded nesting and no surrogate half |
| `Json.ScanDecides` | crates/matrix-proto/src/envelope.rs:154-359 | every JSON text of sections 2 to 7 of RFC 8259 is accepted exactly when no object repeats a key after unescaping, nesting is at most 32 and no `\u` escape is a surrogate half |
| `Json.SurrogatePairRejected` | crates/matrix-proto/src/envelope.rs:168-216 | the escaped pair of section 7 of RFC 8259 is well formed and is rejected |
| `IdWindow.Window.Check` | crates/matrix-proto/src/handshake.rs:141-157 | map and queue stay mirrors of each other, the size stays within the cap, and the verdict is the specification's |
| `IdWindow.NewIdsAreApart` | crates/matrix-proto/src/handshake.rs:141-157 | two New verdicts for one id are more than `cap` New verdicts apart |
| `IdWindow.DuplicateIffRecent` | crates/matrix-proto/src/handshake.rs:141-157 | an id is judged a duplicate exactly when it is among the last `cap` ids judged New, and the same request exactly when that one had the same content |
| `Restart.RestartBudget.Reserve` | crates/matrix-guard/src/lib.rs:297-325 | the deque loop grants or refuses a restart and sets the next allowed time as specified; a policy out of bounds is refused and changes nothing |
| `Restart.DelayBounds` | crates/matrix-guard/src/lib.rs:312-320 | a delay is the backoff doubled with each held attempt up to ten, plus less than one backoff, and at most 60000 |
| `Restart.DelayGrows` | crates/matrix-guard/src/lib.rs:312-320 | delays never shrink as held attempts rise to ten |
| `Restart.WindowBound` | crates/matrix-guard/src/lib.rs:297-325 | over any non-decreasing times no half-open interval as long as the window holds more than `max_restarts` grants |
| `Restart.GrantedIff` | crates/matrix-guard/src/lib.rs:297-325 | a restart is granted exactly when fewer than `max_restarts` grants are less than a window old, and put off by the delay for that many |

## Left out

- Calls.CallsTable.RevokeDescendants: revokes direct children only, as the code does; the comment above it promises descendants.
- Tickets.NeverStranded: excludes runs with a stranding rollback; `Tickets.StrandedIff` gives the exact condition.
- Admission.QuotaConserved: stated for runs whose rollbacks find their ticket; `Admission.ConservedIff` shows that these are exactly the runs for which it holds.
- Admission.ChainsBounded: compares a deadline with parents that are dependency calls, because a root call that drains may be given a later deadline.
- KernelObject.Kernel.Dispose: states the claim, the final state and the plugin entry; what is revoked and released is in `Holdings`, calls and drains are in `Tickets`, and both reach it as `busy` (`Agreement.DisposeAgrees`).
- KernelObject.Kernel.PromoteWaiting: acquisition is taken to succeed, because the reconciler's names are taken to be valid; its failure is `Holdings.ProvisionAllOrNone`.
- KernelObject.Kernel.CreateActive: acquisition is taken to succeed, as for promotion.
- HoldingsObject.Holder.DisposeInstance: calls in flight, drains and hooks are one `busy` argument; their interleaving is in `Tickets`.
- KernelObject.Kernel.Reconcile: convergence is claimed for acyclic local definition sets; while a cycle exists the pass returns early, and definitions that are not on a cycle stay as they are.
- Holdings.AlwaysHeld: each kernel operation is one step; inside `acquire` an entry can be published for a moment before revalidation takes it back, and what that leaves behind is `Acquiring.RaceLeavesNothing`.
- Effects.EffectHistory: each kernel operation is one step; `commit_effect` checks and sets under separate locks.
- Remote providers: registration and attested generations in the reconciler (a remote leg appears only in `Effects`, as an outcome).
- Ownerless entries of instance 0 in the registry and the bus: no modelled operation creates them; the removal rule for them is kept.
- Failed activations keep their resources and entries, as in the code.
- Tickets.ScanHeedsPolicy: the deadline is a parameter of the visit, where the code adds the ticket's drain time to the clock; the revocation of children that follows the scan is a move by somebody else.
- `refresh_cleanup_cause`: only rewrites the text of a cause.
- `maybe_finalize` is one step in `Tickets`; its cleanup claim is not modelled.
- `reload`, `acquire_external`: built from the modelled operations.
- The context tree and the by-context index: they follow the by-instance records.
- Timer and task threads, `finish_release` and its joins: only whether a thread started is kept.
- Loss of a session during an open: covered only as a failing worker.
- The bound of 128 concurrent streams, the down direction of a stream and its delivery window.
- Hash collisions in `IdWindow`: "same content" means equal FNV-1a hashes, as in the code.
- Parsing of manifests and capability strings: capabilities are given in split form.
- The JSON parser run after the structure scan: it decides well-formedness, the scan does not.
- Journal, inventory, replay, reducers, `reset_bench`: logging, inspection and test support.
- Handshake negotiation, error-code tables and body validation: field-by-field checks.
- Sockets, TLS, framing, process spawning, sandboxing, the durable ledger, leases, route control, SDKs and the command line.
