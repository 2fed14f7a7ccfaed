# A verified model of the nonux kernel framework

nonux is a microkernel whose parts are components bound to named slots; the slots are
connected by edges over which messages flow, and the whole composition can be changed
while it runs. This project models the parts of it where state, order and failure meet,
and proves what they keep:

- live recomposition: the pause order, the lifecycle verbs, commit and rollback
  (`PauseOrder`, `Lifecycle*`, `Recompose*`, `Kernel`);
- message routing under pause policies, with handlers that call the router again at any
  depth (`Router*`, `IpcRouter`);
- the kernel dispatcher with its concurrent producers and its reply pool (`Dispatcher*`,
  `ReplyPool`, `KernelDispatcher`);
- hook chains whose callbacks register, unregister and dispatch again (`Hook*`);
- handles, channel endpoints and their reference counts over all processes (`Handle*`,
  `ChannelRing`);
- the buddy allocator (`Buddy*`);
- the configuration validator and the boot that relies on it (`CycleFinder`, `Bootstrap`);
- the initial archive, ramfs, the virtual file system and directory reading (`Cpio*`,
  `Archive`, `Ramfs*`, `Vfs*`, `Readdir`);
- path resolution in its fixed buffers (`Paths`, `PathBuffers`);
- the two scheduling policies (`Sched*`);
- the registry's lists and its change log (`Graph*`, `ChangeLog`).

Each subsystem has a module of functions on values, where the theorems are stated over all
inputs, runs or reachable states, and a module with the class or the loops that the source
has, proved to do what those functions say. The modules named `*Answers`, `*Effects`,
`RouterPolicies`, `RecomposeEdges` and `SchedTicks` say once more, without those functions,
what each operation answers and leaves. C pointers are identifiers. Callbacks, hooks,
handlers and the scheduler of concurrent steps are parameters that the theorems quantify
over. `Digraph`, `Sequences`, `Sums`, `Modulo` and `Bytes` hold the mathematics they share.

`dafny verify dfyconfig.toml` checks everything.

## Model

| member | source | states |
|---|---|---|
| PauseOrder.CollectAffected | framework/recompose.c:73-90 | collects the changed slots as given, not deduplicated, then the receiving ends of REWIRE entries that are not there yet; ENOMEM exactly when they outnumber the limit |
| PauseOrder.AffectedSlots | framework/recompose.c:73-90 | the collected slots are exactly the changed ones and the REWIRE targets, and are distinct whenever the changes are |
| PauseOrder.ScanEdges | framework/recompose.c:50-62 | collects the in-set edges of every slot, parallel edges and self-loops included; ENOMEM exactly when they outnumber the limit |
| PauseOrder.CountIncoming | framework/recompose.c:50-62 | the degree of a vertex is the number of edges into it, parallel ones counted apart |
| PauseOrder.Sweep | framework/recompose.c:108-119 | one sweep peels only vertices with no open edge into them, each once, and keeps the degrees the counts of open edges |
| PauseOrder.PeelSources | framework/recompose.c:107-120 | Kahn on any edge list: OK exactly when it is acyclic, then a permutation in which every edge goes forward |
| PauseOrder.CompletePeeling | framework/recompose.c:107-120 | a complete peeling ranks every edge forward, so the edges have no cycle |
| PauseOrder.StuckIsCyclic | framework/recompose.c:110-118 | when every vertex left has an unpeeled edge into it, what is left holds a cycle: why giving up is right |
| PauseOrder.SameCycles | framework/recompose.c:50-62 | the indexed edge list is acyclic exactly when the registry edges among the affected slots are |
| PauseOrder.BuildPauseOrder | framework/recompose.c:64-121 | the three outcomes told apart exactly for every plan and graph; on OK the order lists each affected slot once, dependents before dependencies |
| Composition.DependenciesAreEdges | framework/registry.c:690-696 | the dependencies walked from a slot are exactly the registry edges that leave it |
| Lifecycle.PauseEffect | framework/component.c:192-231 | a pause succeeds as a whole (component PAUSED, all its slots DONE) or leaves stages alone and its slots as they were or open; which of the two, and with what status, is `LifecycleAnswers.PauseAnswers` |
| Lifecycle.PauseTrace | framework/component.c:192-231 | what a pause drains and replays, successful or not: only slots of the component, each with the outside slots DONE before it still DONE and the open ones still open |
| Lifecycle.DrainSlotsTrace | framework/component.c:133-152 | every bound slot is drained exactly once, in list order, with the slots already DONE recorded as quiet |
| Lifecycle.ResumeEffect | framework/component.c:233-251 | a resume whose callbacks succeed makes the component ACTIVE and its slots open, replays them, and leaves nothing held for them |
| Lifecycle.ReopenSlotsTrace | framework/component.c:160-165 | every slot reopened is replayed once, in order, never closing a slot that was open |
| Lifecycle.ReopenSlotsEmpty | framework/component.c:160-165 | reopened slots end with empty hold queues, and so do open slots that had none |
| Lifecycle.ShiftEffect | framework/component.c:87-95 | a transition moves the stage of one component and no slot |
| RecomposeLegal.PauseLawful | framework/component.c:36-54 | pausing moves components along the lifecycle matrix only |
| RecomposeLegal.ResumeLawful | framework/component.c:36-54 | resuming moves components along the lifecycle matrix only |
| RecomposeLegal.RunLawful | framework/component.c:36-54 | over a whole recomposition, committed or rolled back, with any callbacks, every component moves along a path of legal transitions; a destroyed one stays destroyed |
| Recompose.PauseNext | framework/recompose.c:214-230 | one more slot of the pause loop: halted as a whole or, on failure, everything as before it |
| Recompose.RollbackRestores | framework/recompose.c:213-230 | a pause that fails anywhere leaves bindings, stages, pause states and edges as before the call, if nothing in the order was paused on entry |
| Recompose.RollbackExactly | framework/recompose.c:213-230 | a failed call restores the composition if and only if no slot passed before the failure held a component that was already PAUSED |
| Recompose.RollbackFails | framework/recompose.c:217-229 | a concrete composition, one component PAUSED on entry and the next one vetoed, on which rollback resumes what the call did not pause |
| RecomposeEffect.SwapAllEffect | framework/recompose.c:242-257 | after the swap loop each replaced slot is bound to its new component, whoever was replaced is destroyed exactly if bound nowhere any more, and no other slot or stage moved |
| RecomposeEffect.ReviveAllEffect | framework/recompose.c:276-287 | the resume loop makes exactly the READY and PAUSED components of the order ACTIVE, opens their slots and empties their hold queues |
| RecomposeSuccess.SuccessRecomposes | framework/recompose.c:181-308 | a call whose pauses succeed returns OK and installs exactly the plan: the whole map of bindings, stages and pause states after it is given by the one before it; what becomes of the edges is `RecomposeEdges.CommitEdges` |
| RecomposeSuccess.NobodyElseStops | framework/recompose.c:181-308 | afterwards replaced slots run their new component with nothing held, every ACTIVE bystander is still ACTIVE, every replaced one is DESTROYED |
| RecomposeOrder.RunInOrder | framework/recompose.c:213-287 | every drain and replay of a call, committed or rolled back, keeps to the order: a slot is drained when the earlier ones are DONE and replayed when the later ones are open |
| RecomposeOrder.EdgesInOrder | framework/recompose.c:213-287 | in terms of registry edges u→v of the plan: v is drained after u is paused, u is replayed after v is open |
| RecomposeTheorem.OrderServes | framework/recompose.c:64-121 | under the side conditions every dependents-first order of the planner meets what the success and ordering theorems ask |
| RecomposeTheorem.RunKeeps | framework/recompose.c:181-308 | for every plan that meets the side conditions and every dependents-first order, components shared with slots outside the plan included: the composition is recomposed exactly on success, its edges come about by the plan entry by entry with the right balance for every pair and every other edge in place, and it is untouched on failure; either way every drain and replay respects every registry edge of the plan |
| Kernel.Registry.Pause | framework/component.c:192-231 | the in-place pause, cutoff, drain, deadline, `ops->pause`, DONE and its rollbacks, equal to the verb whose answers and effects are `LifecycleAnswers.PauseAnswers` and `PauseLeaves` |
| Kernel.Registry.Resume | framework/component.c:233-251 | the in-place resume equal to its verb: what `ResumeEffect` says holds of the object |
| Kernel.Registry.Enable | framework/component.c:112-123 | the in-place enable equal to its verb, legal only from READY |
| Kernel.Registry.Disable | framework/component.c:253-265 | the in-place disable equal to its verb, legal from ACTIVE and PAUSED |
| Kernel.Registry.Destroy | framework/component.c:267-281 | the in-place destroy equal to its verb: refused while some slot is bound to the component |
| Kernel.Registry.IsBound | framework/registry.c:272-279 | true exactly when some registered slot is bound to the component |
| Kernel.Registry.CheckPlan | framework/recompose.c:186-195 | the first failing check of the first failing change, in the order the source makes them |
| Kernel.Registry.PauseOrUnwind | framework/recompose.c:213-230 | the pause loop and its reverse unwinding in place |
| Kernel.Registry.SwapSlots | framework/recompose.c:242-257 | the disable, bind, destroy loop in place, with the components bound before the call |
| Kernel.Registry.ResumeSlots | framework/recompose.c:276-287 | the bottom-up enable or resume loop in place |
| Kernel.Registry.Notify | framework/recompose.c:295-305 | the dependents of every replaced slot are called back, once per edge |
| Kernel.Registry.Recompose | framework/recompose.c:181-308 | refused plans (invalid, over the limits, cyclic) change nothing and are told apart exactly; any other plan runs the phases over a dependents-first order and, under the side conditions, keeps what `RunKeeps` says, edges included |
| RouterTidy.FindHoldIs | framework/ipc.c:131-145 | the entry found is the first of the pair, and there is none in front of it |
| RouterTidy.HoldMsgFiled | framework/ipc.c:131-154 | holding a message keeps one entry per pair, none of them empty, each message in the entry of its own pair |
| RouterTidy.TopLeftNotHeld | framework/ipc.c:404-426 | while the flush on top has messages for an open slot, none of their pair is held |
| RouterTidy.RunTidy | framework/ipc.c:131-426 | on every run, with slots paused and reopened at will: one entry per pair, messages filed where they belong, a flush stands behind entries of other slots only, and whatever is held for an open slot lies ahead of a flush of it |
| RouterOrder.StepMoves | framework/ipc.c:276-426 | of all the steps of the router and its handlers only a send to a QUEUE edge changes the line of its messages: the message goes in at the end, or ahead of older ones if it is late |
| RouterOrder.RunExact | framework/ipc.c:276-426 | along every run the line of an edge (handled, inbox, held, being replayed) is the accepted messages, each once, and out of order as soon as one came late, for ever |
| RouterOrder.OrderExactly | framework/ipc.c:276-426 | over every run with handlers that send, drain, pause and reopen any slot: the line of a QUEUE edge is the accepted messages in order if and only if none came while older ones were detached and not yet replayed, or held for the slot already open |
| RouterOrder.NothingLost | framework/ipc.c:276-426 | in order or not, every accepted message is in exactly one of the four places, exactly once |
| RouterOrder.NeverLostNorReordered | framework/ipc.c:276-426 | while nobody sends to the edge from within a replay of its destination, its messages reach the handler or the inbox in the order they were accepted |
| RouterOrder.AsyncNeverReordered | framework/ipc.c:276-426 | if every edge into the destination is ASYNC the order holds on every run, whatever handlers do |
| RouterOvertakes.SyncOvertakes | framework/ipc.c:404-426 | a run from the empty router on a SYNC QUEUE edge: accepted 1, 2, 3, handled 1, 3 while 2 still waits |
| RouterOvertakes.AsyncOvertakes | framework/ipc.c:404-426 | a run on an ASYNC QUEUE edge whose destination also has a SYNC edge: accepted 1, 3, inbox 3, 1 |
| RouterFailures.HeldOvertakes | framework/ipc.c:404-426 | a run in which the handler of a replayed message pauses its slot: accepted 1, 2, 3, handled 1, held 3, 2, all calls returned |
| RouterCursor.OpenDoom | framework/ipc.c:412-416 | reopening a slot dooms exactly the flushes that stand behind an entry for it |
| RouterCursor.DetachDoom | framework/ipc.c:416-422 | taking an entry off the list leaves a pointer loose exactly if its flush was doomed before |
| RouterCursor.StepDoom | framework/ipc.c:404-426 | a step dooms a run exactly if it reopens a slot while a flush stands behind an entry for it, and no step saves a doomed one |
| RouterCursor.DanglesExactly | framework/ipc.c:404-426 | on every run: some flush points into a freed entry, or is going to, if and only if a slot was reopened while a flush stood behind an entry for it |
| RouterCursor.ReadsExactly | framework/ipc.c:413-415 | a flush that turns to the list has exactly one way to go on, and none exactly if the entry it stands behind is gone |
| RouterCursor.NeverReturns | framework/ipc.c:404-426 | once doomed, no way of going on empties the call stack |
| RouterCursor.AtRest | framework/ipc.c:276-426 | when all calls have returned: no flush read a freed entry, every accepted message of a QUEUE edge is handled, in the inbox or held, and they are in order if and only if none was late |
| RouterCursor.CalmNeverDangles | framework/ipc.c:404-426 | no pointer dangles if nobody reopens a slot from within the replay of another |
| RouterFailures.FlushDangles | framework/ipc.c:404-426 | a run in which the handler of a replayed message reopens another slot: the outer flush comes back to a pointer into a freed entry and has no step |
| RouterEndless.StepIsEnabled | framework/ipc.c:404-426 | a flush whose slot is paused under it has exactly one way to go on, and runs no handler |
| RouterEndless.EndsExactly | framework/ipc.c:404-426 | such a flush ends if and only if it does not stand at the head of the list with an entry for its slot there once the queue in hand is held again |
| RouterFailures.FlushEndless | framework/ipc.c:404-426 | a run in which the handler of a message replayed from the head of the list pauses its slot: the flush never ends |
| IpcRouter.ReplayKeeps | framework/ipc.c:418-421 | a replay leaves what lies ahead of the pointer as it was, unless the pointer is at the head and the slot paused |
| IpcRouter.Switchboard.LookUpEdge | framework/ipc.c:211-225 | the first connection of the list from source to destination |
| IpcRouter.Switchboard.ScanCaps | framework/ipc.c:229-240 | accepts exactly when every slot reference carried names a slot the sender has an edge to |
| IpcRouter.Switchboard.HoldBack | framework/ipc.c:131-154 | appended to the hold entry of its pair, or a new entry at the head of the list |
| IpcRouter.Switchboard.DoSend | framework/ipc.c:276-344 | every refusal and every policy in the order of the source, through up to four redirections, as one routing decision carried out; where it leads is `RouterPolicies.RouteExactly` and `RouteVetoed` |
| IpcRouter.Switchboard.SendMsg | framework/ipc.c:346-349 | exactly one send at the caller's level; if it starts a handler, that handler does its script and returns, and its status is the answer |
| IpcRouter.Switchboard.ReplayEntry | framework/ipc.c:418-421 | all messages of a detached entry go through the router again, in order, whatever the handlers run meanwhile call, unless one of those calls never returns |
| IpcRouter.Switchboard.PassEntry | framework/ipc.c:415-415 | the pointer goes on to the link of an entry for another slot |
| IpcRouter.Switchboard.FlushHolds | framework/ipc.c:404-426 | the walk with its pointer as a run of pass, detach and replay steps: it ends at the end of the list, or stops where the code would read a freed entry or has gone in a circle as often as it is followed |
| IpcRouter.Switchboard.ReopenSlot | framework/component.c:160-165 | opens the slot, then flushes it; if the slot is then open and not being flushed further out, nothing is held for it |
| IpcRouter.Switchboard.DispatchOne | framework/ipc.c:360-384 | one message off the inbox; goes on exactly after a veto or a handler that succeeded |
| IpcRouter.Switchboard.DispatchInbox | framework/ipc.c:351-388 | takes exactly as many messages off the inbox as it says, at most `max`, and stops early only at an empty inbox, without a handler or after one that failed |
| IpcRouter.Switchboard.RunActs | framework/ipc.c:260-272 | what component code does with the router (send, drain, pause, reopen) is done act by act, whatever the handlers reached do in between |
| Dispatcher.AlwaysInv | framework/dispatcher.c:261-392 | every interleaving of any number of producers with the dispatcher thread, one atomic operation at a time, keeps the counts of tokens, the pool bitmap, the FIFO and the replies owed |
| Dispatcher.DrainedIsQuiet | framework/dispatcher.c:261-392 | whenever a slot's in-flight count is zero, nothing is queued for it, no producer past its count is on the way to it and no handler of it runs |
| Dispatcher.QueuedIsPending | framework/dispatcher.c:71-75 | the sleep predicate never misses a message: the pending count is at least the queue length at every step |
| Dispatcher.RestIsExact | framework/dispatcher.c:261-392 | between calls the pending count, every in-flight count and the pool bitmap are exact |
| Dispatcher.AnsweredExactly | framework/dispatcher.c:311-392 | with the queue empty, each reply has been delivered as often as requests came to it, and the reply pool is free |
| Dispatcher.DrainsAndAnswers | framework/dispatcher.c:397-411 | while each request finds a free entry, pumping as often as there is work empties the queue, frees the pool, zeroes every count and has answered every request exactly |
| DispatcherCapacity.FreeIff | framework/dispatcher.c:128-160 | the scan for the lowest free entry finds one exactly if fewer are in use than there are |
| DispatcherCapacity.SufficesExactly | framework/dispatcher.c:110-160 | the dispatcher never meets an exhausted pool, whatever handlers answer, if and only if each request in the queue finds fewer entries in use than there are, counting those taken and given back in front of it |
| DispatcherCapacity.CapacityDrains | framework/dispatcher.c:397-411 | under that condition pumping drains the queue, frees the pool and answers every request exactly |
| DispatcherCapacity.CountSuffices | framework/dispatcher.c:110-160 | requests queued and replies outstanding that together fit the pool meet the condition |
| Dispatcher.EnqueueIsSteps | framework/dispatcher.c:261-287 | an enqueue run to its end is its four steps |
| Dispatcher.PumpIsSteps | framework/dispatcher.c:311-392 | a pump run to its end is its steps, request, reply or plain message |
| ReplyPool.LowestClearAt | framework/dispatcher.c:128-160 | the bit picked from a word is its lowest clear one: it is clear and all below it are set |
| ReplyPool.BitIndex | framework/dispatcher.c:128-160 | the index of the only set bit of a word, found by shifting |
| ReplyPool.Bitmap.Alloc | framework/dispatcher.c:128-160 | hands out the lowest entry not in use and marks it alone; fails exactly when all are in use |
| ReplyPool.Bitmap.Free | framework/dispatcher.c:171-181 | the entry and no other becomes free |
| KernelDispatcher.Loop.Enqueue | framework/dispatcher.c:261-287 | in place: one count, one announcement, one push, no message refused but the missing one |
| KernelDispatcher.Loop.PumpOnce | framework/dispatcher.c:311-392 | in place over the queue, the counters and the bitmap: empty, exhausted or one message exactly as `Dispatcher.Pumped` says with an entry that was free; a request is answered to its sender with the status of its handler, last in the queue, and nothing else is |
| Hooks.InsertSorted | framework/hook.c:31-50 | insertion keeps a chain sorted by priority, equal priorities in order of registration |
| Hooks.RunInv | framework/hook.c:31-127 | whatever callbacks register, unregister and dispatch at any depth, chains stay sorted and every dispatch in progress stands at a live position of its chain |
| Hooks.NeverCalledOnceGone | framework/hook.c:80-127 | no hook is called after its unregister, in this or any nested dispatch, until it is registered again |
| Hooks.EndCallsAll | framework/hook.c:101-127 | a dispatch that reaches its end has called every hook live throughout, each once |
| Hooks.DispatchCallsEachOnce | framework/hook.c:101-127 | from start to regular end: each hook of the point live at the start and never unregistered in between is called exactly once, whatever callbacks do |
| Hooks.NoDeadAtRest | framework/hook.c:63-78 | no dead hook outlives the outermost dispatch |
| HookTable.Table.Register | framework/hook.c:31-50 | threads the hook behind the last one of no higher priority; EEXIST exactly when it is on the chain |
| HookTable.Table.Unregister | framework/hook.c:80-97 | unlinks at rest, marks dead during a dispatch; unknown hooks change nothing |
| HookTable.Table.Unlink | framework/hook.c:52-61 | one link written takes the hook out of its chain and disturbs no other chain |
| HookTable.Table.SweepAll | framework/hook.c:63-78 | all chains lose exactly their dead hooks and no mark is left |
| HookTable.Table.RunActs | framework/hook.c:31-127 | callback code does its script step for step, nested dispatches included, and leaves the dispatches around it where they stand |
| HookTable.Table.Dispatch | framework/hook.c:101-127 | over the links as stored: the calls made are distinct, follow the callbacks' scripts to the first abort or the end, and without abort include every hook live at the start and not unregistered |
| Handles.OwnHandle | framework/handle.c:33-53 | a live entry answers to the handle made of its own counter exactly while the counter fits 24 bits |
| Handles.HandlesAreNames | framework/handle.c:115-133 | two handles that resolve are the same number exactly if they resolve to the same entry |
| Handles.StaleExactly | framework/handle.c:137-158 | after any allocations and closes an old handle resolves again exactly when its entry is live and was closed a multiple of 2^32 times since |
| HandleRefs.RetainOk | framework/channel.c:156-164 | a reference gained keeps count and entries in step |
| HandleRefs.ReleaseOk | framework/channel.c:166-195 | a reference dropped closes the end with its last and frees the channel once both ends are gone |
| HandleCalls.CloseKeeps | framework/syscall.c:235-279 | closing keeps every count equal to the entries naming its end |
| HandleCalls.DupKeeps | framework/syscall.c:2559-2615 | `F_DUPFD` keeps every count right |
| HandleCalls.DupNames | framework/syscall.c:2559-2615 | its answer names the copy, under the number the first handle of that entry had |
| HandleCalls.Dup3Keeps | framework/syscall.c:2395-2491 | dup3 keeps every count right unless it replaces the last reference of an end by itself |
| HandleCalls.Dup3Breaks | framework/syscall.c:2395-2491 | and otherwise leaves the end marked closed with a reference to it |
| HandleCalls.Dup3Names | framework/syscall.c:2395-2491 | the number asked for names the copy afterwards, whatever the entry's counter was; asking for 0 fills entry 2, which handle 3 then names |
| HandleCalls.CreateKeeps | framework/syscall.c:290-333 | creation, successful or undone, keeps every count right if what it must close again can be named |
| HandleCalls.CreateBreaks | framework/syscall.c:290-333 | and otherwise leaves an entry naming a freed channel |
| HandleCalls.ForkExactly | framework/syscall.c:865-980 | fork keeps the counts exactly if the child's task was made or the parent has no channels |
| HandleCalls.ForkKeepsNames | framework/syscall.c:891-961 | a handle value means in the child what it means in the parent, for every inherited entry |
| HandleCalls.ExitExactly | framework/process.c:272-282 | exit keeps the counts exactly if every channel entry's counter still fits its handle |
| HandleCalls.StepExactly | framework/syscall.c:235-2615 | over all six calls: a call keeps the counts, closed marks and frees right if and only if it fits |
| HandleCalls.CountsAreEntries | framework/channel.c:156-195 | along every run of fitting calls an end's count is the number of entries naming it over all processes, it is closed exactly when nobody names it, and a channel is freed exactly once, when neither end is named |
| HandleFailures.SameSlotDup3Fails | framework/syscall.c:2395-2491 | from boot: create a channel, then dup3 handle 4 onto 260, the same entry |
| HandleFailures.LateForkFails | framework/syscall.c:963-968 | from boot: create a channel, then fork without memory for the child's task |
| HandleFailures.UndoneCreateFails | framework/syscall.c:316-330 | from boot: an entry brought to counter 2^24, then a creation whose handles cannot be copied out |
| HandleFailures.ExitFails | framework/process.c:272-282 | from boot: the same entry in use at exit keeps its name |
| HandleSpace.HandleTable.Alloc | framework/handle.c:84-111 | the lowest free entry, in place |
| HandleSpace.HandleTable.Lookup | framework/handle.c:115-133 | finds exactly the entry the handle names, or the error the source gives |
| HandleSpace.HandleTable.Close | framework/handle.c:137-158 | clears the entry and advances its counter, in place |
| HandleSpace.Processes.CreateChannel | framework/syscall.c:290-333 | in place: both ends at their entries, or everything taken back |
| HandleSpace.Processes.CloseHandle | framework/syscall.c:235-279 | in place: the object released, the entry cleared |
| HandleSpace.Processes.Dup3 | framework/syscall.c:2395-2491 | in place, release before retain as the source has it; which entry is written and what is answered is `HandleEffects.Dup3Exactly` |
| HandleSpace.Processes.DupAbove | framework/syscall.c:2559-2615 | in place: the lowest free entry from the bound on, counter reset |
| HandleSpace.Processes.Fork | framework/syscall.c:865-980 | in place: inherited entries at the same positions, console elsewhere |
| HandleSpace.Processes.Exit | framework/process.c:272-282 | in place: the loop over all entries, closing each through the handle it makes of the counter |
| ChannelRing.Send | framework/channel.c:107-129 | what was sent to an end is its received messages and its ring, in order; refused exactly when too long, closed or full |
| ChannelRing.Receive | framework/channel.c:131-154 | gives the oldest waiting message whole or an error that consumes nothing; 0 exactly when empty with the peer closed |
| BuddyLists.AllocSound | components/mm_buddy/mm_buddy.c:120-146 | failure changes nothing; success gives one aligned block carved out of a free one, disjoint from all allocated ones |
| BuddyLists.FreeSound | components/mm_buddy/mm_buddy.c:148-171 | giving back an allocated block keeps the pool tiled and leaves no two free buddies |
| BuddyLists.RunSound | components/mm_buddy/mm_buddy.c:120-171 | after every run free and allocated blocks tile the pool, each page in exactly one, and no two free buddies coexist |
| BuddyLists.AllocFailsExactly | components/mm_buddy/mm_buddy.c:120-146 | allocation fails exactly when no aligned run of that size is wholly free |
| BuddyLists.ListedAreMaximal | components/mm_buddy/mm_buddy.c:148-171 | the free lists hold exactly the maximal wholly free blocks |
| BuddyLists.FreePagesDecide | components/mm_buddy/mm_buddy.c:120-171 | which pages are free determines the lists as sets |
| BuddyLists.AllFreedIsInit | components/mm_buddy/mm_buddy.c:148-171 | however a run got there, with everything given back the pool is one block as at the start |
| BuddyLists.HistoryIsForgotten | components/mm_buddy/mm_buddy.c:120-171 | runs that leave the same blocks allocated leave the same free lists as sets |
| BuddyPool.Allocator.constructor | components/mm_buddy/mm_buddy.c:194-210 | one free block of the whole pool |
| BuddyPool.Allocator.RemoveNode | components/mm_buddy/mm_buddy.c:108-116 | unlinks the page from its list by the one link that leads to it, or finds it is not there |
| BuddyPool.Allocator.AllocPages | components/mm_buddy/mm_buddy.c:120-146 | over links threaded through the free pages: exactly the allocation of the lists, and the ghost set of allocated blocks grows by it |
| BuddyPool.Allocator.FreePages | components/mm_buddy/mm_buddy.c:148-171 | over the links: exactly the coalescing of the lists |
| CycleFinder.BuildDepGraph | tools/validate-config.py:224-242 | an edge for every required or optional dependency between configured slots, and no other |
| CycleFinder.FinishedIsAcyclic | tools/validate-config.py:245-289 | nodes finished in postorder have no cycle |
| CycleFinder.BackEdgeCloses | tools/validate-config.py:265-280 | an edge back into the stack closes a walk along the stack |
| CycleFinder.Reconstruct | tools/validate-config.py:268-280 | the parent links give a closed walk of the graph, self-loops included |
| CycleFinder.FindCycle | tools/validate-config.py:245-289 | no answer exactly when the graph is acyclic, for every order of roots; otherwise a closed walk of the graph |
| Bootstrap.DepsReady | framework/bootstrap.c:73-98 | ready exactly when every required dependency is bound to a component that is up |
| Bootstrap.StuckIsCyclic | framework/bootstrap.c:186-192 | a sweep without progress means an unbound requirement or a cycle |
| Bootstrap.BringUp | framework/bootstrap.c:158-193 | components come up after what they require; OK with all components works exactly when everything is bound and acyclic; NX_ELOOP of the loop itself only otherwise |
| Bootstrap.ValidatedIsAcyclic | framework/bootstrap.c:158-193 | no cycle among configured slots means none among component requirements, unbound alternatives included |
| Bootstrap.ValidateThenBoot | framework/bootstrap.c:100-223 | after the build-time cycle check the bring-up loop never stalls, and brings everything up if the components' own callbacks succeed |
| Cpio.Hex8RoundTrip | components/ramfs/ramfs.c:559-571 | reading eight hexadecimal digits gives back the number written |
| CpioRoundTrip.SlurpPacked | components/ramfs/ramfs.c:582-639 | reading a packed archive is storing its members in order up to the first at which the reader gives up |
| CpioRoundTrip.SlurpOk | components/ramfs/ramfs.c:582-639 | whatever the bytes, reading them only adds well-formed entries |
| CpioRoundTrip.ParseUndoesPack | tools/pack-initramfs.py:64-148 | ramfs holds exactly the packed names and bytes, in order, if and only if at most 32 members were packed, each short enough, free of NUL and not named like the trailer |
| Archive.Blob.AppendEntry | tools/pack-initramfs.py:64-91 | the buffer grows by header, name, data and padding, or the error of `hex8` exactly when a field does not fit |
| Archive.PackSources | tools/pack-initramfs.py:93-148 | an archive exactly when every name is rooted and every entry fits; then the packing the round trip is about |
| RamfsTable.Ramfs.Slurp | components/ramfs/ramfs.c:582-639 | the table in place holds what parsing gives; the answer is the number added |
| RamfsTable.Ramfs.ReadDir | components/ramfs/ramfs.c:382-446 | one entry in place, as the listing theorem has it |
| RamfsTable.Ramfs.OpenPath | components/ramfs/ramfs.c:225-255 | opens, creates or refuses as the function on values does |
| RamfsTable.Ramfs.ClosePath | components/ramfs/ramfs.c:257-268 | drops a reference, and the open with the last |
| RamfsTable.Ramfs.ReadPath | components/ramfs/ramfs.c:279-296 | reads through the fixed buffer as the function on values does |
| RamfsTable.Ramfs.WritePath | components/ramfs/ramfs.c:298-321 | writes through the fixed buffer as the function on values does |
| RamfsTable.Ramfs.SeekPath | components/ramfs/ramfs.c:323-342 | moves the cursor only within the file |
| RamfsOpens.WriteSplices | components/ramfs/ramfs.c:298-321 | a write splices as much as fits at the cursor, or at the end when appending, and touches no other file or open |
| RamfsOpens.ReadGives | components/ramfs/ramfs.c:279-296 | a read gives the next bytes, fewer than asked only at the end of the file |
| RamfsOpens.WriteThenRead | components/ramfs/ramfs.c:279-342 | what was written comes back after seeking to where it went |
| VfsOpens.StepInv | components/vfs_simple/vfs_simple.c:149-245 | every call keeps wrappers and driver opens paired one to one with equal reference counts |
| VfsOpens.RunInv | components/vfs_simple/vfs_simple.c:149-245 | on every run: so paired, every cursor inside its file, every file inside its buffer |
| VfsOpens.ReleasedTogether | components/vfs_simple/vfs_simple.c:168-180 | a close frees the wrapper exactly when it frees the driver open, which is at the last reference |
| VfsTable.Vfs.OpenAt | components/vfs_simple/vfs_simple.c:149-166 | in place over the driver; no wrapper, no driver open left behind |
| VfsTable.Vfs.CloseAt | components/vfs_simple/vfs_simple.c:168-180 | in place: the driver first, then the wrapper |
| Readdir.ChildIff | components/ramfs/ramfs.c:361-380 | a name projects to a segment exactly when it is that segment directly under the directory or deeper below it |
| Readdir.ListingIsComplete | components/ramfs/ramfs.c:382-446 | the listing has every immediate child exactly once |
| Readdir.ReadOneLists | components/ramfs/ramfs.c:382-446 | one call moves the listing on by the name it gives, one cookie back is where it came from, and finding nothing means the end |
| Readdir.EmptyBatchIff | framework/syscall.c:1998-2047 | a batch is empty exactly at the end or when the next record does not fit |
| Readdir.EmptyAtStart | framework/syscall.c:1998-2047 | cookie 0, 16 bytes of room: empty although nothing has been listed |
| Readdir.RoomExactly | framework/syscall.c:1998-2047 | an empty batch means the end in every directory if and only if the buffer holds the longest record there can be, 56 bytes |
| Readdir.SessionLists | framework/syscall.c:1963-2057 | however reading is cut into calls and batches and whatever is created meanwhile: once a call with room comes back empty, what was returned is the listing, without repetition, of the files there when the end was met |
| VfsTable.DirCursor.Getdents | framework/syscall.c:1994-2053 | the packing loop: the names whose records fit, the bytes they take, and the cookie put back for the one that did not fit |
| Paths.Idempotent | framework/syscall.c:419-454 | normalising twice is normalising once |
| Paths.NormalSegments | framework/syscall.c:419-454 | a normal form is clean and its segments are the place the path leads to |
| Paths.NormalDecides | framework/syscall.c:419-454 | two paths have the same normal form exactly if they lead to the same place |
| Paths.NeverLonger | framework/syscall.c:419-454 | an absolute path never grows |
| Paths.RelativeIsFold | framework/syscall.c:460-484 | an untruncated relative path is followed from the working directory |
| PathBuffers.Normalize | framework/syscall.c:419-454 | in place with a position stack of half the buffer: the buffer holds the normal form, every index in bounds, relative paths untouched |
| PathBuffers.MakeAbsolute | framework/syscall.c:460-484 | in place: the normal form of the path, or of working directory and path joined as far as they fit |
| Schedulers.StepAgrees | components/sched_rr/sched_rr.c:81-233 | on one bucket both policies answer alike to every operation, and stay alike exactly unless a yield finds the running task queued but not at the head |
| Schedulers.PicksAfterYield | components/sched_priority/sched_priority.c:118-142 | with nobody blocked, the pick after a yield is the same under both policies if and only if the running task was off the queue or at its head |
| Schedulers.RotationsAgree | components/sched_priority/sched_priority.c:118-142 | moving the running task to the tail and rotating the head to the tail are the same exactly if it is the head |
| Schedulers.PoliciesAgree | components/sched_priority/sched_priority.c:67-168 | on traces whose yields find the running task at the head the policies show the same picks, answers and reschedule flags throughout |
| Schedulers.PicksHighest | components/sched_priority/sched_priority.c:67-80 | the first runnable task of the highest bucket with one, none exactly if nobody is runnable |
| Schedulers.RoundsAreFair | components/sched_priority/sched_priority.c:118-142 | as many rounds as the bucket has tasks pick each once, in order |
| Schedulers.StepConserves | components/sched_priority/sched_priority.c:82-168 | no operation loses, duplicates or invents a queued task |
| Schedulers.SetPriorityMoves | components/sched_priority/sched_priority.c:144-156 | a new priority moves the task to the tail of its new bucket, keeps everybody queued, and fails changing nothing |
| SchedPolicies.RoundRobinSched.PickNext | components/sched_rr/sched_rr.c:81-102 | the list walk picks what the policy function picks |
| SchedPolicies.RoundRobinSched.YieldHead | components/sched_rr/sched_rr.c:176-188 | the head goes to the tail, in place |
| SchedPolicies.PrioritySched.PickNext | components/sched_priority/sched_priority.c:67-80 | buckets from the top, each from its head |
| SchedPolicies.PrioritySched.YieldCurrent | components/sched_priority/sched_priority.c:118-142 | the running task's bucket, or the highest that is not empty, is rotated in place |
| SchedPolicies.PrioritySched.ChangePriority | components/sched_priority/sched_priority.c:144-156 | in place as `SetPriorityMoves` has it |
| GraphLists.RegisterSlotExactly | framework/registry.c:320-356 | registering keeps the registry right exactly if the slot is unbound or bound to a registered component |
| GraphLists.StaleBindingFails | framework/registry.c:419-442 | a run: bind, unregister the slot, unregister the component, and registering the slot again brings back a binding to what is gone |
| GraphLists.AttachKeeps | framework/registry.c:518-573 | a new edge keeps each slot's lists the global list filtered |
| GraphLists.DisconnectKeeps | framework/registry.c:603-640 | so does taking one out |
| GraphLists.StepExactly | framework/registry.c:320-640 | a mutation keeps the invariant if and only if it fits |
| GraphLists.NothingDangles | framework/registry.c:320-640 | after every run of fitting mutations no edge or binding leads out of the registry, each slot's lists are the global list filtered, and events are numbered without a gap |
| GraphTable.Tables.AddSlotNode | framework/registry.c:320-356 | in place, one event and one generation on success, nothing on any error |
| GraphTable.Tables.DropSlotNode | framework/registry.c:419-442 | in place; refused while edges remain |
| GraphTable.Tables.SwapActive | framework/registry.c:358-391 | in place; refused for unregistered slots and components |
| GraphTable.Tables.AddComponentNode | framework/registry.c:446-469 | in place; refused for a taken identity |
| GraphTable.Tables.DropComponentNode | framework/registry.c:471-493 | in place; refused while bound |
| GraphTable.Tables.AddConnection | framework/registry.c:518-573 | in place at the front of three lists |
| GraphTable.Tables.DropConnection | framework/registry.c:603-640 | in place out of three lists |
| ChangeLog.Ring.Append | framework/registry.c:144-149 | the ring holds the newest events of the whole history |
| ChangeLog.Ring.Read | framework/registry.c:163-182 | the kept events after a generation, oldest first, up to the limit |
| ChangeLog.Ring.Reset | framework/registry.c:184-189 | the history starts empty though the ring is not cleared |
| LifecycleAnswers.AskHeld | framework/ipc.c:131-154 | what callbacks send to a slot that is not open is held behind what was held before, in the order of sending; for an open slot nothing is added |
| LifecycleAnswers.PauseAnswers | framework/component.c:192-231 | a pause answers OK exactly if the component is ACTIVE, no hook vetoes, `pause_hook` agrees and is back in time, and `ops->pause` agrees; otherwise ESTATE, EABORT, EDEADLINE or the status given, for the first that fails |
| LifecycleAnswers.PauseLeaves | framework/component.c:192-231 | refused before the cutoff all stays as it was; refused later its slots are open with nothing held; otherwise they are DONE and the component PAUSED |
| LifecycleAnswers.ResumeAnswers | framework/component.c:233-251 | OK exactly from PAUSED with the agreement of the hook and of `ops->resume`, otherwise the status of whoever refused |
| LifecycleAnswers.ResumeLeaves | framework/component.c:233-251 | refused, stages and pause states stay; otherwise ACTIVE with every slot of the component open |
| LifecycleAnswers.EnableAnswers | framework/component.c:112-123 | each answer of an enable with the case it belongs to, and ACTIVE exactly after OK |
| LifecycleAnswers.DisableAnswers | framework/component.c:253-265 | each answer of a disable with the case it belongs to, and READY exactly after OK |
| LifecycleAnswers.DestroyAnswers | framework/component.c:267-281 | refused exactly when not READY or while bound; nobody can veto it |
| LifecycleAnswers.BoundInOrder | framework/registry.c:281-290 | the slots of a component are visited in the order of the registry |
| RecomposeEdges.RemovalIs | framework/recompose.c:232-239 | a REMOVE entry takes out the first edge of its pair and no other |
| RecomposeEdges.AdditionIs | framework/recompose.c:259-273 | an ADD entry puts one edge in front exactly if its ends are registered; a REWIRE entry changes the mode of the first edge of its pair |
| RecomposeEdges.CommitEdges | framework/recompose.c:232-273 | the edges after a commit come about by the removals in the order of the plan, then the additions, stated without the functions that compute them |
| RecomposeEdges.EdgeBalance | framework/recompose.c:232-273 | for every pair: as many edges as before, less its removals, plus its additions if its ends are registered |
| RecomposeEdges.OthersStay | framework/recompose.c:232-273 | edges of pairs the plan does not name stay as they are, in the order they were |
| RecomposeAnswers.ValidateExactly | framework/recompose.c:186-195 | a plan passes exactly if each change names a slot that is not frozen and each replacement a component that is READY; otherwise the first that does not gives EINVAL, EPERM or ESTATE |
| RecomposeAnswers.PhaseAnswers | framework/recompose.c:213-230 | the pause phase answers OK exactly if every pause does, otherwise what the first that fails answers, with exactly the slots before it paused |
| RecomposeAnswers.RunAnswers | framework/recompose.c:213-308 | the call answers what its pause phase answers |
| RecomposeAnswers.NotifyCalls | framework/recompose.c:294-305 | as many callbacks after the commit as there are edges into replaced slots from slots that are bound, and bindings and edges stay |
| RouterPolicies.FindEdgeIs | framework/ipc.c:211-225 | the edge found is the first of its pair, none exactly if there is none |
| RouterPolicies.CapsExactly | framework/ipc.c:229-240 | a message passes exactly if each slot it carries is one its sender has an edge to |
| RouterPolicies.RouteExactly | framework/ipc.c:276-344 | where a message that no hook vetoes ends up under every policy: at the end of its chain of fallbacks, taken, held, turned away with EBUSY, ENOENT or EINVAL, or ELOOP after four redirections |
| RouterPolicies.RouteVetoed | framework/ipc.c:276-344 | a veto at a hop of the chain refuses the message there |
| RouterPolicies.RefusedIs | framework/ipc.c:276-344 | a refused message leaves everything but the clock as it was |
| RouterPolicies.RejectIs | framework/ipc.c:301-310 | REJECT to a paused slot answers EBUSY and changes nothing |
| RouterPolicies.TakenIs | framework/ipc.c:325-344 | ASYNC puts it last into the inbox of its slot; SYNC starts the handler on it, or answers ENOENT changing nothing |
| RouterPolicies.HeldIs | framework/ipc.c:131-154 | QUEUE puts it last into the hold queue of its pair and touches no other |
| RouterPolicies.PopIs | framework/ipc.c:351-388 | a message dispatched leaves the head of its inbox, and its handler starts exactly if there is one and no hook vetoes |
| KernelDispatcher.PumpReplies | framework/dispatcher.c:311-392 | a request is answered by one message, last in the queue, to its sender under its number: EABORT if vetoed, ENOENT if nobody was there, else the status of the handler; nothing else is answered |
| HookAnswers.RegisterAnswers | framework/hook.c:31-50 | EINVAL, EEXIST or put in behind everyone of no higher priority, live at once, nobody else touched |
| HookAnswers.UnregisterAnswers | framework/hook.c:80-97 | the hook is live no more and nobody else is touched; at rest it leaves its chain, during a dispatch it stays there marked |
| HookAnswers.UnregisteredIsNotCalled | framework/hook.c:80-127 | from the return of an unregister on, on every run, the hook is not called until it is registered again |
| HookAnswers.RegisterMakesLive | framework/hook.c:31-50 | after a register the hook is live if and only if no unregister of it is waiting for the end of a dispatch |
| HookAnswers.AgainIsLost | framework/hook.c:31-97 | inside a dispatch, unregister and register again: EEXIST, and the hook is not live |
| HookAnswers.AgainAtRest | framework/hook.c:31-97 | outside, the same two calls leave it live |
| HookAnswers.LosingRun | framework/hook.c:31-127 | a run: the only hook's callback unregisters and registers it, and when the dispatch is over it is off its chain |
| HandleEffects.LookupExactly | framework/handle.c:115-133 | a lookup finds the entry the handle resolves to, and tells an invalid handle from a stale one |
| HandleEffects.Dup3Exactly | framework/syscall.c:2395-2491 | for every pair of numbers: the answer, the one entry written (entry 2 for number 0), and that no other entry changes |
| HandleEffects.CloseExactly | framework/syscall.c:235-279 | number 0 closes entry 2 whatever its generation, any other the entry it resolves to; nothing else changes, and nothing at all without such an entry |
| HandleEffects.DupAboveExactly | framework/syscall.c:2559-2615 | the lowest free entry from the bound on; EBADF without a source, EMFILE without a free entry |
| HandleEffects.CreateExactly | framework/syscall.c:290-333 | the two ends at the two lowest free entries with their rights, ENOMEM with fewer than two free, EINVAL if they cannot be written back |
| HandleEffects.ChildExactly | framework/syscall.c:891-961 | the child's table entry by entry: channels and files at the parent's place, the console at the first three otherwise, the rest free |
| HandleEffects.ExitEmpties | framework/process.c:272-282 | exit empties every entry whose generation fits a handle and leaves other tables alone |
| HandleEffects.RetainCounts | framework/channel.c:156-164 | one reference more, a fault exactly if the channel had been given back |
| HandleEffects.ReleaseCounts | framework/channel.c:166-195 | one reference less; the last closes the end, and gives the channel back exactly if the other end has none; a fault exactly if it had been given back |
| RamfsAnswers.ReadAnswers | components/ramfs/ramfs.c:279-296 | 0 for nothing asked, EINVAL without an open, EPERM if not open for reading, all unchanged; otherwise only the cursor moves, short exactly at the end of the file |
| RamfsAnswers.WriteAnswers | components/ramfs/ramfs.c:298-321 | 0, EINVAL and EPERM unchanged; ENOMEM exactly at the capacity; otherwise as much as there is room for |
| RamfsAnswers.SeekAnswers | components/ramfs/ramfs.c:323-342 | from the start, the cursor or the end, to any place in the file, its end included; otherwise EINVAL and nothing changes |
| RamfsAnswers.CloseAnswers | components/ramfs/ramfs.c:257-277 | a close drops one reference, and the open with the last; a retain adds one; an id without an open changes nothing |
| RamfsAnswers.OpenFound | components/ramfs/ramfs.c:225-255 | an existing file opens at its start in the lowest free open with one reference; refused for a folder, unknown flags or no free open |
| RamfsAnswers.OpenMissing | components/ramfs/ramfs.c:140-255 | a missing file is made empty at the end of the table exactly if asked for, named short enough and with room, and then opened |
| VfsAnswers.OpenAnswers | components/vfs_simple/vfs_simple.c:149-166 | refused for a relative path or without a free wrapper; otherwise the driver of the mount is asked, and the lowest free wrapper stands for its open |
| VfsAnswers.Forwards | components/vfs_simple/vfs_simple.c:194-218 | requests on the root mount reach exactly the driver's open the wrapper stands for, others leave the ramfs alone |
| VfsAnswers.CursorsApart | components/vfs_simple/vfs_simple.c:194-218 | whatever is read, written or sought through one open, every other keeps its place |
| VfsAnswers.ReadsBack | components/vfs_simple/vfs_simple.c:194-218 | bytes written through an open and sought back over are read back through it |
| Readdir.RecordIsLeast | framework/syscall.c:2015-2020 | a record takes the least multiple of eight bytes that holds header, name and NUL |
| Readdir.AddingShows | components/ramfs/ramfs.c:140-159 | a file made while somebody lists shows from then on exactly if its name fits and the table has room, and nothing else comes or goes |
| Archive.StripIs | tools/pack-initramfs.py:129-132 | exactly the leading slashes of a name go |
| SchedTicks.RrQuantum | components/sched_rr/sched_rr.c:216-233 | between yields, whatever else is called, ticks spent are full quanta, one reschedule flag for each, and a rest |
| SchedTicks.PrQuantum | components/sched_priority/sched_priority.c:158-168 | the same of the priority policy |
| SchedTicks.QueueAnswers | components/sched_priority/sched_priority.c:82-108 | EEXIST for a task queued at any priority, ENOENT for one that is not, unchanged; an idle machine is flagged for any newcomer but the idle task |
| SchedTicks.NewcomerWaits | components/sched_priority/sched_priority.c:82-142 | a task enqueued is picked after everyone queued at the default priority before it, in order, and right after them |
| SchedTicks.PriorityAnswers | components/sched_priority/sched_priority.c:144-156 | EINVAL outside the eight levels, ENOENT for a task that is not queued |
| GraphAnswers.AnswersExactly | framework/registry.c:320-640 | the status of every mutation in every case, and that a refused one changes nothing |
| GraphAnswers.StepTells | framework/registry.c:320-640 | a mutation that is not refused logs one event with the next number, which tells what was and what is, and whoever applies it to the registry before has the registry after |
| GraphAnswers.LogTells | framework/registry.c:144-149 | after every run the events logged since its start rebuild slots, bindings, components, stages and edges |
| GraphAnswers.TuneExactly | framework/registry.c:575-601 | retuning changes mode and state flag of one connection and nothing else |
| GraphAnswers.AddExactly | framework/registry.c:518-573 | a new connection is first in the lists of its two ends and in no other |
| ChangeLog.AnswerIs | framework/registry.c:163-182 | what a reader gets is one stretch of the history: from the first event after the generation that the ring still has, as many as asked for |

## Findings

Properties that the source or its documentation promises and that the code does not keep on
all inputs. Each has a lemma with a failing run or an exact condition, both cited above.

- **Rollback resumes what it did not pause** (framework/recompose.c:220-224). With A PAUSED
  on entry and the pause of B vetoed, the rollback over the order A, B resumes A.
  `Recompose.RollbackFails`; exact condition `RollbackExactly`.
- **A replay can be overtaken** (framework/component.c:160-165, framework/ipc.c:404-426).
  The slot is opened before its held messages are replayed one by one. If a handler run by
  the replay leads back to a send on the same edge, the new message overtakes those still
  waiting. SYNC edge holding 1 and 2: handled 1, 3 while 2 waits
  (`RouterOvertakes.SyncOvertakes`). An ASYNC edge suffers too when another edge into the
  slot is SYNC (`AsyncOvertakes`). If the handler pauses the slot again, which it can while
  its component is ACTIVE (framework/recompose.c:281-282, framework/component.c:181-183), the
  rest of the replay is held behind what was sent meanwhile: handled 1, held 3, 2
  (`RouterFailures.HeldOvertakes`). Exact condition for all of these
  `RouterOrder.OrderExactly`; conditions a caller can arrange: `NeverLostNorReordered` (no
  send to the edge during a replay of its destination) and `AsyncNeverReordered` (all edges
  into the destination ASYNC). Nothing is ever lost (`NothingLost`).
- **A flush can be left with a pointer into a freed entry** (framework/ipc.c:412-422). It
  keeps a pointer to the link of the last entry it went past while handlers run. With
  entries for C and then B in the list, reopen B; the handler of B's first message reopens
  C, and that flush frees the entry the outer pointer leads through.
  `RouterFailures.FlushDangles`; exact condition `RouterCursor.DanglesExactly` (a slot is
  reopened while a flush stands behind an entry for it); condition a caller can arrange
  `CalmNeverDangles` (no slot reopened from within the replay of another). A run that has
  returned never did it (`AtRest`).
- **A flush can go on for ever** (framework/ipc.c:412-425). The entry for B is at the head of
  the list and the handler of its first message pauses B: the rest is held in a new entry at
  the head, found there, detached and held again. `RouterFailures.FlushEndless`; exact
  condition `RouterEndless.EndsExactly`.
- **A hook registered again inside a dispatch is lost** (framework/hook.c:37-39, 92-93). A
  callback that unregisters a hook and registers it again is answered EEXIST, since the hook
  is still on its chain, marked; the sweep at the end of the dispatch takes it off.
  `HookAnswers.LosingRun` and `AgainIsLost`; exact condition `RegisterMakesLive` (no
  unregister of it is waiting for the end of a dispatch).
- **dup3 onto another handle of the same entry** (framework/syscall.c:2454-2475). Handle 4
  and handle 260 name one entry in two generations; the last reference is released before
  it is retained. `HandleFailures.SameSlotDup3Fails`.
- **A fork that fails late** (framework/syscall.c:963-968) keeps the references its child
  inherited. `HandleFailures.LateForkFails`.
- **Entries whose counter has outgrown the handle** (framework/process.c:280-281,
  framework/syscall.c:326-327). At generation 2^24 the handle built from the counter no
  longer names the entry: exit and the undoing of a creation drop the reference and leave
  the entry. `HandleFailures.ExitFails`, `UndoneCreateFails`. `HandleCalls.StepExactly` is
  the exact condition for this and the two items above.
- **A closed handle can come back** against framework/handle.h:39-43. With allocation and
  closing alone it takes 2^32 closes of one entry (`Handles.StaleExactly`); `F_DUPFD`,
  which resets the counter, hands out the entry's first number again at once
  (`HandleCalls.DupNames`).
- **A slot registered again brings a dead binding back** (framework/registry.c:320-356).
  Bind, unregister the slot, unregister the component, register the slot.
  `GraphLists.StaleBindingFails`; exact condition `RegisterSlotExactly`.
- **An empty directory batch is ambiguous** (framework/syscall.c:2022-2029). It means the
  end, or that the next record does not fit the buffer: with 16 bytes it is empty at the very
  start (`Readdir.EmptyAtStart`). Exact condition on the buffer `RoomExactly`, 56 bytes.
- **The archive round trip has edges** (components/ramfs/ramfs.c:582-639). A name over 30
  bytes, with a NUL, or equal to the trailer's, data over the file capacity, or a 33rd
  member is cut or lost silently. `CpioRoundTrip.ParseUndoesPack` is the exact condition.
- **The two policies rotate differently** (components/sched_rr/sched_rr.c:176-188,
  components/sched_priority/sched_priority.c:118-142). A yield by a running task that is
  queued but not at the head moves the head in one and the task in the other.
  `Schedulers.StepAgrees` is the exact condition, and `PicksAfterYield` shows it in the next
  pick.
- **Comments and code** differ in framework/bootstrap.c:150-192: a missing required
  dependency is announced as NX_ENOENT and reported as NX_ELOOP. The model follows the code.

## Left out

- Recompose.RollbackExactly: supposes that callbacks answer OK after the pause that failed; a resume hook that vetoes leaves its component paused, and the source ignores it.
- RecomposeSuccess.SuccessRecomposes: supposes that callbacks answer OK once the pauses are done, that running slots are open, and that new components are distinct and bound nowhere else; the source ignores the statuses of the commit phases.
- RecomposeOrder.RunInOrder: supposes in addition that no two touched slots share a component, since pausing one pauses the other out of turn.
- RecomposeTheorem.RunKeeps: has the side conditions of both.
- Kernel.Registry.Recompose: asks that the slots and components of the plan be registered, which the source does not check; callbacks do not touch the registry; a component that binds slots or changes edges from a callback is not modelled. The sends they make go over QUEUE edges, and a slot's hold queue is one list over all its sources there; `RouterOrder` treats the edges one by one.
- RouterOrder.OrderExactly: hooks look on and veto, they do not call the router; edges do not change; messages of the edge are pairwise distinct, and none is sent again while it is still linked into a queue.
- RouterEndless.EndsExactly: supposes that no hook vetoes the messages going round; a veto would end it.
- IpcRouter.Switchboard.FlushHolds: what the code does after reading a freed entry is not modelled; a flush that goes in circles is followed for as many rounds as the field `patience` says, any number of them.
- IpcRouter.Switchboard.RunActs: handlers are finite scripts.
- Dispatcher.AlwaysInv: a compare-and-swap that has to be retried is one step; the wait queue's wake-up liveness is not modelled.
- Dispatcher.DrainsAndAnswers: supposes that each request finds a free entry; `DispatcherCapacity.SufficesExactly` says exactly when.
- KernelDispatcher.Loop.PumpOnce: exhaustion of the reply pool, which halts the kernel, is an outcome after which nothing is promised.
- HookTable.Table.Dispatch: callbacks are finite scripts; `nx_hook_reset` is not modelled.
- HandleCalls.StepExactly: counts are over channel endpoints; references of open files held by handles, directory handles and poll listeners are not counted.
- BuddyPool.Allocator.FreePages: asks for a block that was handed out; the source does not check it. Addresses are page numbers from the pool base.
- Bootstrap.ValidateThenBoot: supposes every required slot bound; the version and pause-hook checks of the validator are not modelled.
- Readdir.SessionLists: supposes room for the longest record in the last call, which by `RoomExactly` is what makes an empty batch mean the end in every directory; inode numbers and type bytes of the records are not modelled.
- RamfsOpens.WriteThenRead: offsets are unbounded integers, so the overflow of a 64-bit seek is not modelled.
- VfsOpens.RunInv: the procfs driver behind the other mount is a parameter; `mkdir` and `stat` are not modelled.
- Paths.RelativeIsFold: holds of paths that fit; for the others `PathBuffers.MakeAbsolute` says what is left of them.
- PathBuffers.Normalize: the buffer size is any from 2 to 256, since positions are kept in one byte.
- Schedulers.PoliciesAgree: purging of user tasks and reaping are not modelled.
- ChangeLog.Ring.Read: timestamps, subscribers and the JSON output of the registry are not modelled.
- Failing memory allocation inside the framework is not modelled, except for the child task of a fork.
- Registry snapshots, slot references retained by components, and the configuration manager: reading and copying what the registry holds.
- The MMU, exceptions, the ELF loader, the UART, timers, signals, the remaining system calls and user space are not modelled.
