# ShinySongTools: a verified model of its protocols and code transformations

The repository hooks a running AArch64 game from a Rust plugin host and patches and translates its
resources with small scripts. This project models the parts whose correctness is hard to see by
reading and proves what they promise, for all inputs, all runs and all schedules of atomic steps:

* **Entry-patch relocation** (`Bits`, `Arm`, `Relocation`, `PlanDecoding`, `WordDecoding`, `Trampoline`,
  `TrampolineBuilder`, `Simulation`, `RelocationLimits`, `RelocationWitnesses`, `EntryPatching`,
  `EntryPatchMemory`). A small A64 machine over the encodings of section C4.1 and the conditions of section C1.2.4 of the Arm Architecture
  Reference Manual for A-profile (DDI 0487) runs the displaced window and its trampoline. Each original step
  is matched by one to seven trampoline steps, through any branches and calls inside the window and up to the
  step that leaves it; x16, scratch by section 6.1.1 of AAPCS64, is written only on leaving. A call leaves two
  names of one return address in the two link registers, so in a window that calls into itself the words must
  not look at x30 but to return through it (`LinkSafe`), and a window that stores it shows why.
  `Displaced.Relocatable` is what a caller can read off each displaced word, and it is exact about the code: an
  instruction is re-encoded as what it meant if and only if it holds. (About runs it is a little too strict: a
  test branch on register 31, which reads as zero, goes the same way whichever bit it names:
  `RelocationLimits.ZeroRegisterRunsAlike`.) Each clause of it
  comes with an accepted window that fails it and what its code then does. The patched entry is then a
  compare-and-swap word over the process memory.
* **The scheduler** (`Gate`, `OriginalCall`, `Scheduler`, `SchedulerInvariants`, `SchedulerFrame`,
  `FrameOutcomes`, `SchedulerLiveness`). Any number of threads, each with a stack of callback frames, stepping one atomic action
  at a time, with unwinds at the identity check, the driver and the original, nested frames, a contended or
  poisoned handoff and a three-store failure publication. The frame as it runs is a class whose methods
  follow the step machine.
* **Owner ledgers, hooks and rollback** (`OwnerLedger`, `LedgerInvariants`, `RetirementOrder`, `LedgerDrivers`,
  `OwnerOutcomes`, `HookDispatch`).
* **Translation templates** (`Templates`, `TemplateRoundTrip`, `EntitySpans`, `TemplateTheorems`,
  `TemplateCatalog`), from the texts of a dump to the catalog and the bindings and back.
* **The bundle swap** (`BundleSwap`), with a fault or a crash at every primitive.
* **Debug topics and the callback relay** (`DebugTopics`, `CallbackRelay`).
* **The two LZ4 block decoders** (`Lz4`), against the block format's own reading of a match.

`Options` and `Multisets` are shared helpers.

Code that changes state step by step is a class or a method with loops, proved against a function of the
state; the theorems are about that function.

Where the code does not do what a reader would expect, the model keeps the code and says exactly when it
does:

* A displaced branch is relocated faithfully only under `Trampoline.Displaced.Relocatable`: targets below
  2^48, no far `b.cond` with condition 14 or 15, no far `tbz`/`tbnz` with word bits 18..16 set, no in-window
  `tbz`/`tbnz` going back (but for bit numbers ending in 15), no vector literal load, no word starting 0x55.
* The word of a patched entry tells the truth about the entry's bytes exactly when the two addresses
  coincide just when the two byte strings do.
* `RuntimeGate::open` is two stores; a whole `close` between them leaves a closed gate reading open.
* After any run of builds, startups, updates and teardowns that puts no word into slots twice, teardown gives a
  slot its first word back if and only if no owner rolled back or retired on the way had a hook on it, at that
  moment, under a later owner's.
* A bundle swap loses both bundles exactly when deleting the old one throws midway after the verified swap
  and the rollback's own deletion gets under way.
* A patch whose staged copy is refused for its signature leaves the stage behind, so the status is interrupted from
  then on; a restore does not check its stage's signature at all.
* A callback request that is lost shifts every later response to the key of an earlier request.
* The fast LZ4 copy differs from the slow one exactly for offsets past the start of the output that are
  also at least the match length.

## Model

| member | source | states |
|---|---|---|
| PlanDecoding.PlanAgreesWithDecoding | crates/core/src/entry_patch.rs:280-334 | the masks and shifts of the planner classify every one of the 2^32 words as the architecture decodes it: branch family, condition or register and target; which words are refused; and the one unallocated family (0x55) taken for a conditional branch |
| PlanDecoding.Imm26Meaning | crates/core/src/entry_patch.rs:275-288 | shifting up and back down sign-extends a 26-bit field |
| PlanDecoding.Imm14Meaning | crates/core/src/entry_patch.rs:322-323 | an 18-bit mask before a 14-bit sign extension still gives the signed 14-bit displacement |
| WordDecoding.BranchWord | crates/core/src/entry_patch.rs:355-357 | an encoded displacement within reach decodes to the branch with that displacement |
| WordDecoding.CompareWordOutside | crates/core/src/entry_patch.rs:448-453 | the far compare form decodes to the opposite test of the same register and width, skipping five words |
| WordDecoding.TestWordOutside | crates/core/src/entry_patch.rs:462-467 | the far test form decodes to the opposite test skipping a distance that keeps bits 18..16 of the displaced word: five words if and only if they are zero |
| WordDecoding.TestWordInside | crates/core/src/entry_patch.rs:454-461 | exactly which bit number and displacement the near test form decodes to, for every displaced word and 18-bit immediate |
| WordDecoding.MovImm48Decodes | crates/core/src/entry_patch.rs:360-369 | the three moves build the value if and only if it is below 2^48 |
| Trampoline.LayoutAt | crates/core/src/entry_patch.rs:485-495 | the running sum puts instruction k after the sizes of those before it |
| Trampoline.EmitFirstLength | crates/core/src/entry_patch.rs:379-470 | for windows of any length the first k relocated instructions take exactly the sum of their planned sizes |
| Trampoline.RelocationExact | crates/core/src/entry_patch.rs:379-470 | every accepted instruction is re-encoded as what it meant at its old address if and only if the caller's check on it holds |
| Trampoline.ReplanInside | crates/core/src/entry_patch.rs:280-334 | planning a relocated in-window branch again at its trampoline address gives the same family, condition or register, and the relocated target |
| TrampolineBuilder.Emit | crates/core/src/entry_patch.rs:379-470 | the emitter appends the specified words and nothing else |
| TrampolineBuilder.PlanPass | crates/core/src/entry_patch.rs:481-485 | decoding all displaced words: the plans in order, or the error of the first word that cannot be relocated |
| TrampolineBuilder.LayoutPass | crates/core/src/entry_patch.rs:486-495 | the layout loop computes every offset and the total |
| TrampolineBuilder.EmitPass | crates/core/src/entry_patch.rs:514-521 | each instruction lands where the layout put it, so the padding loop adds no word |
| TrampolineBuilder.EmittedSoFar | crates/core/src/entry_patch.rs:515-519 | before instruction i the buffer is exactly as long as its layout offset |
| TrampolineBuilder.Build | crates/core/src/entry_patch.rs:476-544 | the outcome for every window and every answer of the operating system, errors in the order they are met |
| TrampolineBuilder.FourFitAPage | crates/core/src/entry_patch.rs:527-530 | four displaced instructions and the jump back take at most 128 bytes |
| Simulation.StepSimulates | crates/core/src/entry_patch.rs:379-470 | one step of the displaced code is one to seven steps of the trampoline, ending in the same state at the relocated instruction, or both having left for one place; a call hands over the two names of the next instruction |
| Simulation.RunSimulates | crates/core/src/entry_patch.rs:476-544 | the same over any number of steps, calls inside the window included, with the bounds on how many the trampoline takes |
| Simulation.TrampolineMeansWindow | crates/core/src/entry_patch.rs:240-247 | the window is left after some number of steps if and only if its trampoline is, and then at the same address, or through two names of one return address, with equal flags, memory and registers, up to x16 and the link address map |
| Simulation.ReturnGoesOn | crates/core/src/entry_patch.rs:401-411 | a jump through two names of one address puts both codes at the same instruction, in states the theorem above applies to again, or takes both past the window |
| Simulation.CallReturns | crates/core/src/entry_patch.rs:397-419 | after any call, into the window or out of it, relocated or copied, returning to the link register resumes both codes at the same instruction, or past the window |
| Simulation.StoredLinkDiffers | crates/core/src/entry_patch.rs:397-400 | a window that calls its next instruction, which stores x30, is accepted and relocatable, and the two codes end in different memories |
| Simulation.FarCallReturns | crates/core/src/entry_patch.rs:401-419 | returning to the link address a far call wrote resumes both codes at the same instruction, or past the window |
| RelocationLimits.HighTargetLost | crates/core/src/entry_patch.rs:359-375 | a far branch to an address from 2^48 up arrives at its low 48 bits instead |
| RelocationLimits.HighCallLost | crates/core/src/entry_patch.rs:401-419 | a far call arrives at the low 48 bits of its target with the low 48 bits of its return address |
| RelocationLimits.HighConditionalLost | crates/core/src/entry_patch.rs:431-467 | a far conditional branch, taken, arrives at the low 48 bits of its target |
| RelocationLimits.AlwaysConditionSkips | crates/core/src/entry_patch.rs:431-440 | a far branch on condition 14 or 15 is always taken by the original and never by the trampoline |
| RelocationLimits.KeptBitsMislead | crates/core/src/entry_patch.rs:462-467 | a far test branch keeping bits 18..16, when not taken, does not get to the next instruction; where it goes instead |
| RelocationLimits.BackwardTestReadsAnotherBit | crates/core/src/entry_patch.rs:454-461 | every in-window test branch going back tests the bit whose number has its low four bits set, and goes back by the low ten bits of its distance |
| RelocationLimits.VectorLiteralMoves | crates/core/src/entry_patch.rs:309-313 | a vector literal load is copied and reads relative to its new address |
| RelocationLimits.UnallocatedBecomesBranch | crates/core/src/entry_patch.rs:295-303 | a word starting 0x55 is replaced by a branch that changes nothing, whatever the word did |
| RelocationWitnesses.HighWindowPartsWays | crates/core/src/entry_patch.rs:359-470 | an accepted window of all five far branches above 2^48, each of which leaves for another address than its trampoline |
| RelocationWitnesses.HighReturnIsLost | crates/core/src/entry_patch.rs:401-419 | an accepted call whose trampoline returns below 2^48 though its next instruction is above |
| RelocationWitnesses.AlwaysWindowPartsWays | crates/core/src/entry_patch.rs:431-440 | an accepted window of one far branch on condition 14: the codes leave for different addresses |
| RelocationWitnesses.KeptWindowPartsWays | crates/core/src/entry_patch.rs:462-467 | an accepted window of one far test over a kept displacement: the same |
| RelocationWitnesses.BackWindowGoesRound | crates/core/src/entry_patch.rs:454-461 | an accepted test branch back by one word: one code leaves where the other goes round |
| RelocationWitnesses.LongWindowFallsShort | crates/core/src/entry_patch.rs:454-461 | a test branch back over 147 far calls lands inside the last call's code |
| RelocationWitnesses.LiteralWindowReadsElsewhere | crates/core/src/entry_patch.rs:309-313 | an accepted vector literal load, and the two addresses it is given |
| RelocationWitnesses.UnallocatedWindowDoesNothing | crates/core/src/entry_patch.rs:295-303 | an accepted 0x55 word whose effect is lost |
| EntryPatching.PatchReachesReplacement | crates/core/src/entry_patch.rs:222-238 | the patch is one word exactly for replacements a direct branch reaches; entering it arrives at the replacement with every register kept, but for x16 in the far form |
| EntryPatchMemory.WordsRoundTrip | crates/core/src/entry_patch.rs:586-589 | words written little-endian and read back in chunks of four are the same words |
| EntryPatchMemory.BytesAreDigits | crates/core/src/entry_patch.rs:586-589 | byte k of a word is its k-th digit to base 256 |
| EntryPatchMemory.EntryIsOneOfTwo | crates/core/src/entry_patch.rs:642-665 | after any reads and swaps the entry holds the patch or the original bytes, the one the flag says, and no other byte has changed |
| EntryPatchMemory.WordTellsEntry | crates/core/src/entry_patch.rs:546-550 | the word reads as the replacement exactly while the entry is patched, after every sequence of operations, if and only if the two words coincide just when the two byte strings do |
| EntryPatchMemory.UninstalledIsUntouched | crates/core/src/entry_patch.rs:628-639 | whenever the word is back at the trampoline, all memory is byte for byte what it was |
| EntryPatchMemory.InstalledEntryRedirects | crates/core/src/entry_patch.rs:615-626 | the bytes of an installed patch, decoded and run, arrive at the replacement; otherwise the entry decodes to the original words |
| EntryPatchMemory.PatchMemory.CompareExchange | crates/core/src/entry_patch.rs:647-664 | it swaps exactly when the word is the expected one, the new one is the other and the remap succeeds; then the entry holds the other bytes, otherwise nothing changes and the answer is the word found |
| EntryPatchMemory.PointerIsBytes | crates/core/src/entry_patch.rs:574 | a pointer read from memory is the sum of its eight bytes times the powers of 256 |
| EntryPatchMemory.Create | crates/core/src/entry_patch.rs:568-600 | the entry is read through the method's slot; when construction succeeds, which error it fails with, in order, and that nothing is patched yet |
| EntryPatchMemory.MethodPointerSlot.Install | crates/core/src/method_slot.rs:225-238 | conflict exactly when the swap fails, with nothing written; a confirmed swap is always read back |
| EntryPatchMemory.MethodPointerSlot.Restore | crates/core/src/method_slot.rs:243-256 | drift exactly when the swap fails, with nothing written |
| EntryPatchMemory.Bind | crates/core/src/method_slot.rs:199-208 | a null word is refused, any other becomes the original, nothing is written |
| EntryPatchMemory.InstallThenRestore | crates/core/src/method_slot.rs:216-256 | bound, installed and restored: both succeed and every byte is as before |
| Gate.RuntimeGate.TryOpen | crates/core/src/gate.rs:78-85 | opens only a gate never opened or closed |
| Gate.RuntimeGate.Close | crates/core/src/gate.rs:90-93 | closes for good |
| Gate.OpenIsNotAtomic | crates/core/src/gate.rs:78-93 | over all interleavings of one open and one close, the closed gate is left reading open exactly when the whole close falls between open's two stores |
| OriginalCall.OriginalGuard.BeginCall | crates/core/src/original.rs:47-58 | only the first call is granted, and nothing leads back |
| SchedulerInvariants.RunKeeps | crates/runtime/src/scheduler.rs:256-447 | the whole invariant holds after every sequence of publications, entries and steps on any number of threads |
| SchedulerInvariants.AppsConserved | crates/runtime/src/scheduler.rs:349-447 | in every run the Apps in the handoff, the slots, the live frames and the leaked set are, each once, the Apps whose publication was accepted |
| SchedulerInvariants.CommitFindsBusy | crates/runtime/src/scheduler.rs:429-447 | a thread is Busy exactly when one of its frames holds or it has leaked an App, and committing never finds another slot state |
| SchedulerInvariants.OriginalExactlyOnce | crates/runtime/src/scheduler.rs:173-197 | no frame enters the original twice, and every frame that is gone entered it exactly once |
| SchedulerInvariants.FrameEnds | crates/runtime/src/scheduler.rs:257-345 | a frame only moves towards its end |
| SchedulerInvariants.FrameFinishes | crates/runtime/src/scheduler.rs:150-197 | left to itself a frame in any reachable state is popped within 29 steps, whatever happens in it, having entered the original exactly once |
| SchedulerInvariants.FailureIsAbsorbing | crates/runtime/src/scheduler.rs:204-213 | once failure is published it stays, the gate never reads open again, and no frame entered later is ever in a driver |
| SchedulerInvariants.StartupOnceThenUpdates | crates/runtime/src/scheduler.rs:311-327 | no App begins Startup twice or Update before its Startup completed, and the gate is open only after a Startup returned |
| SchedulerFrame.Handoff.PublishApp | crates/runtime/src/handoff.rs:36-46 | accepted exactly when the slot is empty and not poisoned; then the App is in it, otherwise nothing changes |
| SchedulerFrame.Handoff.TryTakeApp | crates/runtime/src/handoff.rs:53-61 | a contended lock and an empty slot are pending, a poisoned one fails, and a published App is handed over and gone |
| SchedulerFrame.Context.PublishGlobalFailure | crates/runtime/src/scheduler.rs:204-213 | leaves the gate closed and failure published |
| SchedulerFrame.ThreadSlot.ClaimFrom | crates/runtime/src/scheduler.rs:350-374 | the slot, the handoff and the claim for each of the five states; a poisoned handoff publishes failure |
| SchedulerFrame.ThreadSlot.CommitApp | crates/runtime/src/scheduler.rs:429-447 | a Busy slot gets the App back, running or exited; any other becomes unavailable and the App is leaked |
| SchedulerFrame.SchedulerFrame.CallOriginalOnce | crates/runtime/src/scheduler.rs:377-403 | a new guard always grants the call; the phase records how it ended |
| SchedulerFrame.SchedulerFrame.Execute | crates/runtime/src/scheduler.rs:257-345 | the frame body follows the step machine to its end or its unwind |
| SchedulerFrame.SchedulerFrame.RecoverFrame | crates/runtime/src/scheduler.rs:180-189 | after an unwind failure is published and the original called only if it was not entered |
| SchedulerFrame.SchedulerFrame.DropFrame | crates/runtime/src/scheduler.rs:413-427 | an App still held is leaked, never dropped |
| SchedulerFrame.RunFrame | crates/runtime/src/scheduler.rs:150-197 | a whole callback leaves the shared state, the slot and the leaked Apps as the step machine does, having entered the original once |
| SchedulerFrame.SoloEntersOnce | crates/runtime/src/scheduler.rs:145-197 | for every script a lone frame enters the original exactly once and its App is afterwards in the slot or leaked |
| FrameOutcomes.SoloIsTable | crates/runtime/src/scheduler.rs:257-447 | for every shared state, slot and script a lone callback leaves exactly the shared state, slot and leaked Apps of a closed-form table: failure seen first, identity unwinding, wrong thread, nothing or something to claim, poisoned handoff, driver or original unwinding, clean |
| SchedulerLiveness.PublicationExactly | crates/runtime/src/handoff.rs:36-46 | in every run a publication that finds the handoff empty, with no panic under its lock before, puts a new App there and is counted; any other changes nothing |
| SchedulerLiveness.PoisonedByPanic | crates/runtime/src/handoff.rs:37-40 | the handoff is poisoned exactly when the run has such a panic in it |
| SchedulerLiveness.HandoffTaken | crates/runtime/src/scheduler.rs:350-374 | only the claim of a waiting thread that finds the handoff unlocked, healthy and full empties it, and then the thread is Busy with that App |
| SchedulerLiveness.PublishedAppStarts | crates/runtime/src/scheduler.rs:257-345 | in every run an App published into an empty, healthy handoff is started by the next clean callback of any idle waiting thread, which then runs it with its Startup returned once and the gate open; nobody else is touched |
| SchedulerLiveness.RunningAppUpdates | crates/runtime/src/scheduler.rs:311-345 | each further clean callback is one Update and nothing else |
| SchedulerLiveness.NestedPassesThrough | crates/runtime/src/scheduler.rs:350-374 | a callback nested in a driver or in the original enters the original once and leaves the App and the outer frames as they were |
| SchedulerLiveness.ContendedRow | crates/runtime/src/scheduler.rs:355-360 | a contended handoff: the thread goes on waiting, the handoff and the gate stay, the original is called |
| SchedulerLiveness.PoisonedRow | crates/runtime/src/scheduler.rs:361-366 | a poisoned handoff: failure published, the thread unavailable for good, the original called |
| SchedulerLiveness.EmptyRow | crates/runtime/src/scheduler.rs:355-360 | an empty handoff: the thread goes on waiting |
| SchedulerLiveness.FailedHandoffRow | crates/runtime/src/scheduler.rs:257-268 | after a failure an App still in the handoff is taken and retired unrun |
| LedgerInvariants.WorldConserved | crates/runtime/src/host.rs:48-72 | after any plugins, startups, updates and teardowns the world is the message baseline and all ledgers, no type twice |
| LedgerInvariants.FailedBuildUndone | crates/runtime/src/app.rs:147-173 | a failed build leaves every slot word, every other owner's record and every resource type as before, but for registered messages and its own retired, empty record |
| LedgerInvariants.FailedStartupUndone | crates/runtime/src/app.rs:175-279 | a startup failing at any system, with any part of its queue applied, takes out exactly its owner's types and touches no other owner |
| LedgerInvariants.PluginsUnwind | crates/core/src/plugin_api/hook.rs:405-490 | after any builds, failed or not, undoing what is recorded gives back the initial slot words |
| LedgerInvariants.TeardownUndoes | crates/runtime/src/app.rs:111-133 | tearing down from the last owner undoes the effects newest first, owner by owner |
| LedgerInvariants.TeardownRestoresSlots | crates/runtime/src/app.rs:106-133 | whatever the plugins hook, slots repeated or not and builds failed or not, teardown returns every slot to its initial word |
| LedgerInvariants.LastHookerRetires | crates/runtime/src/app.rs:345-367 | retiring an owner whose slots nobody after it hooks leaves everything else to unwind to the same words, whatever the words are |
| OwnerOutcomes.CallExactly | crates/runtime/src/host.rs:48-72 | when each host call of a build succeeds, and exactly what it leaves in the world, the slots and the ledger |
| OwnerOutcomes.BuildExactly | crates/runtime/src/app.rs:85-104 | a build makes its calls up to the first failure it passes on, which fails it; without one it makes them all |
| OwnerOutcomes.StartExactly | crates/runtime/src/app.rs:187-236 | an owner's startup gets to its end if and only if every system succeeds and all that is queued is new, and then everything queued is inserted in order |
| OwnerOutcomes.SuccessfulStartup | crates/runtime/src/app.rs:237-246 | then the owner is active with its gate opened, every queued type in the world and in its ledger in order, and nobody else changed; otherwise it is retired with its gate closed for good |
| OwnerOutcomes.AllStart | crates/runtime/src/app.rs:180-251 | a pass in which that holds of every active owner starts them all, and the world has gained exactly what they queued |
| OwnerOutcomes.GateTellsOwner | crates/runtime/src/app.rs:85-367 | after every sequence of builds, startups, updates and teardowns an owner's gate is open if it is active and a startup has passed over it, never opened if only active, and closed for good once it is retired |
| OwnerOutcomes.GateReadsOpen | crates/core/src/gate.rs:78-93 | so readers see it open exactly when the owner is active and a startup has passed over it |
| OwnerOutcomes.UpdateKeepsResources | crates/runtime/src/app.rs:345-367 | an update pass takes nothing out of the world or a ledger, whoever it retires |
| LedgerInvariants.OutOfOrderRetirement | crates/core/src/method_slot.rs:240-256 | the smallest failing case, for all words: with a shared slot the first owner retired first, teardown ends on its replacement, the initial word only if they are equal |
| RetirementOrder.RetireTracks | crates/core/src/method_slot.rs:240-256 | one slot, any hooks with distinct words: undoing a stretch of them keeps the way back to the first word exactly when it was there and the stretch is empty or newest; once lost it stays lost |
| RetirementOrder.RetirementOrderDecides | crates/runtime/src/app.rs:106-367 | after any run of builds, startups with rollbacks, updates with retirements and teardowns, with words distinct, teardown gives a slot its first word back if and only if every rollback and retirement went in order on it |
| RetirementOrder.RetirementOrderDecidesAll | crates/runtime/src/app.rs:106-367 | all slots are as they began if and only if that holds of each |
| RetirementOrder.RetiredOwnerDecides | crates/runtime/src/app.rs:345-367 | after any builds, one owner retired on its own: teardown restores every slot if and only if no owner registered after it hooks a slot it hooks |
| LedgerDrivers.CompositionRoot.InsertResource | crates/runtime/src/host.rs:48-67 | a conflict records nothing, a success is in the world and the ledger |
| LedgerDrivers.CompositionRoot.InstallHook | crates/core/src/plugin_api/hook.rs:405-490 | a successful install swaps the word and records how to undo it, a refused one changes nothing |
| LedgerDrivers.CompositionRoot.RemoveInserted | crates/runtime/src/app.rs:157-162 | the loop removes the owner's types newest first |
| LedgerDrivers.CompositionRoot.Rollback | crates/runtime/src/app.rs:149-173 | gate closed, resources removed newest first, effects undone newest first, retired, nothing left in the record |
| LedgerDrivers.CompositionRoot.UpdateRetire | crates/runtime/src/app.rs:348-367 | gate closed, effects undone newest first, retired; the resources stay |
| LedgerDrivers.CompositionRoot.AddPlugin | crates/runtime/src/app.rs:85-104 | builds in an own scope and rolls a failed one back |
| LedgerDrivers.CompositionRoot.RunStartup | crates/runtime/src/app.rs:180-251 | the pass over the active owners, in order, that `AllStart` and `GateTellsOwner` are about |
| LedgerDrivers.CompositionRoot.RunUpdate | crates/runtime/src/app.rs:283-343 | active owners in order, failing ones retired |
| LedgerDrivers.CompositionRoot.TeardownAll | crates/runtime/src/app.rs:111-133 | active owners rolled back in reverse order |
| HookDispatch.DispatchEntersOnce | crates/core/src/plugin_api/hook.rs:190-293 | for every handler a dispatch that reads the replacement in the slot enters the original exactly once, any other not at all |
| HookDispatch.DispatchSource | crates/core/src/plugin_api/hook.rs:243-293 | over every handler: its own result is returned if and only if the site reads the word, the gates are open, it called the original, no unwind of that call left it and it did not panic; the original's if and only if the site reads the word and a gate is closed or the handler never called; the fallback otherwise |
| HookDispatch.NoWindowLosesCalls | crates/core/src/plugin_api/hook.rs:425-462 | in every window between the stores of an installation a dispatch goes through once or falls back before the swap |
| HookDispatch.NoStoreLosesCalls | crates/core/src/plugin_api/hook.rs:114-122 | between any two stores of an installation, a failed one's rollback or a restore, with anyone else writing the slot in between, a dispatch enters the bound original once if and only if the site has recorded its replacement and the slot holds it, whatever the flag says |
| HookDispatch.RestoreEndsAtSwap | crates/core/src/plugin_api/hook.rs:464-521 | a restore's first store changes nothing for a dispatch, its swap ends the hook |
| HookDispatch.InstallationExactly | crates/core/src/plugin_api/hook.rs:405-462 | a whole installation with others writing the slot: installed if and only if the swap finds the captured word and the readback the replacement; a lost swap writes nothing, a swap not read back is restored if its replacement is there |
| HookDispatch.ForeignWordsStay | crates/core/src/method_slot.rs:216-256 | neither an installation nor a restore ever overwrites a word somebody else has put into the slot |
| HookDispatch.HookSite.InstallHook | crates/core/src/plugin_api/hook.rs:405-462 | when an installation succeeds, and that an active site always has a captured original |
| HookDispatch.HookSite.Dispatch | crates/core/src/plugin_api/hook.rs:243-331 | the dispatch that `DispatchSource` is about; the original is entered once exactly when the site is published, its replacement is the word and an original is captured |
| Templates.ReplaceSpans | tools/translation_templates.clj:229-246 | the cutting loop builds the cut text, the next counters and the arguments |
| TemplateRoundTrip.TokensPrefixFree | tools/translation_templates.clj:226-227 | no token is the beginning of another |
| TemplateRoundTrip.NoStraddle | tools/translation_templates.clj:146-149 | nothing that starts in literal text can be a token or run on into one |
| TemplateRoundTrip.ReplaceFills | tools/translation_templates.clj:542 | a literal replace-all of one token changes exactly that token's occurrences |
| TemplateRoundTrip.CutIsMark | tools/translation_templates.clj:229-246 | cutting spans out of a text keeps what it means |
| TemplateRoundTrip.MarkIsBound | tools/translation_templates.clj:229-270 | every token of the cut text is bound to what it stands for, and no later cut rebinds it |
| TemplateRoundTrip.AvoidingSpansCoverChars | tools/translation_templates.clj:272-283 | spans that overlap no token are spans of literal characters |
| TemplateRoundTrip.PlaceholdersAreTokens | tools/translation_templates.clj:141-144 | scanning a template for placeholders finds its tokens, in order |
| TemplateTheorems.TemplateRoundTrips | tools/translation_templates.clj:226-321 | for every text without the reserved prefix and every choice of spans: the arguments as they are stored, entities by id and literals as they are, put back for the placeholders in any order and however often, give the text back exactly, whenever the index has the entities under their ids |
| TemplateTheorems.LiteralsRoundTrip | tools/translation_templates.clj:254-283 | with scalars only, the literal arguments give the text back with no catalog at all |
| TemplateTheorems.ArgumentsAreSpans | tools/translation_templates.clj:229-283 | the arguments are exactly the spans: entities under tokens counted per kind from zero, scalars counting on, each with the text it covered |
| TemplateTheorems.TemplatePlaceholders | tools/translation_templates.clj:141-144 | a template has one placeholder for each span, and each has its argument |
| TemplateTheorems.RecordRebuilds | tools/translation_templates.clj:307-321 | a qualified record is stored as its template, with a placeholder for every span and an argument for every placeholder, any other as its text without arguments; either expands to its text |
| TemplateTheorems.PipelineRebuilds | tools/translation_templates.clj:546-566 | the same through the whole pipeline, for any matchers whose protected matches cover the tokens up to their closing braces and whose scalar matches contain no brace |
| TemplateTheorems.ScalarsAvoidTokens | tools/translation_templates.clj:35-43 | then no scalar found between the protected matches touches a token |
| TemplateTheorems.OutsideIsEveryMatch | tools/translation_templates.clj:254-283 | the scalars cut out are the matches found between the protected matches, all of them and no others |
| TemplateTheorems.ExpandFailsExactly | tools/translation_templates.clj:499-544 | expanding gives a text if and only if every placeholder has an argument and every entity named is an entity of the catalog; otherwise it is the error of the first that fails |
| TemplateTheorems.NormalizeScalars | tools/translation_templates.clj:254-283 | cutting stretch by stretch between protected matches is cutting the whole text at once |
| TemplateCatalog.GeneratedChecks | tools/translation_templates.clj:446-566 | for every dump without the reserved prefix and whatever was found in its texts: the generated bindings rebuild every slot from the generated catalog, unless reading the catalog fails because two entries share an id |
| TemplateCatalog.UnitsAreShared | tools/translation_templates.clj:293-321 | two different texts with one template and something cut out share one unit; a text whose template no other text has is a unit of its own |
| EntitySpans.AliasSpans | tools/translation_templates.clj:191-200 | the matcher loop keeps exactly the unoccupied matches |
| EntitySpans.EntitySpansOrdered | tools/translation_templates.clj:208-224 | the chosen spans are in text order and do not overlap |
| EntitySpans.EntitySpansComplete | tools/translation_templates.clj:171-224 | every card is chosen; a name is left out only where it touches a card, an event only where it touches a card, a chosen name, or a chosen event that starts earlier or starts there too and is no longer |
| BundleSwap.Store.RollbackToOld | tools/bundle_ops.clj:297-302 | safe while the old path holds the previous bundle; over a torn old one safe only if it fails before it starts |
| BundleSwap.Store.SwapAndVerify | tools/bundle_ops.clj:311-326 | success leaves the verified, signed new bundle and the previous one aside; every failure and every crash inside is safe; a bundle refused for its signature is swapped back |
| BundleSwap.Store.Transact | tools/bundle_ops.clj:381-406 | the guarantee below for the transaction's body and its catch clause |
| BundleSwap.Store.Patch | tools/bundle_ops.clj:332-406 | when it refuses, when it is idempotent, when it installs; refusals change nothing; an installation keeps the baseline there was or makes the old bundle the first one, and only the last install is the candidate; a failed check leaves the old bundle; every disk a crash could leave from the record on is safe if and only if it is not the torn-deletion case, with the trusted baseline unchanged and the status interrupted until the record is gone |
| BundleSwap.Store.Restore | tools/bundle_ops.clj:408-451 | when it refuses, when it is idempotent, when it brings the baseline back; the same guarantee, the baseline never touched, and a success is clean |
| BundleSwap.StatusMeans | tools/bundle_ops.clj:173-230 | the five states of a bundle, each if and only if the trees and the book are so |
| BundleSwap.RefusedStageInterrupts | tools/bundle_ops.clj:380-406 | a patch refused by one of its checks leaves the bundle alone, and the status interrupted if and only if it was the staged copy's signature |
| BundleSwap.PatchThenRestore | tools/bundle_ops.clj:332-451 | an unmanaged bundle, patched and restored with nothing failing, is the bundle it was, and clean; in between it is patched, or clean if the candidate is the same |
| BundleSwap.TornDeletionLosesBoth | tools/bundle_ops.clj:389-406 | the failing case on concrete bundles, step by step: both are lost |
| DebugTopics.DebugTopicChannel.Enqueue | crates/core/src/plugin_api/debug.rs:136-158 | refused exactly at the bound, otherwise queued last |
| DebugTopics.DebugTopicChannel.RunHandler | crates/core/src/plugin_api/debug.rs:285-398 | answers in order; a panic answers its own request, gives the rest back in order and fails the run |
| DebugTopics.DebugTopicChannel.FailPendingRequests | crates/runtime/src/core_state.rs:74-101 | everything queued is answered as unavailable, in order |
| DebugTopics.FifoConserved | crates/core/src/plugin_api/debug.rs:285-398 | after any run the requests accepted are those answered, in order, followed by those queued; the counter is the queue's length and at most 16 |
| DebugTopics.ServeAnswers | crates/core/src/plugin_api/debug.rs:285-398 | answer number i is the value exactly when request i has the topic's type and its handler returned, the handler's error when it failed, an internal error when the type is wrong, unavailable when it panicked; nothing after a panic is answered |
| DebugTopics.RetirementAnswers | crates/runtime/src/core_state.rs:69-101 | a retirement answers everything queued, in order, as unavailable |
| DebugTopics.RetirementAnswersAll | crates/runtime/src/core_state.rs:69-101 | after a retirement every request ever accepted has been answered |
| CallbackRelay.CallbackRelaySystem.RunRelay | crates/core/src/plugin_api/debug.rs:524-603 | one relay run delivers at most one request and collects what is there |
| CallbackRelay.RelayRun | crates/core/src/plugin_api/debug.rs:524-603 | what one run takes, answers and sends, in which order and under which keys, whatever the relay holds |
| CallbackRelay.CallbackRelaySystem.HandlePending | crates/core/src/plugin_api/debug.rs:483-509 | at most one request per entry: it is taken, and its handler's answer stored unless the handler panicked or the slot was contended |
| CallbackRelay.RelayCounts | crates/core/src/plugin_api/debug.rs:512-521 | the counter is queue plus in flight, at most one slot is set, and what is in flight beyond the slots is what callbacks lost |
| CallbackRelay.RelayPairing | crates/core/src/plugin_api/debug.rs:564-600 | response number i carries the key of delivered request i and answers the one as many places later as had been lost: its own exactly when none had |
| CallbackRelay.RelaySends | crates/core/src/plugin_api/debug.rs:524-603 | in every run the responses written and those in the outbox are, in order and with nothing else between, the collected ones, an internal error for every request of the wrong type and an unavailable for every request a retirement found queued; and every accepted request is delivered, of the wrong type, unserved or queued |
| CallbackRelay.RequestAnswered | crates/core/src/plugin_api/debug.rs:483-603 | a request that meets an idle relay is answered with its own key and its own handler's answer, or an internal error if it has the wrong type |
| CallbackRelay.LossMispairs | crates/core/src/plugin_api/debug.rs:502-507 | for all requests: one panic and the next response carries the lost request's key |
| CallbackRelay.LossesCloseTopic | crates/core/src/plugin_api/debug.rs:142-147 | sixteen lost requests close the topic for good |
| Lz4.BlockDecompress | experiments/resources-route/lz4_probe.py:4-27 | the loops compute the specified decoding, with the index error and the size check |
| Lz4.BlockNoSize | experiments/resources-route/lz4_probe.py:54-77 | the same with the fast copy and no size check |
| Lz4.DecodesEncoding | experiments/resources-route/lz4_probe.py:54-77 | decoding the encoding of any valid sequences and last literals gives the bytes they denote, with either copy |
| Lz4.TruncatedDecodes | experiments/resources-route/lz4_probe.py:7-25 | every prefix of every encoding: a cut inside a length or an offset raises the index error, a cut inside literals gives the shorter output, a cut between sequences what they produced |
| Lz4.CopyMatches | experiments/resources-route/lz4_probe.py:72-76 | either copy repeats the last bytes of the output as the format defines, overlapping matches included |
| Lz4.CopiesAgreeExactly | experiments/resources-route/lz4_probe.py:24-25 | for every output length, offset and match length: the copies agree on all contents if and only if the offset is inside the output or shorter than the match |
| Lz4.FastRefinesSlow | experiments/resources-route/lz4_probe.py:54-77 | on every block whose offsets meet that condition, malformed ones included, both decoders give the same result |

## Left out

- Simulation.TrampolineMeansWindow: a jump to a register ends the run, inside the window or not; returns through
  x30 are picked up again by `ReturnGoesOn`, other computed jumps into the window meet the patched entry. Windows
  are at most 1024 words, the code displaces one or four.
- EntryPatchMemory.PatchMemory.CompareExchange: one caller at a time; the flag's load and store are not interleaved
  with another thread's.
- EntryPatchMemory.MethodPointerSlot.Install: over the patched-entry word only; an outside writer between the swap
  and the readback is not modelled here, as an event it is in `HookDispatch.NoStoreLosesCalls`.
- EntryPatchMemory.MethodPointerSlot.Restore: the same.
- SchedulerFrame.RunFrame: one frame alone; interleavings and nested frames are in the step machine.
- HookDispatch.NoWindowLosesCalls: one slot read per dispatch, as in the code; restores are in `NoStoreLosesCalls`.
- LedgerDrivers.CompositionRoot.InstallHook: nobody else writes slots, so a swap after binding does not fail.
- LedgerDrivers.CompositionRoot.RunUpdate: message maintenance and the commands queued by an update are left out.
- RetirementOrder.RetirementOrderDecides: a word put into slots twice is excluded; with equal words a broken order
  can give the first word back by accident, as `OutOfOrderRetirement` shows.
- TemplateTheorems.PipelineRebuilds: the regular expressions are arbitrary matchers that meet two conditions.
- TemplateCatalog.GeneratedChecks: ids are arbitrary functions of kind and source, and where they collide reading the
  catalog is an error; blank slots, digests, categories and retained targets are left out.
- SchedulerLiveness.PublishedAppStarts: a callback in which something unwinds or is contended is in
  `FrameOutcomes.SoloIsTable`; one interleaved with other threads is covered by the invariants only.
- HookDispatch.InstallationExactly: others write the slot before the swap and before the readback; a write during
  the recovery is `ForeignWordsStay`.
- BundleSwap.Store.Patch: a tree found at the bundle path counts as whole whatever it is; fingerprints never collide;
  writing a small record is one step that happens or does not.
- BundleSwap.Store.Restore: the same.
- CallbackRelay.CallbackRelaySystem.RunRelay: stray extra references to payloads are left out.
- CallbackRelay.CallbackRelaySystem.HandlePending: the same, so nothing is ever queued back.
- Page staging, `mach_vm_remap`, `mprotect` and cache maintenance: one write that happens entirely or not at all.
- Weak memory ordering: every step is atomic and sequentially consistent.
- Outside the encodings a relocated entry uses, instructions are arbitrary functions of the word and the state.
- What plugin systems do to the world themselves, message buffers, routes, mailboxes and containers.
- Explicit restores through an installed hook's handle, and hooks by entry patch in the owner ledgers.
- Restore actions that need the main thread count as actions that touch no slot.
- Stray extra references to relay payloads and contended slot locks other than a dropped response.
- Expanding translated targets, whose entity translations are not checked for reserved text.
- The LZ4 frame header, the debug socket, the foreign-process readers, bootstrap and configuration.
