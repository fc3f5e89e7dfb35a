# Zeff emulator: verified models of its stateful cores

Dafny models of the parts of the repository where a small slip would do silent damage: the linker that relocates
a sound driver, the protocol that lends the running game to a TAS project, speculative replay, the audio
ring, the source stamp, the web module loader and the pacing machines. Each core is modelled in its own form: code
that updates state in place is a class or a loop proved against a function of the old state, and what the
program promises is proved about that function, for all inputs and all runs.

`dafny verify dfyconfig.toml` checks everything.

## What is modelled

- **Driver relocation** (`DriverObject`, `DriverEncoding`, `Relocation`, `RelocationProof`, `RelocationAcceptance`,
  `RelocationLimits`). The generator reads patch expressions
  symbolically, checks one linked image, packs the moving bytes into a table and emits a lookup. `DriverObject.LinkedValue`
  and `Relocation.Linked` are an independent reference linker, which knows nothing of symbolic values or tables. The main theorem is an
  equivalence: the emitted lookup rebuilds the object linked at every pair of 16-bit bases *if and only if* every
  byte is clean, that is, the patch that writes it last is not a JR narrowed with HIGH, and not a fixed
  patch over a moving byte. Disjoint patches without such a JR are the common special case. The generator
  accepts objects outside the condition, and for those its table is wrong: `RelocationLimits` builds one accepted object for
  each way a byte can be unclean. `DriverEncoding` writes the rgbds(5) encoding out once more, from tokens to bytes, so that what is
  proved of expressions is proved of their bytes; `RelocationAcceptance` says exactly which objects and ROMs are accepted and what is emitted.
- **TAS control lease** (`TasCoordinator`, `TasProtocol`, `TasSafety`, `TasProgress`, `TasReplies`). The coordinator with staged replay and linked seeks,
  the emulator worker's own authority machine and the two FIFO channels. The emulator is an arbitrary environment: it
  may refuse, fail, report any hash, and hold any cached cursor. One invariant describes every reachable
  combination of coordinator state, worker state and messages in flight; the safety theorems follow from it. `TasProgress` is the other half:
  work always ends, and with an emulator that does not fail an acquisition runs its whole prefix and a commit goes through.
  `TasReplies` says what each side accepts when the other, or the channel, is broken.
- **Replay commit and autofire** (`Autofire`, `AutofireButtons`, `ReplayCommit`, `SpeculativeAutofire`, `InputStaging`,
  `StagingLaws`, `StagingRuns`, `RecordingRuns`).
  Autofire is a per-frame transformer of button masks; replay batches carry its previewed states. Committing batches in any pieces is
  shown equal to a flat frame log. `InputStaging` is the code that stages the batches, with the reset that a changed
  configuration or a released target asks for; `StagingRuns` runs it beside a reference that executes one frame at a time.
  In every run a phase whose pattern is unset means a pending reset, so a batch whose states are left out is always exact, and the
  two machines agree over every run in which no TAS lease is taken in the middle of an autofire batch. A lease is refused for a staged
  replay (`src/app/tas_control/integration.rs:141`) but not for part of an autofire batch. What then holds, whatever happens until the
  player is back, is an if and only if; and a run in which the promise breaks is given for every configuration.
  `AutofireButtons` and `StagingLaws` say the same of the raw button masks, and `RecordingRuns` shows that a recording holds exactly the frames that ran.
- **Audio** (`AudioPlayback`, `AudioRuns`, `AudioFilter`, `UnderrunRecovery`). The playback side of the ring as
  an object, every interleaving of writes, generation changes and callbacks, the stereo filter over the two ring slices, and the underrun
  detector against the full history. Consecutive writes equal one write exactly when the first has even length, the filter is off or
  it cannot move; the one caller trims every write to even length (`src/audio/native/queue.rs:177`), so they always do.
- **Source stamp** (`SourceStamp`, `SourceTree`, `SourceNames`, `SourceWalks`, `SourceLayout`). The byte streams fed to the hashes, the directory walk in
  arbitrary order, and the exact condition: all reading orders of a checkout give one stamp if and only if no stamped name
  is claimed by two contents. Names are rewritten from backslash to slash, so on systems where a file name may hold a backslash two
  files can claim one name, and the stamp then depends on the reading order.
- **Module loader** (`ModuleLoader`). The memoised depth-first resolution with its cycle check, on any module graph.
- **Pacing** (`RewindPacer`, `TimedTaps`). Whole-run time and frame bounds. Rewind keeps pace in every run if and only if the longest
  batch fits 64 bits of nanoseconds; with the fixed batch of four frames (`src/settings/structs.rs:281-283`) and real frame
  durations it always does. The bound counts from the moment the key was last let go, because letting go forgives the debt. A
  tap of zero frames, which only the request parser rules out, would hold up every tick until its line is let go or tapped again.

## Model

| member | source | states |
|---|---|---|
| DriverObject.ExpressionValue | scripts/generate-huge-reference.py:191-212 | the stack loop computes the meaning of an expression and raises exactly where that is rejected (unknown opcode, truncated operand, empty stack, leftovers) |
| DriverObject.CombineSound | scripts/generate-huge-reference.py:174-188 | whenever two symbolic values may be combined, the result materialises to the sum or difference modulo 2^32 of the materialised operands, for all bases, including the cancellation of equal domains |
| DriverObject.StepSound | scripts/generate-huge-reference.py:195-208 | each accepted token keeps the symbolic stack standing for the concrete one of a linker |
| DriverObject.RunSound | scripts/generate-huge-reference.py:191-212 | the same over every token sequence |
| DriverObject.MeaningSound | scripts/generate-huge-reference.py:174-222 | for every accepted expression and every placement of the sections, the materialised symbolic value is the number a linker computes by direct stack evaluation |
| DriverEncoding.ReadingsFold | scripts/generate-huge-reference.py:191-212 | for every token list with operands in range, both readings of its rgbds(5) encoding, written out byte by byte without the decoder, are the folds of the two step functions over the tokens |
| DriverEncoding.MeaningIff | scripts/generate-huge-reference.py:191-212 | an expression has a meaning exactly when its bytes spell tokens that fold to that one value; whatever is no encoding is rejected |
| DriverEncoding.LinkedValueIff | scripts/generate-huge-reference.py:191-222 | the same for the reference linker |
| DriverEncoding.StepAcceptsIff | scripts/generate-huge-reference.py:195-208 | what each token needs of the stack and what it leaves, for all stacks |
| DriverEncoding.SymbolMeans | scripts/generate-huge-reference.py:162-171 | a symbol means its value from the base of the driver or of the variables, section numbers counted from either end, and anything else raises |
| DriverEncoding.CombineAcceptsIff | scripts/generate-huge-reference.py:174-188 | two values combine exactly when neither is narrowed and the sum or difference holds at most one base, once; the result counts bases as the operands do |
| DriverEncoding.OperatorsMean | scripts/generate-huge-reference.py:201-203 | the linker adds and subtracts the operands in their order, around 2^32 |
| DriverEncoding.SelectorsMean | scripts/generate-huge-reference.py:204-208 | LOW and HIGH select bits 0 to 7 and 8 to 15 |
| Relocation.LastWriter | scripts/generate-huge-reference.py:302-305 | the patch whose byte survives at a position covers it, and no later patch does |
| Relocation.MaterializeSection | scripts/generate-huge-reference.py:301-308 | the overwriting loop computes the fold of all patches over the section and raises at the first patch whose bytes disagree with the ROM |
| Relocation.SortedKeeps | scripts/generate-huge-reference.py:259 | sorting gives an ascending permutation |
| Relocation.AnySortAgrees | scripts/generate-huge-reference.py:259-262 | every ascending permutation, the tuple order of the source included, has the same outcome: the same rejection or the same list |
| Relocation.GatheredAccepts | scripts/generate-huge-reference.py:239-256 | gathering succeeds only if every patch has a meaning and an acceptable kind, and then holds all its relocations |
| Relocation.GatheredOrigin | scripts/generate-huge-reference.py:239-256 | every relocation comes from some patch of the section |
| Relocation.CollectRelocations | scripts/generate-huge-reference.py:239-262 | the loop, sort and duplicate check return the moving bytes in position order or raise |
| Relocation.PackRoundTrip | scripts/generate-huge-reference.py:270-276 | the three packed fields decode to what was packed, inside 24 bits |
| Relocation.RamAnchor | scripts/generate-huge-reference.py:285-289 | the anchor is the first LOW/HIGH pair of one RAM word at adjacent positions, and there is none only if no such pair exists |
| Relocation.Generate | scripts/generate-huge-reference.py:292-334 | the generator's checks in order: it emits the file of the specification or raises |
| RelocationAcceptance.GeneratedIff | scripts/generate-huge-reference.py:292-334 | the generator accepts exactly the recognised objects whose ROM holds every patch as linked and every other byte as stored, whose moving bytes move once, fit the table and include a whole RAM word; and then emits the ROM bytes, the table of all entries in order and the first RAM word |
| RelocationAcceptance.RecognisedIff | scripts/generate-huge-reference.py:294-320 | which objects are recognised: the first driver section, its size and kind, the two entry points and the size of the variables |
| RelocationAcceptance.StoredDigits | scripts/generate-huge-reference.py:225-232 | bytes, words and longs are stored least significant byte first |
| RelocationAcceptance.JumpReaches | scripts/generate-huge-reference.py:233-235 | a JR stores the distance to its target from two past its own address |
| RelocationAcceptance.SpelledIsPacked | scripts/generate-huge-reference.py:270-276 | position, offset and kind fill eleven, eleven and two bits of a table word |
| RelocationProof.SearchComplete | scripts/generate-huge-reference.py:366-372 | on a sorted table the binary search finds the word of every listed position |
| RelocationProof.LookupAt | scripts/generate-huge-reference.py:350-380 | the emitted lookup returns the relocated byte for every table position and the stored byte everywhere else |
| RelocationProof.MovedIffInTable | scripts/generate-huge-reference.py:239-262 | a byte is in the table exactly when some patch makes it move |
| RelocationProof.FixedByte | scripts/generate-huge-reference.py:215-236 | constant and JR patches store the same bytes at all bases, unless a JR is narrowed to its high byte |
| RelocationProof.JrBaseIndependentIff | scripts/generate-huge-reference.py:225-236 | a JR displacement is base-independent if and only if its target is not narrowed to the high byte |
| RelocationProof.MovingByte | scripts/generate-huge-reference.py:215-282 | the byte of a relocation is the byte its patch stores, at all bases |
| RelocationProof.JrHighFails | scripts/generate-huge-reference.py:225-262 | a surviving JR byte narrowed to its high byte makes the table wrong at code base 0 or 2 |
| RelocationProof.OverwrittenMoveFails | scripts/generate-huge-reference.py:239-262 | a fixed byte written over a moving one makes the table wrong at base 0, 1 or 256 |
| RelocationProof.RelocationIsLinking | scripts/generate-huge-reference.py:301-380 | the emitted lookup equals linking at every pair of 16-bit bases if and only if every byte is clean |
| RelocationProof.DisjointPatchesRelocate | scripts/generate-huge-reference.py:301-380 | with disjoint patches and no HIGH in a JR the lookup equals linking at every pair of bases |
| RelocationLimits.AcceptsJrHigh | scripts/generate-huge-reference.py:225-262 | an object with a JR narrowed to its high byte that the generator accepts and relocates wrongly |
| RelocationLimits.AcceptsOverwrittenMove | scripts/generate-huge-reference.py:301-310 | an object with a constant over a moving byte that the generator accepts and relocates wrongly |
| RelocationProof.InferenceUnique | scripts/generate-huge-reference.py:328-334 | bytes that match all RAM patches of some base in 0xC000..0xCFFF give back that base, and no other base matches, so the uniqueness search over a second ROM can never find two |
| RelocationProof.InferenceInvertsRelocation | scripts/generate-huge-reference.py:357-364 | on a relocated driver the RAM base is returned exactly, and nothing when it is outside work RAM, for every code base |
| RelocationAcceptance.InferredIff | scripts/generate-huge-reference.py:357-364 | a base is inferred exactly from bytes of the driver's length whose anchored word is that base plus the anchor offset, inside work RAM |
| TasCoordinator.Coordinator.BeginAcquireNow | src/app/tas_control.rs:59-83 | acquiring moves from detached to pending with a new request number, and does nothing otherwise |
| TasCoordinator.Coordinator.Queue | src/app/tas_control.rs:85-105 | queueing is allowed only when detached and the mode is supported |
| TasCoordinator.Coordinator.BeginQueued | src/app/tas_control.rs:107-132 | a queued acquisition is sent once, with its own snapshot |
| TasCoordinator.Coordinator.CancelRun | src/app/tas_control.rs:134-218 | queued drops, pending is marked, a held lease is rolled back to its own witness |
| TasCoordinator.Coordinator.CommitNow | src/app/tas_control.rs:221-252 | a commit needs the bound snapshot; a changed editor is answered by a rollback |
| TasCoordinator.Coordinator.ReconcileProject | src/app/tas_control/lifecycle.rs:209-322 | an edit drops, cancels, rebinds or rolls back, by the two snapshot comparisons |
| TasCoordinator.Coordinator.SeekTo | src/app/tas_control/linked_session.rs:87-204 | a linked seek starts the next run on the same lease and witness |
| TasCoordinator.Coordinator.StageNextFrame | src/app/tas_control/staged_execution.rs:19-155 | one more staged frame, a new segment after 600, or a rollback |
| TasCoordinator.Coordinator.ConsumeResponse | src/app/tas_control.rs:271-870 | every reply in every state: accepted, ignored, rolled back or terminal |
| TasSafety.StepKeepsInv | src/app/tas_control.rs:59-870 | every step of coordinator, worker or channel keeps the invariant relating the three |
| TasSafety.RunKeepsInv | src/app/tas_control.rs:59-870 | the invariant holds in every run |
| TasSafety.DetachedMeansReturned | src/app/tas_control/lifecycle.rs:68-75 | detached implies empty channels and a worker without a lease, in every run |
| TasSafety.TerminalMeansRefused | src/app/tas_control.rs:787-870 | the terminal state is reached only because the worker refused a rollback or commit; every mismatch reply is unreachable |
| TasSafety.PromiseEndsProperly | src/app/tas_control.rs:787-842 | a held lease and its witness stand until a commit, a matching restore of exactly the witness, or a refusal |
| TasSafety.CommitEndsProperly | src/app/tas_control.rs:843-870 | a commit in flight ends only with the worker's answer about that lease |
| TasSafety.WitnessNeverChanges | src/app/tas_control.rs:297-378 | from any moment a lease is held, over every continuation, neither coordinator, nor worker, nor a reply in flight attributes another witness to it |
| TasSafety.CommitAuthority | src/app/tas_control.rs:221-252 | in every run a commit goes out only for the worker's own candidate covering exactly the bound prefix, with the editor showing the bound snapshot and the prefix the same at binding, completion and commit |
| TasSafety.CompletionNeedsWholePrefix | src/app/tas_control.rs:396-517 | a run counts as complete only on the worker's report of the whole prefix for that lease, run and frame, with the editor unchanged, and only if the run opened fresh, at a cached target or after a known predecessor |
| TasSafety.CancelledNeverExecutes | src/app/tas_control.rs:297-378 | request numbers strictly increase, and a request cancelled while pending is never answered by an execution |
| TasSafety.WorkRefusedOnlyByEmulator | src/emu_thread/emu_loop/tas_control.rs:381-672 | the worker never refuses an execution or a frame of the coordinator on protocol grounds, in any run, work left in the queue by a cancel included |
| TasSafety.CancelReturnsTheGame | src/app/tas_control.rs:134-218 | after a cancel in any reachable state, with a faithful emulator and any schedule of the two sides, at most four turns find something to do, and once nothing is pending the game is returned, unless the worker had already refused, and only then the end is terminal |
| TasProgress.WorkEnds | src/app/tas_control.rs:59-870 | from every reachable state, whatever emulator and editor do and in whatever order the two sides and the staging of frames take turns, a bounded number of useful moves leads to a state that waits for the user |
| TasProgress.AcquisitionIsExecuted | src/app/tas_control.rs:297-590 | from every reachable acquisition neither cancelled nor refused, with the editor showing the wanted project and an emulator that does not fail, every schedule has at most three useful moves a frame and nine more, and ends with the whole prefix run under that lease on both sides |
| TasProgress.CanBeFinished | src/app/tas_control.rs:297-590 | every such schedule can be carried on to that end |
| TasProgress.AskingAcquires | src/app/tas_control.rs:59-132 | asking directly or through the queue sends one acquisition with the next request number |
| TasProgress.SeekIsExecuted | src/app/tas_control/linked_session.rs:87-204 | a linked seek to a compatible project runs its whole prefix on the same lease, on every schedule |
| TasProgress.CommitGoesThrough | src/app/tas_control.rs:221-252 | a commit with the bound snapshot showing and a state that verifies ends with the game back with the player |
| TasProgress.DeclinedGoesBack | src/app/tas_control.rs:134-252 | a commit with anything else showing, or a cancel, rolls the lease back to its witness |
| TasProgress.EditIsFollowedIff | src/app/tas_control/lifecycle.rs:209-322 | field by field: a held lease stays, is rebound or is given back exactly as the project and its inputs compare |
| TasProgress.EditDropsUnwanted | src/app/tas_control/lifecycle.rs:209-322 | a queued acquisition is dropped and a pending one marked exactly when the editor shows something else |
| TasProgress.InputsNeverChange | src/app/tas_control/lifecycle.rs:209-322 | in every run what is executing, staged or awaiting a decision has the profile, identity, prefix length and prefix hash that were bound |
| TasReplies.ExecutionAcceptedIff | src/app/tas_control.rs:396-517 | whatever reply arrives, an execution is accepted exactly on a report of this lease, run and profile that spans its first transaction with the editor unchanged, and any other report is terminal |
| TasReplies.FrameAcceptedIff | src/app/tas_control.rs:580-700 | a staged frame is accepted exactly on a report of that frame, segment and place |
| TasReplies.RefusalIsAnsweredIff | src/app/tas_control.rs:518-786 | a refusal of this very work is given back, unless it says that the lease is lost; every other refusal is terminal |
| TasReplies.GrantedLeaseIff | src/app/tas_control.rs:297-378 | a granted lease is executed exactly for the request and project wanted, and otherwise always sent back |
| TasReplies.StagesIff | src/app/tas_control/staged_execution.rs:19-155 | the next frame is staged exactly when its input is there and no number is used up, the 601st in a new segment |
| TasReplies.DetachedAgainIff | src/app/tas_control.rs:379-870 | the coordinator detaches exactly on the matching restore, commit or refused acquisition |
| TasReplies.RefusedIsTerminal | src/app/tas_control.rs:787-870 | an answer about the held lease other than the promised one is terminal, with its reason |
| TasReplies.GrantsIff | src/emu_thread/emu_loop/tas_control.rs:313-380 | the worker grants a lease exactly when it holds none, has a number left and a witness |
| TasReplies.RunsIff | src/emu_thread/emu_loop/tas_control.rs:381-507 | whatever command arrives, a run is executed exactly when it is the next of this lease and profile after runs that did not fail and the emulator can start it |
| TasReplies.AdvancesIff | src/emu_thread/emu_loop/tas_control.rs:508-672 | a frame is run exactly when it continues the worker's own candidate in every field |
| TasReplies.ReleasesIff | src/emu_thread/emu_loop/tas_control.rs:674-780 | the worker lets the game go exactly to its own lease, restored to the checkpoint or with a verified candidate |
| TasReplies.RefusalsAreTrue | src/emu_thread/emu_loop/tas_control.rs:381-672 | what a refusal says of the lease is so |
| Autofire.ApplyFrame | src/app/autofire.rs:67-101 | the nested in-place loops compute next phases and masks target by target, and phases stay bounded |
| Autofire.ResetReleased | src/app/autofire.rs:34-51 | exactly the released or unconfigured phases are reset |
| Autofire.Preview | src/app/autofire.rs:15-32 | preview returns the outputs and the state after each frame of running frames one at a time |
| Autofire.ReleaseOnlyThat | src/app/autofire.rs:103-115 | clearing one action's bit leaves every other action alone: the eight bits are distinct |
| Autofire.FilteredBit | src/app/autofire.rs:73-89 | an action stays held unless its own pattern blanks it, whatever the others do |
| Autofire.PhasesNeverOverflow | src/app/autofire.rs:84-88 | over every run, however patterns change, a phase stays below the longest period, so the byte increment cannot overflow |
| Autofire.AfterSplit | src/app/autofire.rs:15-32 | running a concatenation is running its parts in turn |
| Autofire.HoldClosedForm | src/app/autofire.rs:73-101 | a target held from phase 0 passes its i-th frame exactly when i mod period is below the on-frames, for unbounded holds and independently of every other target |
| Autofire.LegacyAlternates | src/app/autofire.rs:92-99 | legacy turbo blanks player one on every second frame for ever, across the byte wrap |
| Autofire.ResetIsInvisible | src/app/autofire.rs:34-101 | resetting released targets first changes neither the output nor the stored state of a frame |
| Autofire.FastPathExact | src/app/autofire.rs:34-65 | when no staging is needed a frame leaves the buttons alone and does what the reset does |
| AutofireButtons.FilteredButtons | src/app/autofire.rs:73-115 | mask by mask, each action's own button passes exactly if it is down and its pattern lets it; the eight masks are written out |
| AutofireButtons.HoldOnController | src/app/autofire.rs:73-115 | the closed form of a hold on the raw masks |
| AutofireButtons.HoldAfterRelease | src/app/autofire.rs:73-101 | whatever happened before, a hold after one frame with the button up starts its pattern anew |
| AutofireButtons.PhaseMoves | src/app/autofire.rs:84-99 | phases move on by one around the pattern's period while held and rest otherwise |
| AutofireButtons.ResetMeans | src/app/autofire.rs:34-51 | a reset rests exactly the phases whose button is up or whose pattern is gone |
| AutofireButtons.LegacyOnController | src/app/autofire.rs:92-99 | legacy turbo empties player one's mask on every second frame of a hold, the first included, and touches no other player |
| AutofireButtons.StagingNeededIff | src/app/autofire.rs:53-65 | staging is skipped exactly for the inputs whose frame, from every state, leaves the buttons alone and does what the reset does |
| ReplayCommit.ReplayTimeline.CommitReplayBatch | src/app/frame_result.rs:598-658 | committing n removes the first min(n, total) frames of the flat log; told batch by batch, the recorder gets exactly the frames to record in order, the last state among them is installed and the replay moves on by its own frames; empty batches do not stop it |
| ReplayCommit.ReplayTimeline.CommitFrontBatch | src/app/frame_result.rs:600-657 | one turn of the loop is the commit of the front batch's share, and the deque or the remainder shrinks |
| ReplayCommit.ReplayTimeline.TakePiece | src/app/frame_result.rs:604-642 | what committing a prefix of one batch does to recorder, player, state and count |
| ReplayCommit.ReplayTimeline.StageBatch | src/app/tick/input.rs:433-448 | a staged batch joins the end of the log and keeps the timeline consistent |
| ReplayCommit.ReplayTimeline.StagePlayback | src/app/tick/input.rs:353-374 | the replay's next frames are staged and counted; a replay with none left is dropped |
| ReplayCommit.BatchPrefix | src/app/frame_result.rs:604-616 | a piece of a batch has the effect of its frames one by one |
| ReplayCommit.CommitAdds | src/app/frame_result.rs:598-658 | commit m then n is commit m + n, past the end as well, and the queued count stays the playback frames left |
| ReplayCommit.PiecesAdd | src/app/frame_result.rs:598-658 | any sequence of partial commits equals one commit of the total |
| ReplayCommit.CommitMeans | src/app/frame_result.rs:598-658 | read off the log: a commit gives the recorder exactly the flagged frames in order, leaves a missing one missing, installs the last state brought, and moves the replay on by its own frames, dropping it exactly at the end without a checkpoint |
| ReplayCommit.PeekAt | src/app/tick/input.rs:353-374 | the frames staged from a replay, one by one, after those queued already and never past the end |
| SpeculativeAutofire.ChainedEffect | src/app/tick/input.rs:390-449 | with batches previewed one from the other, the state installed by the first k frames is the one of running k frames |
| SpeculativeAutofire.SpeculationAgrees | src/app/frame_result.rs:604-655 | after any partial commits the autofire state equals frame-by-frame execution of the committed frames |
| SpeculativeAutofire.ElisionExactIff | src/app/tick/input.rs:440-447 | leaving the states out of a batch is exact if and only if every configured phase is at rest |
| InputStaging.InputStage.SyncEffectiveInput | src/app/input_configuration.rs:63-65 | changed patterns, or any other change of the effective input, ask for a reset |
| InputStaging.InputStage.ObserveTransitions | src/app/tick/input.rs:227-247 | exactly the configured targets that went from held to released are remembered |
| InputStaging.InputStage.ConsumeRearmIfIdle | src/app/tick/input.rs:257-293 | a pending reset is consumed only when nothing is staged or in flight and no live TAS frame is out |
| InputStaging.InputStage.PrepareReplayJoypadBatch | src/app/tick/input.rs:337-460 | which frames are handed out and what is staged: the queue first, then a replay, then live input with or without its states |
| InputStaging.InputStage.FinishFrames | src/app/frame_result.rs:268-276 | a result answers requests and commits the staged frames that ran |
| StagingLaws.MarkedIff | src/app/tick/input.rs:227-247 | a target is marked exactly when it has a pattern and its button went from down to up |
| StagingLaws.NoReleaseMissed | src/app/tick/input.rs:227-247 | over any number of observations no release is forgotten and none made up |
| StagingLaws.ConsumedIff | src/app/tick/input.rs:257-293 | a reset is consumed exactly when one is due and nothing is staged, in flight or live, and all flags go with it |
| StagingLaws.ConsumedPhases | src/app/tick/input.rs:270-292 | a reset rests every phase, a release that target's phase and no other |
| StagingLaws.ChangeStartsAnew | src/app/input_configuration.rs:50-65 | any change of the effective input starts every pattern anew |
| StagingLaws.NoticedReleaseRestarts | src/app/tick/input.rs:227-293 | a button let go and pressed again between two frames starts its pattern anew |
| StagingLaws.StagedComesFirst | src/app/tick/input.rs:337-352 | frames staged before are handed on first |
| StagingLaws.ReplayComesNext | src/app/tick/input.rs:353-374 | then exactly the replay's next frames up to its event, or the replay is over |
| StagingLaws.LiveComesLast | src/app/tick/input.rs:375-460 | then live input, staged exactly when it is recorded or autofire may act, pressed as frame-by-frame execution presses it and marked only for a recording |
| StagingLaws.StatesTravelIff | src/app/tick/input.rs:440-447 | the states travel exactly when a pattern is set or legacy turbo is held or not at rest, and are those of execution |
| StagingLaws.RequestAllowedIff | src/app/tick/mod.rs:285-292 | a second request overlaps the first exactly when nothing is recorded, played or staged and autofire has no say |
| StagingRuns.LeftoverMeansRearm | src/app/input_configuration.rs:50-65 | in every run, a phase whose pattern is unset means a pending reset, for the installed state and for every state still to be installed, and no phase overflows |
| StagingRuns.ElidedIsExact | src/app/tick/input.rs:377-447 | in every run, a batch that leaves its states out mirrors frame-by-frame execution |
| StagingRuns.SpeculationIsExecution | src/app/tick/input.rs:337-460 | over every orderly run, changes of configuration, resets, playback, recording and TAS leases included, the installed state is the one of executing frame by frame, and every staged frame carries the buttons and the state execution gives it |
| StagingRuns.MirrorAfterCommit | src/app/frame_result.rs:598-658 | what a partial commit leaves staged still mirrors execution from where the commit got to |
| StagingRuns.PlaybackInOrder | src/app/tick/input.rs:353-374 | in every run the frames staged for playback are the replay's next frames, none skipped or repeated, and never mixed with live input |
| StagingRuns.LeaseMidBatchIff | src/app/tas_control/integration.rs:140-148 | from any faithful session with live frames staged, after any events that neither commit nor drop them, with leases, live and refused frames, resets and configuration changes in any order, the session back with the player is faithful if and only if the next staged frame still gives the same state and the same buttons |
| StagingRuns.StatesTravel | src/app/tick/input.rs:440-447 | in every run, frames staged neither for a recording nor from a replay carry their autofire states |
| StagingRuns.MidBatchLeaseBreaks | src/app/tas_control/integration.rs:140-148 | under every configuration a reachable faithful session, one of two frames run under legacy turbo, becomes unfaithful through a lease with one live frame |
| StagingRuns.NothingQueued | src/app/state_io/replay.rs:373-379 | in every run, nothing is queued for playback without a replay, so a recording that starts has no count to clear |
| RecordingRuns.RecorderIsTape | src/app/frame_result.rs:604-616 | in every orderly run the recorder is open from the start of a recording until it is written, and holds the buttons of exactly the live frames staged since then that really ran, as execution presses them |
| ModuleLoader.Loader.ModuleUrl | scripts/web_bundle_loader.js:15-31 | terminates on every finite graph; the memo stays closed under imports and keeps its entries, a throw included; a throw exhibits a bad import chain |
| ModuleLoader.Loader.Load | scripts/web_bundle_loader.js:15-31 | from any valid memo loading succeeds exactly when the graph reachable from the root is closed and acyclic, and then all of it is published |
| ModuleLoader.Loader.Publish | scripts/web_bundle_loader.js:28-30 | a new blob imports the URLs of the published modules it names, in order |
| ModuleLoader.OrderedHasNoBadWalk | scripts/web_bundle_loader.js:16-17 | a published module starts no cyclic or dangling import chain |
| SourceStamp.EntryDecodes | build_support/source_stamp.rs:117-125 | an encoded entry is self-delimiting: equal streams start with equal entries |
| SourceLayout.EntryLayout | build_support/source_stamp.rs:117-125 | the bytes of an entry: the name after its 64-bit little-endian length, the content flag, and the content likewise |
| SourceLayout.BeforeIff | build_support/source_stamp.rs:43 | a name comes before another exactly when, at the first difference, it ends or has the smaller byte |
| SourceStamp.StreamInjective | build_support/source_stamp.rs:49-55 | the stream determines the list of entries |
| SourceStamp.SortStable | build_support/source_stamp.rs:43 | entries of one name keep their order |
| SourceStamp.SortedKeeps | build_support/source_stamp.rs:43 | the sort is an ascending permutation |
| SourceStamp.CanonicalIff | build_support/source_stamp.rs:43-55 | the stream is independent of the collection order if and only if no name is claimed by two contents |
| SourceStamp.SameStreamIffSameFiles | build_support/source_stamp.rs:43-55 | with names claimed once, two file sets give identical bytes exactly when they are the same files |
| SourceStamp.QualificationStream | build_support/source_stamp.rs:52-54 | the qualification stream is the stream of the file set with only the table removed |
| SourceLayout.OnlyTableLeftOut | build_support/source_stamp.rs:52-54 | every entry but those of the table stays as often as it was |
| SourceLayout.StampMeans | build_support/source_stamp.rs:43-67 | the full stream is that of all files by name, the qualification stream that of all but the table |
| SourceTree.FilesAnyFirst | build_support/source_stamp.rs:98-107 | the files of a directory do not depend on which entry is read first |
| SourceTree.WalkedFiles | build_support/source_stamp.rs:98-107 | whatever the order of reading, the same files are pushed |
| SourceTree.Snapshotter.Collect | build_support/source_stamp.rs:72-115 | the walk pushes what its reading order says, which is exactly the files below a path, or fails exactly on a refused node |
| SourceTree.Snapshotter.CollectRoots | build_support/source_stamp.rs:31-42 | the roots in order: the root files must exist, the directories may be missing |
| SourceTree.Snapshotter.Snapshot | build_support/source_stamp.rs:27-70 | fails exactly when the checkout is not acceptable, and otherwise stamps its files |
| SourceTree.Hashed | build_support/source_stamp.rs:46-55 | the one loop feeds both hashes their streams and counts the files |
| SourceTree.StampUnique | build_support/source_stamp.rs:27-70 | with names claimed once every reading order gives the same stamp |
| SourceLayout.FilesIff | build_support/source_stamp.rs:72-115 | exactly the regular files reached by names that are not skipped, outside the upstream checkout, are stamped, under their rewritten path and with their content |
| SourceLayout.RefusedIff | build_support/source_stamp.rs:72-115 | the walk fails exactly when it reaches a link or a special file that way |
| SourceLayout.CheckoutFileIff | build_support/source_stamp.rs:7-42 | the same from the three root files and seven directories |
| SourceLayout.AcceptableIff | build_support/source_stamp.rs:27-42 | a checkout is stamped exactly when the root files exist and nothing is in the way |
| SourceNames.FilesConsistent | build_support/source_stamp.rs:86-96 | a tree whose names hold no slash or backslash claims each stamped name once |
| SourceNames.PlainCheckoutCanonical | build_support/source_stamp.rs:7-70 | a checkout without backslashes in its names has one stamp, whatever the reading order |
| SourceNames.BackslashCollides | build_support/source_stamp.rs:89 | a file with a backslash in its name claims the name of a file in a sibling directory |
| SourceWalks.ClashShows | build_support/source_stamp.rs:98-107 | where two contents claim one name, two reading orders of the directory list them differently |
| SourceWalks.OneStampIff | build_support/source_stamp.rs:27-115 | all orders of reading a checkout's directories give one stamp if and only if no stamped name is claimed by two contents |
| SourceWalks.BackslashTwoStamps | build_support/source_stamp.rs:86-107 | with a file `a\b` beside a directory `a` holding another file `b`, the stamp depends on the reading order |
| AudioPlayback.PlaybackState.DiscardStaleSamples | src/audio/native.rs:225-237 | drops the leading samples of older generations and unprimes on a generation change |
| AudioPlayback.PlaybackState.IsReady | src/audio/native.rs:239-259 | the preroll and underrun decision |
| AudioPlayback.PlaybackState.FillOutput | src/audio/native.rs:699-758 | the whole device buffer and the whole new state after a callback |
| AudioPlayback.RenderedAt | src/audio/native.rs:735-747 | channel by channel, frame f plays the f-th pair: left, right, and the half sum on mono and further channels |
| AudioPlayback.OutputAt | src/audio/native.rs:699-758 | every slot of the device buffer: the played pairs on their channels, silence elsewhere |
| AudioPlayback.PairsFit | src/audio/native.rs:699-712 | a buffer takes as many whole frames as fit |
| AudioRuns.StepKeepsInv | src/audio/native.rs:225-259 | every step keeps the account of played, discarded and queued samples |
| AudioRuns.NothingLost | src/audio/native.rs:699-758 | in every run written samples are those played, those discarded and those queued, and the queue is the end of what was written |
| AudioRuns.PlaysCurrentInOrder | src/audio/native.rs:225-259 | in every run a callback plays the next samples in written order, all of the current generation, and skips only older ones |
| AudioRuns.LeftRightNeverSwap | src/audio/native.rs:699-747 | if producers write whole pairs, every callback of every run starts on a left sample |
| AudioRuns.FullOrSilent | src/audio/native.rs:239-259 | a callback that fits the ring plays in full or not at all, and after silence resumes only with the preroll in store |
| AudioRuns.CallbackExact | src/audio/native.rs:225-259 | with the hysteresis spelled out: a callback that fits the ring plays if and only if a buffer is stored and either playback was running or the preroll is stored too, and counts an underrun exactly when running playback is interrupted |
| AudioRuns.OversizedCallback | src/audio/native.rs:715-734 | a buffer larger than the ring takes the whole pairs there are and counts one underrun |
| AudioRuns.WriteExact | src/audio/native.rs:661-697 | a write that fits goes in whole, tagged with the generation, and any other changes nothing |
| AudioFilter.Producer.WriteProcessed | src/audio/native.rs:661-697 | writing through two slices, split anywhere, is one contiguous filter pass; a full ring writes nothing |
| AudioFilter.PassSplits | src/audio/native.rs:661-697 | consecutive even-length writes equal one write of their concatenation, samples and filter state |
| AudioFilter.WritesComposeIff | src/audio/native.rs:661-697 | whatever follows, a write and the next equal one write of both if and only if the first has even length, the filter is off, or it cannot move |
| AudioFilter.NeverOvershoots | src/audio/native.rs:267-290 | with alpha in [0, 1] outputs and memory stay within the bound on memory and scaled input |
| AudioFilter.OffScales | src/audio/native.rs:661-697 | with the filter off every output is the sample times the gain |
| AudioFilter.StepResponse | src/audio/native.rs:273-282 | on a constant input each channel approaches it geometrically |
| UnderrunRecovery.Detector.Observe | src/audio/native.rs:129-160 | one observation on the deque, with its byte counting |
| UnderrunRecovery.ObservationRefines | src/audio/native.rs:129-160 | one observation keeps the deque equal to the recent part of the full history |
| UnderrunRecovery.DequeAnswersForHistory | src/audio/native.rs:111-160 | in every monotone run a fallback is reported exactly when three underruns since the last reset lie within five seconds; the deque never holds more than two |
| UnderrunRecovery.FallbackIff | src/audio/native.rs:111-160 | read off the observations: a fallback is asked for exactly when at least three underruns since the last reset lie within five seconds, and reports their number up to 255 |
| RewindPacer.Pacer.Reconcile | src/app/types.rs:85-99 | the debt after the real frame count is known |
| RewindPacer.ReconciledCost | src/app/types.rs:85-99 | without saturation reconciling replaces the scheduled cost by the actual one, floored at nothing owed |
| RewindPacer.StepStaysSolvent | src/app/types.rs:70-103 | every step, a failure or a release of the key included, keeps the debt covering what was rewound and not yet paid |
| RewindPacer.NeverOutrunsRealTime | src/app/tick/mod.rs:246-285 | in every run that sends only when ready and answers each batch once, counted since the key was last let go, all frames but the newest batch's fit into the time credited, and all of them when the pacer is ready |
| RewindPacer.ReadyExactly | src/app/types.rs:70-99 | for every cut of time around the reply, the pacer is ready exactly when the actual frames are paid for, waiting counted up to the scheduled length |
| RewindPacer.KeepsPaceIff | src/app/types.rs:70-108 | with batches of at most a given size, every run keeps pace if and only if the longest batch fits 64 bits of nanoseconds |
| RewindPacer.ScheduledCost | src/app/types.rs:78-108 | a batch costs at most 2^64 - 1 nanoseconds and the debt stays below 2^64 seconds |
| RewindPacer.FailureForgives | src/app/types.rs:55-103 | a failed batch owes nothing, and letting go of the key forgives the debt |
| RewindPacer.LateAnswer | src/app/types.rs:55-99 | a batch answered after the key was let go is charged in full |
| TimedTaps.Remote.Obey | src/app/remote.rs:107-194 | which presses, releases and taps are accepted, and what they leave held and pending |
| TimedTaps.Remote.FrameLimit | src/app/remote.rs:748-754 | the limit is the greatest number of frames, up to those wanted, that overshoots no pending release |
| TimedTaps.Remote.CountDown | src/app/remote.rs:756-769 | the countdown returns the expired targets in order and keeps the rest |
| TimedTaps.Remote.Advance | src/app/remote.rs:47-53 | a tick counts down and lets go of the expired lines |
| TimedTaps.LinesOf | src/app/remote.rs:107-194 | which lines exist on which system |
| TimedTaps.RequestMeans | src/app/remote.rs:107-194 | what a press, a release and a tap do to their own line, and that no other line changes |
| TimedTaps.ParsedIs | src/live_control/parse.rs:91-119 | a missing count is four frames, any other is brought into 1 to 60 |
| TimedTaps.InListOrder | src/app/remote.rs:756-769 | expired targets and remaining releases keep the order of the list |
| TimedTaps.AtMostOnePending | src/app/remote.rs:120-146 | at most one release is pending per player and input in every run |
| TimedTaps.TapIsExact | src/app/remote.rs:756-769 | under the frame limit a tap of n frames is held until, and released exactly once at, n frames later, whatever happens on other lines |
| TimedTaps.NeverStalls | src/live_control/parse.rs:91-119 | with parsed requests the limit always allows at least one frame |
| TimedTaps.ZeroTapStalls | src/app/remote.rs:748-754 | a pending tap of zero frames holds the limit at zero through every run that neither lets go of its line nor taps it again |

## Left out

- Object files: reading bytes into symbols, sections and patches is not modelled; a section's data is taken to have the section's size. The optional second ROM of `generate` is a comparison at one more pair of bases.
- Relocation.SortedKeeps: orders by position only, where the source sorts whole tuples; `AnySortAgrees` shows that the outcome is the same.
- Relocation.Generate: the text of the emitted file is its constants; number formatting is not modelled.
- TasCoordinator.Coordinator.CancelRun: the states of a live frame and of movie playback are not modelled.
- TasCoordinator.Coordinator.CommitNow: the guard that refuses a commit during movie playback is not modelled.
- TasCoordinator.Coordinator.ReconcileProject: the states of a live frame and of movie playback are not modelled.
- TasCoordinator.Coordinator.SeekTo: the guard that refuses a seek during movie playback is not modelled.
- TasCoordinator.Coordinator.ConsumeResponse: replies to live frames and to movie playback are not modelled.
- TAS states for playback, live recording, frame advance outside staged replay, worker replacement and readiness checks are not part of this model, nor are replies from an older worker generation.
- TasSafety.CancelReturnsTheGame: assumes that the emulator restores its own checkpoint and verifies its own candidate.
- TasProgress.AcquisitionIsExecuted: assumes that the emulator has a witness, can start the run and runs every frame, and that the editor keeps showing the wanted project; request and lease numbers must not be used up.
- TAS digests are opaque values compared for equality; the materialised input of a project is represented by its length.
- Autofire.ApplyFrame: patterns are valid as the settings make them (`src/settings/autofire.rs:97-107`); how effective patterns are computed from them is not modelled.
- ReplayCommit.ReplayTimeline.CommitReplayBatch: notifications and resuming the uncapped worker are not modelled; a recorder is the list of its frames, a player its cursor and checkpoints.
- InputStaging.InputStage.PrepareReplayJoypadBatch: of a frame only the five button masks are read, the rest is carried as it is; the replay's event limit is given. Effective patterns change only through the refresh, because the console is part of the game key.
- StagingRuns.SpeculationIsExecution: staged frames dropped with their replay or recording count as not executed; an empty replay is dropped when it is loaded, in the code at its next tick; a worker's replies are one event each. A live TAS frame stays executed in the reference when its lease is rolled back, as the code does not restore the autofire state either. Runs that take a lease in the middle of an autofire batch are the subject of `LeaseMidBatchIff`.
- ModuleLoader.Loader.ModuleUrl: the imports a module names are given; an import that leaves the base path counts as one that is not bundled, and recursion depth is unbounded.
- SourceTree.Snapshotter.Snapshot: SHA-256 and the list of watched inputs are not modelled; the stamp is the two streams and the count. A name that is not UTF-8 and a failed read are not modelled.
- AudioPlayback.PlaybackState.FillOutput: samples are reals and a callback is one atomic step; the generation never wraps at 2^64.
- AudioFilter.NeverOvershoots: floating-point rounding is not modelled.
- Ring capacity, preroll and long-stall arithmetic (one-line formulas), device selection, resampling, queue budgets and the netplay audio budget.
- RewindPacer.NeverOutrunsRealTime: one frame duration per run; a change of core clock in the middle of a batch is not modelled. Time is what the tick credits, which is at most the time that passed.
- TimedTaps.Remote.Obey: other remote commands, key bit masks and the worker notification are not modelled; players are 1 to 5 as the parser ensures.
- Rendering, windows, settings, key binding, network play, downloads and archives.
