/**
 Staging input for the emulator: which batches the frontend queues, which autofire states travel with them, and
 when a changed configuration or a released target resets the phases.
 */
module InputStaging {
  import opened Common
  import opened Autofire
  import opened ReplayCommit

  const NO_FLAGS: FlagRow := [false, false, false, false, false, false, false, false]

  type FlagRow = s: seq<bool> | |s| == ACTIONS witness [false, false, false, false, false, false, false, false]
  type Flags = s: seq<FlagRow> | |s| == PLAYERS witness [NO_FLAGS, NO_FLAGS, NO_FLAGS, NO_FLAGS, NO_FLAGS]

  const NONE_RELEASED: Flags := [NO_FLAGS, NO_FLAGS, NO_FLAGS, NO_FLAGS, NO_FLAGS]
  const AT_REST: AutofireState := AutofireState(0, [IDLE_ROW, IDLE_ROW, IDLE_ROW, IDLE_ROW, IDLE_ROW])
  const MAX_IN_FLIGHT: nat := 2

  /** Who steps the game: the player, a TAS lease, a live TAS frame in flight, or a lease being given back. */
  datatype Owner = Gameplay | Lease | LiveFrame | Returning

  /**
   A replay recording: none, waiting for the worker to capture the start, recording, waiting for the final state with
   the recorder still open, and being written.
   */
  datatype Capture = Off | Starting | On | Finalizing | Saving

  /** What decides how input is staged; `preview` is the autofire state of a live TAS frame not yet committed. */
  datatype Stage = Stage(
    timeline: Timeline<AutofireState>, configured: Patterns, rearm: bool, legacyReleased: bool, released: Flags,
    observed: Masks, observedLegacy: bool, inFlight: nat, owner: Owner,
    preview: Option<AutofireState>, capture: Capture)

  function State(s: Stage): AutofireState {
    s.timeline.host.state
  }

  function WithState(s: Stage, state: AutofireState): Stage {
    s.(timeline := s.timeline.(host := s.timeline.host.(state := state)))
  }

  // ---------------------------------------------------------------- configuration and releases

  /** `sync_effective_input`: new patterns, or any other change of the effective input, ask for a rearm. */
  function Synced(s: Stage, patterns: Patterns, otherChange: bool): Stage {
    s.(configured := patterns, rearm := s.rearm || otherChange || patterns != s.configured)
  }

  /** One player's released targets. */
  function LetRow(patterns: PatternRow, before: bv8, now: bv8, released: FlagRow): FlagRow {
    seq(ACTIONS, a requires 0 <= a < ACTIONS =>
      released[a] || (patterns[a].Some? && Held(before, a) && !Held(now, a)))
  }

  function Let(configured: Patterns, observed: Masks, buttons: Masks, released: Flags): Flags {
    seq(PLAYERS, p requires 0 <= p < PLAYERS => LetRow(configured[p], observed[p], buttons[p], released[p]))
  }

  /** `observe_autofire_host_transitions`: remembers which configured targets were let go. */
  function Observed(s: Stage, buttons: Masks, legacyHeld: bool): Stage {
    s.(released := Let(s.configured, s.observed, buttons, s.released),
       legacyReleased := s.legacyReleased || (s.observedLegacy && !legacyHeld),
       observed := buttons, observedLegacy := legacyHeld)
  }

  predicate AnyReleased(released: Flags) {
    exists p, a :: 0 <= p < PLAYERS && 0 <= a < ACTIONS && released[p][a]
  }

  predicate TasIdle(s: Stage) {
    s.preview.None? && !s.owner.LiveFrame?
  }

  /** Nothing staged, nothing in flight, no live TAS frame: only then may phases be reset from outside. */
  predicate Idle(s: Stage) {
    s.inFlight == 0 && s.timeline.log == [] && TasIdle(s)
  }

  function LetGo(state: AutofireState, legacyReleased: bool, released: Flags): AutofireState {
    AutofireState(if legacyReleased then 0 else state.legacyPhase,
                  seq(PLAYERS, p requires 0 <= p < PLAYERS =>
                    seq(ACTIONS, a requires 0 <= a < ACTIONS => if released[p][a] then 0 else state.configured[p][a])))
  }

  /** The state after a reset from outside. */
  function ResetState(s: Stage): AutofireState {
    if s.rearm then AT_REST else LetGo(State(s), s.legacyReleased, s.released)
  }

  /** `consume_autofire_rearm_if_idle`. */
  function Rearmed(s: Stage): Stage {
    if (s.rearm || s.legacyReleased || AnyReleased(s.released)) && Idle(s)
    then WithState(s, ResetState(s)).(rearm := false, legacyReleased := false, released := NONE_RELEASED)
    else s
  }

  // ---------------------------------------------------------------- a batch of live input

  predicate HasConfigured(configured: Patterns) {
    exists p, a :: 0 <= p < PLAYERS && 0 <= a < ACTIONS && configured[p][a].Some?
  }

  function Repeated(input: FrameInput, n: nat): (inputs: seq<FrameInput>)
    ensures |inputs| == n && forall i :: 0 <= i < n ==> inputs[i] == input
  {
    seq(n, _ => input)
  }

  /** The states travel with the frames unless nothing is configured or held and the legacy phase is at rest. */
  predicate KeepsStates(state: AutofireState, input: FrameInput) {
    NeedsStaging(input) || HasConfigured(input.configured) || state.legacyPhase != 0
  }

  function LiveBatch(state: AutofireState, input: FrameInput, n: nat, others: nat, record: bool)
    : (b: Batch<AutofireState>)
    requires ValidInput(input)
    ensures b.IsValid() && |b.frames| == n && !b.playback
  {
    var outputs := PreviewOutputs(state, Repeated(input, n));
    Batch(seq(n, i requires 0 <= i < n => Frame(outputs[i], others)), record, false,
          if KeepsStates(state, input) then PreviewStates(state, Repeated(input, n)) else [])
  }

  /** A tick's request: how many frames, the replay's own limit, and the input. */
  datatype Request = Request(n: nat, untilEvent: nat, legacyHeld: bool, buttons: Masks, others: nat)

  /** `should_stage_replay_recording_input`. */
  predicate Recording(s: Stage) {
    s.capture.Starting? || s.capture.On?
  }

  function InputOf(s: Stage, r: Request): FrameInput {
    FrameInput(r.legacyHeld, s.configured, r.buttons)
  }

  /** `prepare_replay_joypad_batch`: the stage after it. */
  function Prepared(s: Stage, r: Request): Stage
    requires ValidPatterns(s.configured)
  {
    if r.n == 0 || s.timeline.log != [] then s
    else if s.timeline.host.player.Some? then s.(timeline := PlaybackStaged(s.timeline, Min(r.n, r.untilEvent)))
    else PreparedLive(Rearmed(s), r)
  }

  /** Live input, once a pending reset has been consumed: staged when recorded or when autofire may change it. */
  function PreparedLive(t: Stage, r: Request): Stage
    requires ValidPatterns(t.configured)
  {
    var input := InputOf(t, r);
    if Recording(t) || NeedsStaging(input) then
      t.(timeline := Queued(t.timeline, LiveBatch(State(t), input, r.n, r.others, Recording(t))))
    else WithState(t, Reset(State(t), input))
  }

  function FramesOf(log: seq<Entry<AutofireState>>): (frames: seq<Frame>)
    ensures |frames| == |log|
  {
    seq(|log|, i requires 0 <= i < |log| => log[i].frame)
  }

  /** The frames handed to the emulator: what is staged first, up to the frames asked for. */
  function Handed(after: Stage, r: Request): Option<seq<Frame>> {
    var log := after.timeline.log;
    if r.n == 0 || log == [] then None else Some(FramesOf(log[..Min(r.n, |log|)]))
  }

  const BLANK: Stage := Stage(Timeline([], Host(AT_REST, None, None, 0)),
      [UNSET_ROW, UNSET_ROW, UNSET_ROW, UNSET_ROW, UNSET_ROW],
                              false, false, NONE_RELEASED, [0, 0, 0, 0, 0], false, 0, Gameplay, None, Off)

  /** A stage nothing has happened to. */
  function Initial(configured: Patterns): Stage {
    BLANK.(configured := configured)
  }

  /** `process_frame_result`, as far as staged input goes. */
  function Finished(s: Stage, requests: nat, frames: nat): Stage {
    s.(inFlight := if s.inFlight >= requests then s.inFlight - requests else 0,
       timeline := Committed(s.timeline, frames))
  }

  // ---------------------------------------------------------------- the object

  predicate AllBounded(log: seq<Entry<AutofireState>>) {
    forall i :: 0 <= i < |log| && log[i].state.Some? ==> Bounded(log[i].state.value)
  }

  class InputStage {
    const replay: ReplayTimeline<AutofireState>
    var configured: Patterns
    var rearm: bool
    var legacyReleased: bool
    var released: Flags
    var observed: Masks
    var observedLegacy: bool
    var inFlight: nat
    var owner: Owner
    var preview: Option<AutofireState>
    var capture: Capture

    ghost function View(): Stage
      reads this, replay
    {
      Stage(replay.View(), configured, rearm, legacyReleased, released, observed, observedLegacy, inFlight,
            owner, preview, capture)
    }

    /** One batch at most is queued at a time, and never an empty one. */
    ghost predicate Valid()
      reads this, replay
    {
      && replay.Valid() && |replay.pending| <= 1 && NoEmpty(replay.pending)
      && ValidPatterns(configured) && Bounded(replay.state) && AllBounded(Flat(replay.pending))
    }

    constructor (configured: Patterns)
      requires ValidPatterns(configured)
      ensures Valid() && fresh(replay)
      ensures View() == Initial(configured)
    {
      this.configured := configured;
      rearm, legacyReleased, released := false, false, NONE_RELEASED;
      observed, observedLegacy, inFlight, owner, preview, capture := [0, 0, 0, 0, 0], false, 0, Gameplay, None, Off;
      replay := new ReplayTimeline(AT_REST);
      new;
      AtRestBounded();
    }

    method SyncEffectiveInput(patterns: Patterns, otherChange: bool)
      requires Valid() && ValidPatterns(patterns)
      modifies this
      ensures Valid() && View() == Synced(old(View()), patterns, otherChange)
    {
      if otherChange || patterns != configured {
        rearm := true;
      }
      configured := patterns;
    }

    method ObserveTransitions(buttons: Masks, legacyHeld: bool)
      requires Valid()
      modifies this
      ensures Valid() && View() == Observed(old(View()), buttons, legacyHeld)
    {
      if observedLegacy && !legacyHeld {
        legacyReleased := true;
      }
      var flags := MarkReleased(configured, observed, buttons, released);
      released, observed, observedLegacy := flags, buttons, legacyHeld;
    }

    method ReleasedState() returns (state: AutofireState)
      requires Valid()
      ensures state == LetGo(replay.state, legacyReleased, released) && Bounded(state)
    {
      var phases := replay.state.configured;
      ghost var want := LetGo(replay.state, legacyReleased, released).configured;
      for p := 0 to PLAYERS
        invariant forall q :: 0 <= q < p ==> phases[q] == want[q]
        invariant forall q :: p <= q < PLAYERS ==> phases[q] == replay.state.configured[q]
      {
        var row := phases[p];
        for a := 0 to ACTIONS
          invariant forall b :: 0 <= b < a ==> row[b] == want[p][b]
          invariant forall b :: a <= b < ACTIONS ==> row[b] == replay.state.configured[p][b]
        {
          if released[p][a] {
            row := row[a := 0];
          }
        }
        assert row == want[p];
        phases := phases[p := row];
      }
      assert phases == want;
      state := AutofireState(if legacyReleased then 0 else replay.state.legacyPhase, phases);
    }

    method ConsumeRearmIfIdle()
      requires Valid()
      modifies this, replay`state
      ensures Valid() && View() == Rearmed(old(View())) && configured == old(configured)
      ensures replay.pending == old(replay.pending)
    {
      EmptyLog(replay.pending);
      if (rearm || legacyReleased || AnyReleased(released)) && inFlight == 0 && replay.pending == []
         && preview.None? && !owner.LiveFrame? {
        if rearm {
          replay.state := AT_REST;
        } else {
          replay.state := ReleasedState();
        }
        rearm, legacyReleased, released := false, false, NONE_RELEASED;
      }
    }

    /** `prepare_replay_joypad_batch`: the frames to hand to the emulator, if input is staged at all. */
    method PrepareReplayJoypadBatch(r: Request) returns (frames: Option<seq<Frame>>)
      requires Valid()
      modifies this, replay
      ensures Valid() && View() == Prepared(old(View()), r)
      ensures frames == Handed(View(), r)
    {
      EmptyLog(replay.pending);
      if r.n == 0 {
        return None;
      }
      if replay.pending != [] {
        OneBatch(replay.pending, r);
        return Some(replay.pending[0].frames[..Min(r.n, |replay.pending[0].frames|)]);
      }
      if replay.player.Some? {
        frames := StageReplay(r);
        return;
      }
      ConsumeRearmIfIdle();
      frames := StageLive(r);
    }

    method StageReplay(r: Request) returns (frames: Option<seq<Frame>>)
      requires Valid() && replay.pending == [] && replay.player.Some? && r.n > 0
      modifies replay
      ensures Valid() && frames == Handed(View(), r)
      ensures View() == old(View()).(timeline := PlaybackStaged(old(View()).timeline, Min(r.n, r.untilEvent)))
    {
      var staged := replay.StagePlayback(Min(r.n, r.untilEvent));
      EmptyLog(replay.pending);
      if staged == [] {
        return None;
      }
      OneBatch(replay.pending, r);
      assert staged[..|staged|] == staged;
      frames := Some(staged);
    }

    method StageLive(r: Request) returns (frames: Option<seq<Frame>>)
      requires Valid() && replay.pending == [] && r.n > 0
      modifies replay
      ensures Valid() && View() == PreparedLive(old(View()), r) && frames == Handed(View(), r)
    {
      var input := FrameInput(r.legacyHeld, configured, r.buttons);
      if capture.Starting? || capture.On? || NeedsStaging(input) {
        var batch := BuildBatch(r);
        LiveBounded(replay.state, input, r.n, r.others, capture.Starting? || capture.On?);
        OneBatchLog(replay.pending, batch);
        replay.StageBatch(batch);
        EmptyLog(replay.pending);
        OneBatch(replay.pending, r);
        assert batch.frames[..r.n] == batch.frames;
        return Some(batch.frames);
      }
      replay.state := ResetReleased(replay.state, r.legacyHeld, configured, r.buttons);
      EmptyLog(replay.pending);
      frames := None;
    }

    method BuildBatch(r: Request) returns (batch: Batch<AutofireState>)
      requires Valid()
      ensures batch == LiveBatch(State(View()), InputOf(View(), r), r.n, r.others, Recording(View()))
    {
      var input := FrameInput(r.legacyHeld, configured, r.buttons);
      var outputs, states := Preview(replay.state, r.legacyHeld, configured, seq(r.n, _ => r.buttons));
      assert Frames(r.legacyHeld, configured, seq(r.n, _ => r.buttons)) == Repeated(input, r.n);
      var frames := seq(r.n, i requires 0 <= i < r.n => Frame(outputs[i], r.others));
      var keep := NeedsStaging(input) || HasConfigured(configured) || replay.state.legacyPhase != 0;
      batch := Batch(frames, capture.Starting? || capture.On?, false, if keep then states else []);
    }

    /** A result from the emulator: requests answered, staged frames that really ran. */
    method FinishFrames(requests: nat, frames: nat)
      requires Valid()
      modifies this, replay
      ensures Valid() && View() == Finished(old(View()), requests, frames)
    {
      inFlight := if inFlight >= requests then inFlight - requests else 0;
      InstalledBounded(replay.View(), frames);
      replay.CommitReplayBatch(frames);
    }
  }

  method MarkReleased(configured: Patterns, observed: Masks, buttons: Masks, released: Flags) returns (flags: Flags)
    ensures flags == Let(configured, observed, buttons, released)
  {
    flags := released;
    for p := 0 to PLAYERS
      invariant forall q :: 0 <= q < p ==> flags[q] == LetRow(configured[q], observed[q], buttons[q], released[q])
      invariant forall q :: p <= q < PLAYERS ==> flags[q] == released[q]
    {
      var row := MarkRow(configured[p], observed[p], buttons[p], flags[p]);
      flags := flags[p := row];
    }
  }

  method MarkRow(patterns: PatternRow, before: bv8, now: bv8, released: FlagRow) returns (row: FlagRow)
    ensures row == LetRow(patterns, before, now, released)
  {
    row := released;
    for a := 0 to ACTIONS
      invariant forall b :: 0 <= b < a ==> row[b] == LetRow(patterns, before, now, released)[b]
      invariant forall b :: a <= b < ACTIONS ==> row[b] == released[b]
    {
      if patterns[a].Some? && Held(before, a) && !Held(now, a) {
        row := row[a := true];
      }
    }
  }

  lemma EmptyLog(pending: seq<Batch<AutofireState>>)
    requires NoEmpty(pending)
    ensures Flat(pending) == [] <==> pending == []
  {
    if pending != [] {
      assert |Flat(pending)| >= |pending[0].frames|;
    }
  }

  lemma OneBatch(pending: seq<Batch<AutofireState>>, r: Request)
    requires |pending| == 1 && pending[0].frames != []
    ensures var frames := pending[0].frames;
            FramesOf(Flat(pending)[..Min(r.n, |frames|)]) == frames[..Min(r.n, |frames|)] && |Flat(pending)| == |frames|
  {
    assert Flat(pending) == Entries(pending[0]);
  }

  lemma OneBatchLog(pending: seq<Batch<AutofireState>>, batch: Batch<AutofireState>)
    requires pending == []
    ensures Flat(pending + [batch]) == Entries(batch)
  {
    assert [] + [batch] == [batch] && [batch][1..] == [];
    assert Entries(batch) + [] == Entries(batch);
  }

  /** Every state that travels with a live batch keeps its phases below the longest period. */
  lemma LiveBounded(state: AutofireState, input: FrameInput, n: nat, others: nat, record: bool)
    requires ValidInput(input) && Bounded(state)
    ensures AllBounded(Entries(LiveBatch(state, input, n, others, record)))
  {
    var inputs := Repeated(input, n);
    forall i | 0 <= i < n
      ensures Bounded(PreviewStates(state, inputs)[i])
    {
      PhasesNeverOverflow(state, inputs[..i + 1]);
    }
  }

  lemma AtRestBounded()
    ensures Bounded(AT_REST)
  {
  }

  lemma {:induction false} InstalledIsFromLog(log: seq<Entry<AutofireState>>)
    ensures EffectOf(log).state.Some? ==> exists i :: 0 <= i < |log| && log[i].state == EffectOf(log).state
  {
    if log != [] {
      InstalledIsFromLog(log[1..]);
      if EffectOf(log[1..]).state.Some? {
        var i :| 0 <= i < |log[1..]| && log[1..][i].state == EffectOf(log[1..]).state;
        assert log[i + 1].state == EffectOf(log).state;
      } else {
        assert EffectOf(log).state == log[0].state;
      }
    }
  }

  lemma InstalledBounded(t: Timeline<AutofireState>, n: nat)
    requires AllBounded(t.log) && Bounded(t.host.state)
    ensures Bounded(Committed(t, n).host.state)
  {
    var piece := t.log[..Min(n, |t.log|)];
    InstalledIsFromLog(piece);
  }
}
