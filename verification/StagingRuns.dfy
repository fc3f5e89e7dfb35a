/**
 Runs of the staging machine beside a reference that executes one frame at a time: speculation, the states
 left out of a batch, and resets from outside never make the two disagree.
 */
module StagingRuns {
  import opened Common
  import opened Autofire
  import opened ReplayCommit
  import opened SpeculativeAutofire
  import opened InputStaging

  // ---------------------------------------------------------------- sessions

  /**
   The stage, the inputs of the staged live frames in order, the autofire state reached by really applying each
   committed frame to the one before, and the input of the live TAS frame in flight.
   */
  datatype Session = Session(stage: Stage, inputs: seq<FrameInput>, actual: AutofireState, tasInput: Option<FrameInput>)

  datatype Event =
    | Sync(patterns: Patterns, otherChange: bool)
    | Observe(buttons: Masks, legacyHeld: bool)
    | Tick(request: Request, sent: bool)
    | FrameDone(requests: nat, frames: nat)
    | DropStaged
    | PlayReplay(player: Player)
    | StopReplay
    | AskRecording
    | StartRecording
    | StopRecording
    | SaveRecording
    | SavedRecording
    | Reply
    | TasTake
    | TasFrame(legacyHeld: bool, buttons: Masks, accepted: bool)
    | TasReply(committed: bool)
    | TasCancel
    | TasReturn
    | Retire

  function Start(configured: Patterns): Session {
    Session(Initial(configured), [], AT_REST, None)
  }

  /** One request in flight while anything is recorded, played or staged, or autofire may change the input. */
  function InFlightLimit(s: Stage, r: Request): nat {
    if Recording(s) || s.timeline.host.player.Some? || s.timeline.log != [] || NeedsStaging(InputOf(s, r))
    then 1 else MAX_IN_FLIGHT
  }

  /** What the frontend's own guards allow. */
  predicate Allowed(s: Stage, e: Event) {
    match e
    case Sync(patterns, _) => ValidPatterns(patterns)
    case Tick(r, _) => s.owner.Gameplay? && !s.capture.Starting? && s.inFlight < InFlightLimit(s, r)
    case FrameDone(_, _) => true
    case TasTake => s.owner.Gameplay? && s.inFlight == 0 && NoReplay(s)
    case TasFrame(_, _, _) => s.owner.Lease?
    case TasReply(_) => s.owner.LiveFrame?
    case TasCancel => s.owner.Lease? || s.owner.LiveFrame?
    case TasReturn => s.owner.Returning?
    case Observe(_, _) => true
    case DropStaged => true
    case PlayReplay(_) => true
    case StopReplay => true
    case AskRecording => s.owner.Gameplay? && s.capture.Off? && s.timeline.host.player.None?
    case StartRecording => s.capture.Starting?
    case StopRecording => s.capture.Starting? || s.capture.On?
    case SaveRecording => s.capture.Finalizing?
    case SavedRecording => s.capture.Saving?
    case Reply => true
    case Retire => true
  }

  /** No replay is recorded, played or still staged. */
  predicate NoReplay(s: Stage) {
    && s.capture.Off? && s.timeline.host.player.None?
    && forall i :: 0 <= i < |s.timeline.log| ==> !s.timeline.log[i].record && !s.timeline.log[i].playback
  }

  function WithHost(s: Stage, host: Host<AutofireState>): Stage {
    s.(timeline := s.timeline.(host := host))
  }

  function WithRecorder(s: Stage, recorder: Option<seq<Frame>>): Stage {
    WithHost(s, s.timeline.host.(recorder := recorder))
  }

  function Cleared(s: Stage): Stage {
    s.(timeline := Timeline([], s.timeline.host.(queued := 0)))
  }

  /** Any reply from the worker drops the preview of a live TAS frame that is no longer out. */
  function Answered(s: Stage): Stage {
    if s.owner.LiveFrame? then s else s.(preview := None)
  }

  /** A live TAS frame: its autofire state waits for the commit, or the phases are reset at once. */
  function TasFramed(s: Stage, input: FrameInput, accepted: bool): Stage
    requires ValidInput(input)
  {
    var t := if NeedsStaging(input) then s else WithState(s, Reset(State(s), input));
    var preview := if NeedsStaging(input) then Some(NextState(State(s), input)) else None;
    if accepted then t.(owner := LiveFrame, preview := preview) else t
  }

  function NextStage(s: Stage, e: Event): Stage
    requires ValidPatterns(s.configured)
  {
    match e
    case Sync(patterns, otherChange) => Synced(s, patterns, otherChange)
    case Observe(buttons, legacyHeld) => Observed(s, buttons, legacyHeld)
    case Tick(r, sent) => var t := Prepared(s, r); t.(inFlight := t.inFlight + if sent then 1 else 0)
    case FrameDone(requests, frames) => Finished(s, requests, frames)
    case DropStaged => Cleared(s)
    case PlayReplay(player) => var t := Cleared(s); WithHost(t, t.timeline.host.(player := Advanced(Some(player), 0)))
    case StopReplay => var t := Cleared(s); WithHost(t, t.timeline.host.(player := None))
    case AskRecording => s.(capture := Starting)
    case StartRecording => WithRecorder(Cleared(Answered(s)), Some([])).(capture := On)
    case StopRecording => s.(capture := if s.capture.On? then Finalizing else Off)
    case SaveRecording => WithRecorder(Cleared(s), None).(capture := Saving)
    case SavedRecording => s.(capture := Off)
    case Reply => Answered(s)
    case TasTake => s.(owner := Lease, preview := None)
    case TasFrame(legacyHeld, buttons, accepted) =>
      var t := Rearmed(s); TasFramed(t, FrameInput(legacyHeld, t.configured, buttons), accepted)
    case TasReply(committed) =>
      var t := if committed && s.preview.Some? then WithState(s, s.preview.value) else s;
      t.(owner := Lease, preview := None)
    case TasCancel => s.(owner := Returning)
    case TasReturn => s.(owner := Gameplay, preview := None)
    case Retire => s.(owner := Gameplay, inFlight := 0)
  }

  /** The live inputs still staged after an event. */
  function NextInputs(x: Session, e: Event): seq<FrameInput>
    requires ValidPatterns(x.stage.configured)
  {
    match e
    case Tick(r, _) =>
      var t := NextStage(x.stage, e);
      if x.stage.timeline.log == [] && t.timeline.log != [] && x.stage.timeline.host.player.None?
      then Repeated(InputOf(x.stage, r), r.n) else x.inputs
    case FrameDone(_, frames) => x.inputs[Min(frames, |x.inputs|)..]
    case DropStaged => []
    case PlayReplay(_) => []
    case StopReplay => []
    case StartRecording => []
    case SaveRecording => []
    case _ => x.inputs
  }

  /** Frame by frame: committed live frames are applied, resets from outside and unstaged frames act at once. */
  function NextActual(x: Session, e: Event): AutofireState
    requires ValidPatterns(x.stage.configured) && ValidInputs(x.inputs)
            && (x.tasInput.Some? ==> ValidInput(x.tasInput.value))
  {
    match e
    case Tick(r, _) =>
      if r.n == 0 || x.stage.timeline.log != [] || x.stage.timeline.host.player.Some? then x.actual
      else
        var state := State(Rearmed(WithState(x.stage, x.actual)));
        if Recording(x.stage) || NeedsStaging(InputOf(x.stage, r)) then state else Reset(state, InputOf(x.stage, r))
    case FrameDone(_, frames) => After(x.actual, x.inputs[..Min(frames, |x.inputs|)])
    case TasFrame(legacyHeld, buttons, _) =>
      var input := FrameInput(legacyHeld, x.stage.configured, buttons);
      var state := State(Rearmed(WithState(x.stage, x.actual)));
      if NeedsStaging(input) then state else Reset(state, input)
    case TasReply(committed) =>
      if committed && x.tasInput.Some? then NextState(x.actual, x.tasInput.value) else x.actual
    case _ => x.actual
  }

  function NextTasInput(x: Session, e: Event): Option<FrameInput> {
    match e
    case TasFrame(legacyHeld, buttons, accepted) =>
      var input := FrameInput(legacyHeld, x.stage.configured, buttons);
      if accepted && NeedsStaging(input) then Some(input) else None
    case TasReply(_) => None
    case _ => x.tasInput
  }

  predicate WellFormed(x: Session) {
    && ValidPatterns(x.stage.configured) && ValidInputs(x.inputs)
    && (x.tasInput.Some? ==> ValidInput(x.tasInput.value))
  }

  /** One event; what the guards refuse changes nothing. */
  function Next(x: Session, e: Event): Session {
    if WellFormed(x) && Allowed(x.stage, e)
    then Session(NextStage(x.stage, e), NextInputs(x, e), NextActual(x, e), NextTasInput(x, e))
    else x
  }

  function Run(configured: Patterns, es: seq<Event>): Session {
    if es == [] then Start(configured) else Next(Run(configured, es[..|es| - 1]), es[|es| - 1])
  }

  // ---------------------------------------------------------------- leftover phases mean a pending reset

  /** No phase is left where no pattern is set. */
  predicate Fits(state: AutofireState, configured: Patterns) {
    forall p, a :: 0 <= p < PLAYERS && 0 <= a < ACTIONS && configured[p][a].None? ==> state.configured[p][a] == 0
  }

  predicate Covered(s: Stage, state: AutofireState) {
    Bounded(state) && (s.rearm || Fits(state, s.configured))
  }

  predicate LogCovered(s: Stage, log: seq<Entry<AutofireState>>) {
    forall i :: 0 <= i < |log| && log[i].state.Some? ==> Covered(s, log[i].state.value)
  }

  /** Whatever state is or may be installed fits the configuration, or a reset is pending. */
  predicate Sound(s: Stage) {
    && ValidPatterns(s.configured) && Consistent(s.timeline)
    && Covered(s, State(s)) && LogCovered(s, s.timeline.log) && (s.preview.Some? ==> Covered(s, s.preview.value))
  }

  lemma NextStateFits(state: AutofireState, input: FrameInput)
    requires ValidInput(input)
    ensures Bounded(NextState(state, input)) && Fits(NextState(state, input), input.configured)
  {
  }

  lemma ResetFits(state: AutofireState, input: FrameInput)
    requires Bounded(state)
    ensures Bounded(Reset(state, input)) && Fits(Reset(state, input), input.configured)
  {
  }

  lemma LetGoFits(state: AutofireState, legacyReleased: bool, released: Flags, configured: Patterns)
    requires Bounded(state)
    ensures Bounded(LetGo(state, legacyReleased, released))
    ensures Fits(state, configured) ==> Fits(LetGo(state, legacyReleased, released), configured)
  {
  }

  lemma RearmedSound(s: Stage)
    requires Sound(s)
    ensures Sound(Rearmed(s)) && (Idle(s) ==> Fits(State(Rearmed(s)), s.configured))
  {
    LetGoFits(State(s), s.legacyReleased, s.released, s.configured);
  }

  lemma LiveCovered(state: AutofireState, input: FrameInput, n: nat, others: nat, record: bool)
    requires ValidInput(input)
    ensures var log := Entries(LiveBatch(state, input, n, others, record));
            forall i :: 0 <= i < |log| && log[i].state.Some?
                        ==> Bounded(log[i].state.value) && Fits(log[i].state.value, input.configured)
  {
    var batch := LiveBatch(state, input, n, others, record);
    forall i | 0 <= i < |batch.states|
      ensures Bounded(batch.states[i]) && Fits(batch.states[i], input.configured)
    {
      AfterOneMore(state, Repeated(input, n), i);
      NextStateFits(After(state, Repeated(input, n)[..i]), input);
    }
  }

  lemma PreparedLiveSound(t: Stage, r: Request)
    requires Sound(t) && t.timeline.log == []
    ensures Sound(PreparedLive(t, r))
  {
    var input := InputOf(t, r);
    if Recording(t) || NeedsStaging(input) {
      var batch := LiveBatch(State(t), input, r.n, r.others, Recording(t));
      QueuedConsistent(t.timeline, batch);
      LiveCovered(State(t), input, r.n, r.others, Recording(t));
      assert [] + Entries(batch) == Entries(batch);
    } else {
      ResetFits(State(t), input);
    }
  }

  lemma PlaybackSound(s: Stage, n: nat)
    requires Sound(s) && s.timeline.host.player.Some? && s.timeline.log == []
    ensures Sound(s.(timeline := PlaybackStaged(s.timeline, n)))
  {
    var frames := Peek(s.timeline.host.player.value, s.timeline.host.queued, n);
    if frames != [] {
      QueuedConsistent(s.timeline, PlaybackBatch(frames));
      assert [] + Entries(PlaybackBatch<AutofireState>(frames)) == Entries(PlaybackBatch(frames));
    }
  }

  lemma PreparedSound(s: Stage, r: Request)
    requires Sound(s)
    ensures Sound(Prepared(s, r))
  {
    if r.n > 0 && s.timeline.log == [] {
      if s.timeline.host.player.Some? {
        PlaybackSound(s, Min(r.n, r.untilEvent));
      } else {
        RearmedSound(s);
        PreparedLiveSound(Rearmed(s), r);
      }
    }
  }

  lemma FinishedSound(s: Stage, requests: nat, frames: nat)
    requires Sound(s)
    ensures Sound(Finished(s, requests, frames))
  {
    PieceThenRest(s.timeline, frames, 0, Committed(s.timeline, frames));
    CommittedCovered(s, frames);
  }

  lemma CommittedCovered(s: Stage, frames: nat)
    requires Covered(s, State(s)) && LogCovered(s, s.timeline.log)
    ensures var t := Committed(s.timeline, frames); Covered(s, t.host.state) && LogCovered(s, t.log)
  {
    var k := Min(frames, |s.timeline.log|);
    InstalledIsFromLog(s.timeline.log[..k]);
    SuffixCovered(s, s.timeline.log, k);
  }

  lemma SuffixCovered(s: Stage, log: seq<Entry<AutofireState>>, k: nat)
    requires k <= |log| && LogCovered(s, log)
    ensures LogCovered(s, log[k..])
  {
    assert forall i :: 0 <= i < |log[k..]| ==> log[k..][i] == log[k + i];
  }

  lemma TasFramedSound(s: Stage, input: FrameInput, accepted: bool)
    requires Sound(s) && input.configured == s.configured
    ensures Sound(TasFramed(s, input, accepted))
  {
    ResetFits(State(s), input);
    NextStateFits(State(s), input);
  }

  lemma ClearedSound(s: Stage)
    requires Sound(s)
    ensures Sound(Cleared(s))
  {
  }

  lemma RecorderSound(s: Stage, recorder: Option<seq<Frame>>, capture: Capture)
    requires Sound(s)
    ensures Sound(WithRecorder(s, recorder).(capture := capture))
  {
  }

  lemma PlayerSound(s: Stage, player: Option<Player>)
    requires Sound(s) && s.timeline.log == []
    ensures Sound(WithHost(s, s.timeline.host.(player := if player.Some? then Advanced(player, 0) else None)))
  {
  }

  lemma SyncedSound(s: Stage, patterns: Patterns, otherChange: bool)
    requires Sound(s) && ValidPatterns(patterns)
    ensures Sound(Synced(s, patterns, otherChange))
  {
  }

  lemma StepSound(s: Stage, e: Event)
    requires Sound(s) && Allowed(s, e)
    ensures Sound(NextStage(s, e))
  {
    match e
    case Sync(patterns, otherChange) => SyncedSound(s, patterns, otherChange);
    case Tick(r, _) => PreparedSound(s, r);
    case FrameDone(requests, frames) => FinishedSound(s, requests, frames);
    case TasFrame(legacyHeld, buttons, accepted) =>
      RearmedSound(s);
      TasFramedSound(Rearmed(s), FrameInput(legacyHeld, s.configured, buttons), accepted);
    case DropStaged => ClearedSound(s);
    case PlayReplay(player) => ClearedSound(s); PlayerSound(Cleared(s), Some(player));
    case StopReplay => ClearedSound(s); PlayerSound(Cleared(s), None);
    case StartRecording => ClearedSound(Answered(s)); RecorderSound(Cleared(Answered(s)), Some([]), On);
    case SaveRecording => ClearedSound(s); RecorderSound(Cleared(s), None, Saving);
    case _ => ControlSound(s, e);
  }

  lemma ControlSound(s: Stage, e: Event)
    requires Sound(s) && Allowed(s, e)
    requires !Clears(e) && !e.Sync? && !e.Tick? && !e.FrameDone? && !e.TasFrame?
    ensures Sound(NextStage(s, e))
  {
  }

  /**
   In every run, a phase whose pattern is unset means that a reset is pending, in the installed state and in every
   state that a staged batch or a live TAS frame may still install; and no phase overflows.
   */
  lemma {:induction false} LeftoverMeansRearm(configured: Patterns, es: seq<Event>)
    requires ValidPatterns(configured)
    ensures Sound(Run(configured, es).stage)
  {
    if es == [] {
      AtRestBounded();
    } else {
      LeftoverMeansRearm(configured, es[..|es| - 1]);
      var x, e := Run(configured, es[..|es| - 1]), es[|es| - 1];
      if Allowed(x.stage, e) {
        StepSound(x.stage, e);
      }
    }
  }

  // ---------------------------------------------------------------- staged batches mirror execution

  /** The state after committing a stretch of log. */
  function StateAfterCommit(state: AutofireState, log: seq<Entry<AutofireState>>): AutofireState {
    var e := EffectOf(log);
    if e.state.Some? then e.state.value else state
  }

  predicate NoStates(log: seq<Entry<AutofireState>>) {
    forall i :: 0 <= i < |log| ==> log[i].state.None?
  }

  /** Frame `i` of the log carries the buttons that execution from `state` gives it. */
  predicate ButtonsMirror(state: AutofireState, log: seq<Entry<AutofireState>>, inputs: seq<FrameInput>)
    requires ValidInputs(inputs) && |log| == |inputs|
  {
    forall i :: 0 <= i < |log| ==> log[i].frame.buttons == OutputAt(state, inputs, i)
  }

  /** Committing any prefix of the log installs the state that execution reaches. */
  predicate StatesMirror(state: AutofireState, log: seq<Entry<AutofireState>>, inputs: seq<FrameInput>)
    requires ValidInputs(inputs) && |log| == |inputs|
  {
    forall k :: 0 <= k <= |log| ==> StateAfterCommit(state, log[..k]) == After(state, inputs[..k])
  }

  predicate Mirrors(state: AutofireState, log: seq<Entry<AutofireState>>, inputs: seq<FrameInput>) {
    && ValidInputs(inputs)
    && if inputs == [] then NoStates(log)
       else |log| == |inputs| && StatesMirror(state, log, inputs) && ButtonsMirror(state, log, inputs)
  }

  lemma {:induction false} NoStatesEffect(log: seq<Entry<AutofireState>>)
    requires NoStates(log)
    ensures EffectOf(log).state.None?
  {
    if log != [] {
      NoStatesEffect(log[1..]);
    }
  }

  lemma InstalledTwice(state: AutofireState, first: seq<Entry<AutofireState>>, second: seq<Entry<AutofireState>>)
    ensures StateAfterCommit(state, first + second) == StateAfterCommit(StateAfterCommit(state, first), second)
  {
    EffectConcat(first, second);
  }

  lemma AfterPrefix(state: AutofireState, inputs: seq<FrameInput>, k: nat, j: nat)
    requires ValidInputs(inputs) && k + j <= |inputs|
    ensures ValidInputs(inputs[..k]) && ValidInputs(inputs[k..])
    ensures After(state, inputs[..k + j]) == After(After(state, inputs[..k]), inputs[k..][..j])
  {
    assert inputs[..k + j] == inputs[..k] + inputs[k..][..j];
    AfterSplit(state, inputs[..k], inputs[k..][..j]);
  }

  /** What is left after a commit mirrors execution from where the commit got to. */
  lemma MirrorAfterCommit(state: AutofireState, log: seq<Entry<AutofireState>>, inputs: seq<FrameInput>, k: nat)
    requires Mirrors(state, log, inputs) && inputs != [] && k <= |log|
    ensures StateAfterCommit(state, log[..k]) == After(state, inputs[..k])
    ensures Mirrors(After(state, inputs[..k]), log[k..], inputs[k..])
  {
    var at, rest, left := After(state, inputs[..k]), log[k..], inputs[k..];
    assert StateAfterCommit(state, log[..k]) == at;
    forall j | 0 <= j <= |rest|
      ensures StateAfterCommit(at, rest[..j]) == After(at, left[..j])
    {
      assert log[..k + j] == log[..k] + rest[..j];
      InstalledTwice(state, log[..k], rest[..j]);
      AfterPrefix(state, inputs, k, j);
    }
    forall i | 0 <= i < |rest|
      ensures rest[i].frame.buttons == OutputAt(at, left, i)
    {
      AfterPrefix(state, inputs, k, i);
      assert rest[i] == log[k + i] && left[i] == inputs[k + i];
    }
  }

  lemma ButtonsOfLive(state: AutofireState, input: FrameInput, n: nat, others: nat, record: bool)
    requires ValidInput(input)
    ensures ButtonsMirror(state, Entries(LiveBatch(state, input, n, others, record)), Repeated(input, n))
  {
  }

  lemma InstalledByBatch(state: AutofireState, batch: Batch<AutofireState>, k: nat)
    requires batch.IsValid() && k <= |batch.frames|
    ensures StateAfterCommit(state, Entries(batch)[..k])
            == if 0 < k <= |batch.states| then batch.states[k - 1] else state
  {
    BatchPrefix(batch, k);
  }

  lemma KeptMirrors(state: AutofireState, input: FrameInput, n: nat, others: nat, record: bool)
    requires ValidInput(input) && n > 0 && KeepsStates(state, input)
    ensures Mirrors(state, Entries(LiveBatch(state, input, n, others, record)), Repeated(input, n))
  {
    var batch, inputs := LiveBatch(state, input, n, others, record), Repeated(input, n);
    forall k | 0 <= k <= n
      ensures StateAfterCommit(state, Entries(batch)[..k]) == After(state, inputs[..k])
    {
      InstalledByBatch(state, batch, k);
      assert k > 0 ==> batch.states[k - 1] == After(state, inputs[..k]);
    }
    ButtonsOfLive(state, input, n, others, record);
  }

  lemma PrefixOfRepeated(input: FrameInput, n: nat, k: nat)
    requires k <= n
    ensures Repeated(input, n)[..k] == seq(k, _ => input)
  {
  }

  /** A batch without states mirrors execution if and only if the phases are already at rest. */
  lemma ElidedMirrorsIff(state: AutofireState, input: FrameInput, n: nat, others: nat, record: bool)
    requires ValidInput(input) && n > 0 && !KeepsStates(state, input)
    ensures Mirrors(state, Entries(LiveBatch(state, input, n, others, record)), Repeated(input, n)) <==> AllIdle(state)
  {
    var batch, inputs := LiveBatch(state, input, n, others, record), Repeated(input, n);
    assert StatesElided(state, input);
    forall k | 0 < k <= n
      ensures StateAfterCommit(state, Entries(batch)[..k]) == state
      ensures After(state, inputs[..k]) == state <==> AllIdle(state)
    {
      InstalledByBatch(state, batch, k);
      PrefixOfRepeated(input, n, k);
      ElisionExactIff(state, input, k);
    }
    InstalledByBatch(state, batch, 0);
    ButtonsOfLive(state, input, n, others, record);
    assert StatesMirror(state, Entries(batch), inputs)
        ==> StateAfterCommit(state, Entries(batch)[..1]) == After(state, inputs[..1]);
  }

  /**
   From the request to the last write the player is in control, and no live TAS frame is left behind when it records.
   */
  predicate RecordsAlone(s: Stage) {
    (!s.capture.Off? ==> s.owner.Gameplay?) && (s.capture.On? ==> s.preview.None?)
  }

  /** A reset from outside touches the state and the pending flags only. */
  lemma RearmedKeeps(s: Stage)
    ensures var t := Rearmed(s);
            && t.timeline.log == s.timeline.log && t.configured == s.configured && t.inFlight == s.inFlight
            && t.owner == s.owner && t.preview == s.preview && t.capture == s.capture
            && t.timeline.host == s.timeline.host.(state := State(t))
            && (s.timeline.log != [] ==> t == s)
  {
  }

  /** What a tick with live input stages. */
  lemma PreparedLog(s: Stage, r: Request)
    requires ValidPatterns(s.configured) && r.n > 0 && s.timeline.log == [] && s.timeline.host.player.None?
    ensures var t, input, state := Prepared(s, r), InputOf(s, r), State(Rearmed(s));
            && t.timeline.host.player.None? && NoPlayback(t.timeline.log)
            && State(t) == (if Recording(s) || NeedsStaging(input) then state else Reset(state, input))
            && t.timeline.log == if Recording(s) || NeedsStaging(input)
                                 then Entries(LiveBatch(state, input, r.n, r.others, Recording(s))) else []
  {
    RearmedKeeps(s);
    LiveLog(Rearmed(s), r);
  }

  lemma LiveLog(t: Stage, r: Request)
    requires ValidPatterns(t.configured) && t.timeline.log == [] && t.timeline.host.player.None?
    ensures var u, input := PreparedLive(t, r), InputOf(t, r);
            && u.timeline.host.player.None? && NoPlayback(u.timeline.log)
            && State(u) == (if Recording(t) || NeedsStaging(input) then State(t) else Reset(State(t), input))
            && u.timeline.log == if Recording(t) || NeedsStaging(input)
                                 then Entries(LiveBatch(State(t), input, r.n, r.others, Recording(t))) else []
  {
    var log := Entries(LiveBatch(State(t), InputOf(t, r), r.n, r.others, Recording(t)));
    assert [] + log == log;
  }

  /** Staging and committing change neither who is in control nor the configuration, nor start a recording. */
  predicate SameControl(s: Stage, t: Stage) {
    t.owner == s.owner && t.preview == s.preview && t.configured == s.configured && t.capture == s.capture
  }

  lemma PreparedKeeps(s: Stage, r: Request)
    requires ValidPatterns(s.configured)
    ensures SameControl(s, Prepared(s, r))
  {
    RearmedKeeps(s);
  }

  lemma FinishedKeeps(s: Stage, requests: nat, frames: nat)
    ensures SameControl(s, Finished(s, requests, frames))
  {
  }

  lemma StepRecordsAlone(s: Stage, e: Event)
    requires ValidPatterns(s.configured) && RecordsAlone(s) && Allowed(s, e)
    ensures RecordsAlone(NextStage(s, e))
  {
    if e.Tick? {
      PreparedKeeps(s, e.request);
    } else if e.FrameDone? {
      FinishedKeeps(s, e.requests, e.frames);
    } else if e.TasFrame? {
      RearmedKeeps(s);
    }
  }

  lemma {:induction false} RunRecordsAlone(configured: Patterns, es: seq<Event>)
    requires ValidPatterns(configured)
    ensures RecordsAlone(Run(configured, es).stage)
  {
    if es != [] {
      var x, e := Run(configured, es[..|es| - 1]), es[|es| - 1];
      RunRecordsAlone(configured, es[..|es| - 1]);
      if WellFormed(x) && Allowed(x.stage, e) {
        StepRecordsAlone(x.stage, e);
      }
    }
  }

  /** In every run, a batch that leaves its states out finds the phases at rest: leaving them out is exact. */
  lemma ElidedIsExact(configured: Patterns, es: seq<Event>, r: Request, sent: bool)
    requires ValidPatterns(configured) && r.n > 0
    ensures var s := Run(configured, es).stage;
            Allowed(s, Tick(r, sent)) && Recording(s) && s.timeline.log == []
                && !KeepsStates(State(Rearmed(s)), InputOf(s, r))
            ==> AllIdle(State(Rearmed(s)))
                && Mirrors(State(Rearmed(s)), Entries(LiveBatch(State(Rearmed(s)), InputOf(s, r), r.n, r.others, true)),
                           Repeated(InputOf(s, r), r.n))
  {
    var s := Run(configured, es).stage;
    LeftoverMeansRearm(configured, es);
    RunRecordsAlone(configured, es);
    if Allowed(s, Tick(r, sent)) && Recording(s) && s.timeline.log == []
        && !KeepsStates(State(Rearmed(s)), InputOf(s, r)) {
      RearmedSound(s);
      ElidedMirrorsIff(State(Rearmed(s)), InputOf(s, r), r.n, r.others, true);
    }
  }

  // ---------------------------------------------------------------- every orderly run

  /** A TAS lease is not taken while part of an autofire batch is still to run. */
  predicate Orderly(s: Stage, e: Event) {
    e.TasTake? ==> s.timeline.log == []
  }

  predicate AllOrderly(configured: Patterns, es: seq<Event>) {
    es == [] || (AllOrderly(configured, es[..|es| - 1]) && Orderly(Run(configured, es[..|es| - 1]).stage, es[|es| - 1]))
  }

  /** The staging machine and the reference agree, now and on whatever is still staged or in flight. */
  predicate Faithful(x: Session) {
    && WellFormed(x) && State(x.stage) == x.actual && Mirrors(x.actual, x.stage.timeline.log, x.inputs)
    && RecordsAlone(x.stage)
    && (x.stage.owner.Lease? ==> x.stage.preview.None?)
    && (!x.stage.owner.Gameplay? ==> x.stage.timeline.log == [])
    && (x.stage.owner.LiveFrame? ==>
          x.stage.preview == if x.tasInput.Some? then Some(NextState(x.actual, x.tasInput.value)) else None)
  }

  /** What a tick with live input does to the session. */
  lemma LiveTick(x: Session, r: Request, sent: bool)
    requires WellFormed(x) && State(x.stage) == x.actual && Allowed(x.stage, Tick(r, sent))
    requires r.n > 0 && x.stage.timeline.log == [] && x.stage.timeline.host.player.None?
    ensures var y, input, state := Next(x, Tick(r, sent)), InputOf(x.stage, r), State(Rearmed(x.stage));
            && y.stage.owner == x.stage.owner && y.stage.preview == x.stage.preview && y.tasInput == x.tasInput
            && y.stage.configured == x.stage.configured && State(y.stage) == y.actual
            && y.stage.capture == x.stage.capture
            && if Recording(x.stage) || NeedsStaging(input) then
                 && y.actual == state && y.inputs == Repeated(input, r.n)
                 && y.stage.timeline.log == Entries(LiveBatch(state, input, r.n, r.others, Recording(x.stage)))
               else y.stage.timeline.log == [] && y.inputs == x.inputs
  {
    PreparedKeeps(x.stage, r);
    PreparedLog(x.stage, r);
    LiveHistory(x, r, sent);
  }

  /** The reference and the staged inputs after a tick with live input. */
  lemma LiveHistory(x: Session, r: Request, sent: bool)
    requires WellFormed(x) && State(x.stage) == x.actual
    requires r.n > 0 && x.stage.timeline.log == [] && x.stage.timeline.host.player.None?
    ensures var input, state := InputOf(x.stage, r), State(Rearmed(x.stage));
            if Recording(x.stage) || NeedsStaging(input) then
              NextActual(x, Tick(r, sent)) == state && NextInputs(x, Tick(r, sent)) == Repeated(input, r.n)
            else NextActual(x, Tick(r, sent)) == Reset(state, input) && NextInputs(x, Tick(r, sent)) == x.inputs
  {
    PreparedLog(x.stage, r);
    assert WithState(x.stage, x.actual) == x.stage;
  }

  lemma LiveMirrors(s: Stage, r: Request, sent: bool)
    requires Sound(s) && Allowed(s, Tick(r, sent)) && (Recording(s) ==> TasIdle(s)) && r.n > 0 && s.timeline.log == []
    requires Recording(s) || NeedsStaging(InputOf(s, r))
    ensures var input, state := InputOf(s, r), State(Rearmed(s));
            Mirrors(state, Entries(LiveBatch(state, input, r.n, r.others, Recording(s))), Repeated(input, r.n))
  {
    var input, state := InputOf(s, r), State(Rearmed(s));
    if KeepsStates(state, input) {
      KeptMirrors(state, input, r.n, r.others, Recording(s));
    } else {
      RearmedSound(s);
      assert AllIdle(state);
      ElidedMirrorsIff(state, input, r.n, r.others, Recording(s));
    }
  }

  lemma StageLiveFaithful(x: Session, r: Request, sent: bool)
    requires Faithful(x) && Sound(x.stage) && Allowed(x.stage, Tick(r, sent))
    requires r.n > 0 && x.stage.timeline.log == [] && x.stage.timeline.host.player.None?
    ensures Faithful(Next(x, Tick(r, sent)))
  {
    LiveTick(x, r, sent);
    if Recording(x.stage) || NeedsStaging(InputOf(x.stage, r)) {
      LiveMirrors(x.stage, r, sent);
    }
  }

  lemma StagePlaybackFaithful(x: Session, r: Request, sent: bool)
    requires Faithful(x) && Allowed(x.stage, Tick(r, sent))
    requires r.n > 0 && x.stage.timeline.log == [] && x.stage.timeline.host.player.Some?
    ensures Faithful(Next(x, Tick(r, sent)))
  {
    var host := x.stage.timeline.host;
    var frames := Peek(host.player.value, host.queued, Min(r.n, r.untilEvent));
    assert [] + Entries(PlaybackBatch<AutofireState>(frames)) == Entries(PlaybackBatch(frames));
  }

  lemma TickFaithful(x: Session, r: Request, sent: bool)
    requires Faithful(x) && Sound(x.stage) && Allowed(x.stage, Tick(r, sent))
    ensures Faithful(Next(x, Tick(r, sent)))
  {
    if r.n > 0 && x.stage.timeline.log == [] {
      if x.stage.timeline.host.player.Some? {
        StagePlaybackFaithful(x, r, sent);
      } else {
        StageLiveFaithful(x, r, sent);
      }
    }
  }

  lemma FrameDoneFaithful(x: Session, requests: nat, frames: nat)
    requires Faithful(x) && Allowed(x.stage, FrameDone(requests, frames))
    ensures Faithful(Next(x, FrameDone(requests, frames)))
  {
    var log := x.stage.timeline.log;
    var k := Min(frames, |log|);
    if x.inputs == [] {
      assert NoStates(log[..k]) && NoStates(log[k..]);
      NoStatesEffect(log[..k]);
    } else {
      MirrorAfterCommit(x.actual, log, x.inputs, k);
    }
  }

  /** What a live TAS frame does to the session. */
  lemma TasFrameStep(x: Session, legacyHeld: bool, buttons: Masks, accepted: bool)
    requires WellFormed(x) && State(x.stage) == x.actual && x.stage.owner.Lease? && x.stage.preview.None?
    ensures var y := Next(x, TasFrame(legacyHeld, buttons, accepted));
            var input := FrameInput(legacyHeld, x.stage.configured, buttons);
            var state := State(Rearmed(x.stage));
            && y.actual == (if NeedsStaging(input) then state else Reset(state, input))
            && y.inputs == x.inputs && y.tasInput == (if accepted && NeedsStaging(input) then Some(input) else None)
            && State(y.stage) == y.actual && y.stage.timeline.log == x.stage.timeline.log
            && y.stage.timeline.host == x.stage.timeline.host.(state := y.actual)
            && y.stage.configured == x.stage.configured && y.stage.owner == (if accepted then LiveFrame else Lease)
            && y.stage.capture == x.stage.capture
            && y.stage.preview == (if accepted && NeedsStaging(input) then Some(NextState(y.actual, input)) else None)
  {
    RearmedKeeps(x.stage);
    assert WithState(x.stage, x.actual) == x.stage;
  }

  lemma TasFrameFaithful(x: Session, legacyHeld: bool, buttons: Masks, accepted: bool)
    requires Faithful(x) && x.stage.owner.Lease?
    ensures Faithful(Next(x, TasFrame(legacyHeld, buttons, accepted)))
  {
    TasFrameStep(x, legacyHeld, buttons, accepted);
  }

  lemma StepFaithful(x: Session, e: Event)
    requires Faithful(x) && Sound(x.stage) && Orderly(x.stage, e)
    ensures Faithful(Next(x, e))
  {
    if Allowed(x.stage, e) {
      if e.Tick? {
        TickFaithful(x, e.request, e.sent);
      } else if e.FrameDone? {
        FrameDoneFaithful(x, e.requests, e.frames);
      } else if e.TasFrame? {
        TasFrameFaithful(x, e.legacyHeld, e.buttons, e.accepted);
      } else {
        OtherStepFaithful(x, e);
      }
    }
  }

  lemma OtherStepFaithful(x: Session, e: Event)
    requires Faithful(x) && Orderly(x.stage, e) && Allowed(x.stage, e)
    requires !e.Tick? && !e.FrameDone? && !e.TasFrame?
    ensures Faithful(Next(x, e))
  {
  }

  /**
   Speculation is execution: in every orderly run, whatever is committed in whatever pieces and however the
   configuration changes, the installed autofire state is the one of executing frame by frame, and every
   frame still staged carries the buttons, and will install the state, that execution gives it.
   */
  lemma {:induction false} SpeculationIsExecution(configured: Patterns, es: seq<Event>)
    requires ValidPatterns(configured) && AllOrderly(configured, es)
    ensures Faithful(Run(configured, es))
  {
    if es != [] {
      var before := es[..|es| - 1];
      SpeculationIsExecution(configured, before);
      LeftoverMeansRearm(configured, before);
      StepFaithful(Run(configured, before), es[|es| - 1]);
    }
  }

  // ---------------------------------------------------------------- playback

  predicate AllPlayback(log: seq<Entry<AutofireState>>) {
    forall i :: 0 <= i < |log| ==> log[i].playback
  }

  predicate NoPlayback(log: seq<Entry<AutofireState>>) {
    forall i :: 0 <= i < |log| ==> !log[i].playback
  }

  /** What is staged for playback is the replay's own next frames. */
  predicate PlaysOn(log: seq<Entry<AutofireState>>, player: Option<Player>) {
    && AllPlayback(log) && (log != [] ==> player.Some?)
    && (player.Some? ==>
          && player.value.cursor + |log| <= |player.value.frames|
          && FramesOf(log) == player.value.frames[player.value.cursor..player.value.cursor + |log|])
  }

  /** Live input and playback are never staged together. */
  predicate Playing(x: Session) {
    if x.inputs == [] then PlaysOn(x.stage.timeline.log, x.stage.timeline.host.player)
    else |x.inputs| == |x.stage.timeline.log| && x.stage.timeline.host.player.None? && NoPlayback(x.stage.timeline.log)
  }

  lemma {:induction false} PlaybackCount(log: seq<Entry<AutofireState>>)
    requires AllPlayback(log)
    ensures EffectOf(log).playback == |log|
  {
    if log != [] {
      PlaybackCount(log[1..]);
    }
  }

  lemma PlaysOnAfterCommit(t: Timeline<AutofireState>, n: nat)
    requires PlaysOn(t.log, t.host.player)
    ensures PlaysOn(Committed(t, n).log, Committed(t, n).host.player)
  {
    var k := Min(n, |t.log|);
    PlaybackCount(t.log[..k]);
    if t.host.player.Some? {
      var p := t.host.player.value;
      var rest := t.log[k..];
      assert FramesOf(rest) == p.frames[p.cursor + k..p.cursor + |t.log|] by {
        assert forall i :: 0 <= i < |rest| ==> FramesOf(rest)[i] == FramesOf(t.log)[k + i];
      }
    }
  }

  lemma StagedPlaysOn(t: Timeline<AutofireState>, n: nat)
    requires Consistent(t) && t.log == [] && t.host.player.Some? && PlaysOn(t.log, t.host.player)
    ensures PlaysOn(PlaybackStaged(t, n).log, PlaybackStaged(t, n).host.player)
  {
    var p := t.host.player.value;
    var frames := Peek(p, 0, n);
    assert t.host.queued == 0;
    if frames != [] {
      var log := Entries(PlaybackBatch<AutofireState>(frames));
      assert [] + log == log && FramesOf(log) == frames == p.frames[p.cursor..p.cursor + |frames|];
    }
  }

  lemma LiveTickPlaying(x: Session, r: Request, sent: bool)
    requires WellFormed(x) && Allowed(x.stage, Tick(r, sent)) && r.n > 0
    requires x.inputs == [] && x.stage.timeline.log == [] && x.stage.timeline.host.player.None?
    ensures Playing(Next(x, Tick(r, sent)))
  {
    PreparedLog(x.stage, r);
    if Prepared(x.stage, r).timeline.log != [] {
      assert |NextInputs(x, Tick(r, sent))| == r.n;
    }
  }

  lemma TickPlaying(x: Session, r: Request, sent: bool)
    requires Playing(x) && WellFormed(x) && Sound(x.stage) && Allowed(x.stage, Tick(r, sent))
    ensures Playing(Next(x, Tick(r, sent)))
  {
    if r.n > 0 && x.stage.timeline.log == [] {
      if x.stage.timeline.host.player.Some? {
        StagedPlaysOn(x.stage.timeline, Min(r.n, r.untilEvent));
      } else {
        LiveTickPlaying(x, r, sent);
      }
    }
  }

  lemma StepPlaying(x: Session, e: Event)
    requires Playing(x) && WellFormed(x) && Sound(x.stage)
    ensures Playing(Next(x, e))
  {
    if Allowed(x.stage, e) {
      if e.Tick? {
        TickPlaying(x, e.request, e.sent);
      } else if e.FrameDone? {
        if x.inputs == [] {
          PlaysOnAfterCommit(x.stage.timeline, e.frames);
        }
      } else if Clears(e) {
        assert NextStage(x.stage, e).timeline.log == [] && NextInputs(x, e) == [];
        ClearedPlaying(x, e);
      } else {
        KeptPlaying(x, e);
      }
    }
  }

  /** The event drops whatever is staged. */
  predicate Clears(e: Event) {
    e.DropStaged? || e.PlayReplay? || e.StopReplay? || e.StartRecording? || e.SaveRecording?
  }

  lemma ClearedPlaying(x: Session, e: Event)
    requires WellFormed(x) && Allowed(x.stage, e) && Clears(e) && Playing(x)
    ensures Playing(Next(x, e))
  {
    var t := NextStage(x.stage, e).timeline;
    assert t.log == [];
    if e.PlayReplay? {
      assert t.host.player == Advanced(Some(e.player), 0);
    }
  }

  lemma KeepsQueue(s: Stage, e: Event)
    requires ValidPatterns(s.configured) && Allowed(s, e) && !Clears(e) && !e.Tick? && !e.FrameDone?
    ensures var t := NextStage(s, e).timeline; t.log == s.timeline.log && t.host.player == s.timeline.host.player
  {
    if e.TasFrame? {
      RearmedKeeps(s);
    }
  }

  lemma KeptPlaying(x: Session, e: Event)
    requires Playing(x) && WellFormed(x) && Allowed(x.stage, e) && !Clears(e) && !e.Tick? && !e.FrameDone?
    ensures Playing(Next(x, e))
  {
    KeepsQueue(x.stage, e);
    assert NextInputs(x, e) == x.inputs;
  }

  lemma StagePatterns(s: Stage, e: Event)
    requires ValidPatterns(s.configured) && Allowed(s, e)
    ensures ValidPatterns(NextStage(s, e).configured)
  {
    if e.Tick? {
      PreparedKeeps(s, e.request);
    } else if e.FrameDone? {
      FinishedKeeps(s, e.requests, e.frames);
    } else if e.TasFrame? {
      RearmedKeeps(s);
    }
  }

  lemma InputsValid(x: Session, e: Event)
    requires WellFormed(x)
    ensures ValidInputs(NextInputs(x, e))
  {
    if e.FrameDone? {
      var k := Min(e.frames, |x.inputs|);
      assert forall i :: 0 <= i < |x.inputs[k..]| ==> x.inputs[k..][i] == x.inputs[k + i];
    }
  }

  /** A session's history stays well formed, whatever happens. */
  lemma StepWellFormed(x: Session, e: Event)
    requires WellFormed(x)
    ensures WellFormed(Next(x, e))
  {
    if Allowed(x.stage, e) {
      StagePatterns(x.stage, e);
      InputsValid(x, e);
    }
  }

  /**
   In every run, the frames staged for playback are the replay's next frames, in order, none skipped or repeated,
   and never mixed with live input.
   */
  lemma {:induction false} PlaybackInOrder(configured: Patterns, es: seq<Event>)
    requires ValidPatterns(configured)
    ensures WellFormed(Run(configured, es)) && Playing(Run(configured, es))
  {
    if es != [] {
      var x := Run(configured, es[..|es| - 1]);
      PlaybackInOrder(configured, es[..|es| - 1]);
      LeftoverMeansRearm(configured, es[..|es| - 1]);
      StepWellFormed(x, es[|es| - 1]);
      StepPlaying(x, es[|es| - 1]);
    }
  }

  lemma {:induction false} NoPlaybackCount(log: seq<Entry<AutofireState>>)
    requires NoPlayback(log)
    ensures EffectOf(log).playback == 0
  {
    if log != [] {
      NoPlaybackCount(log[1..]);
    }
  }

  /** Without a replay nothing is queued for playback: asking for a recording has no count to clear. */
  lemma NothingQueued(configured: Patterns, es: seq<Event>)
    requires ValidPatterns(configured)
    ensures var h := Run(configured, es).stage.timeline.host; h.player.None? ==> h.queued == 0
  {
    PlaybackInOrder(configured, es);
    LeftoverMeansRearm(configured, es);
    var x := Run(configured, es);
    if x.inputs != [] {
      NoPlaybackCount(x.stage.timeline.log);
    }
  }

  // ---------------------------------------------------------------- a lease in the middle of a batch

  /** What is left of a batch whose frames carry their states, seen from another state. */
  lemma {:induction false} LaterFramesAgree(left: AutofireState, right: AutofireState, inputs: seq<FrameInput>, k: nat)
    requires ValidInputs(inputs) && 0 < k <= |inputs| && NextState(left, inputs[0]) == NextState(right, inputs[0])
    ensures After(left, inputs[..k]) == After(right, inputs[..k])
  {
    AfterOneMore(left, inputs, k - 1);
    AfterOneMore(right, inputs, k - 1);
    if k > 1 {
      LaterFramesAgree(left, right, inputs, k - 1);
    } else {
      assert inputs[..0] == [];
    }
  }

  lemma StatesIgnoreBase(left: AutofireState, right: AutofireState, log: seq<Entry<AutofireState>>, k: nat)
    requires log != [] && log[0].state.Some? && 0 < k <= |log|
    ensures StateAfterCommit(left, log[..k]) == StateAfterCommit(right, log[..k])
  {
    assert log[..k] == [log[0]] + log[1..k];
    EffectConcat([log[0]], log[1..k]);
    SingleEffect(log[0]);
  }

  /** The state and the buttons after one frame are the same from both states. */
  predicate SameFrame(left: AutofireState, right: AutofireState, input: FrameInput)
    requires ValidInput(input)
  {
    NextState(left, input) == NextState(right, input) && Output(left, input) == Output(right, input)
  }

  lemma FirstFrameOf(state: AutofireState, inputs: seq<FrameInput>)
    requires ValidInputs(inputs) && inputs != []
    ensures After(state, inputs[..1]) == NextState(state, inputs[0])
            && OutputAt(state, inputs, 0) == Output(state, inputs[0])
  {
    AfterOneMore(state, inputs, 0);
    assert inputs[..0] == [];
  }

  lemma FirstFrameShows(state: AutofireState, moved: AutofireState, log: seq<Entry<AutofireState>>,
                        inputs: seq<FrameInput>)
    requires Mirrors(state, log, inputs) && Mirrors(moved, log, inputs) && inputs != [] && log[0].state.Some?
    ensures SameFrame(moved, state, inputs[0])
  {
    FirstFrameOf(state, inputs);
    FirstFrameOf(moved, inputs);
    StatesIgnoreBase(state, moved, log, 1);
    assert StateAfterCommit(moved, log[..1]) == After(moved, inputs[..1])
        && StateAfterCommit(state, log[..1]) == After(state, inputs[..1]);
  }

  /** A batch staged from one state still mirrors execution from another if and only if its first frame does. */
  lemma MovedMirrorsIff(state: AutofireState, moved: AutofireState, log: seq<Entry<AutofireState>>,
                        inputs: seq<FrameInput>)
    requires Mirrors(state, log, inputs) && inputs != [] && log[0].state.Some?
    ensures Mirrors(moved, log, inputs) <==> SameFrame(moved, state, inputs[0])
  {
    if SameFrame(moved, state, inputs[0]) {
      forall k | 0 <= k <= |log|
        ensures StateAfterCommit(moved, log[..k]) == After(moved, inputs[..k])
      {
        if k > 0 {
          StatesIgnoreBase(state, moved, log, k);
          LaterFramesAgree(state, moved, inputs, k);
        } else {
          assert log[..0] == [] && inputs[..0] == [];
        }
      }
      forall i | 0 <= i < |log|
        ensures log[i].frame.buttons == OutputAt(moved, inputs, i)
      {
        if i > 0 {
          LaterFramesAgree(state, moved, inputs, i);
        } else {
          FirstFrameOf(state, inputs);
          FirstFrameOf(moved, inputs);
        }
      }
    }
    if Mirrors(moved, log, inputs) {
      FirstFrameShows(state, moved, log, inputs);
    }
  }

  /** The event neither commits nor drops staged frames. */
  predicate LeavesStaged(e: Event) {
    && (e.FrameDone? ==> e.frames == 0)
    && !e.DropStaged? && !e.PlayReplay? && !e.StopReplay? && !e.StartRecording? && !e.SaveRecording?
  }

  predicate AllLeaveStaged(es: seq<Event>) {
    forall i :: 0 <= i < |es| ==> LeavesStaged(es[i])
  }

  function RunFrom(x: Session, es: seq<Event>): Session {
    if es == [] then x else Next(RunFrom(x, es[..|es| - 1]), es[|es| - 1])
  }

  /** `y` still has the frames staged in `x`, and agrees with execution on the state reached. */
  predicate StillStaged(x: Session, y: Session) {
    && WellFormed(y) && State(y.stage) == y.actual && RecordsAlone(y.stage)
    && y.stage.timeline.log == x.stage.timeline.log && y.inputs == x.inputs
    && (y.stage.owner.Lease? ==> y.stage.preview.None?)
    && (y.stage.owner.LiveFrame? ==>
          y.stage.preview == if y.tasInput.Some? then Some(NextState(y.actual, y.tasInput.value)) else None)
  }

  lemma CommitOfNothing(s: Stage, requests: nat)
    ensures var t := Finished(s, requests, 0);
            SameControl(s, t) && t.timeline.log == s.timeline.log && State(t) == State(s)
  {
    assert s.timeline.log[..0] == [] && s.timeline.log[0..] == s.timeline.log;
  }

  lemma QuietFrameDone(x: Session, y: Session, requests: nat)
    requires StillStaged(x, y)
    ensures StillStaged(x, Next(y, FrameDone(requests, 0)))
  {
    CommitOfNothing(y.stage, requests);
    assert y.inputs[..0] == [] && y.inputs[0..] == y.inputs;
  }

  lemma QuietTick(x: Session, y: Session, r: Request, sent: bool)
    requires StillStaged(x, y) && x.stage.timeline.log != []
    ensures StillStaged(x, Next(y, Tick(r, sent)))
  {
    if Allowed(y.stage, Tick(r, sent)) {
      assert NextStage(y.stage, Tick(r, sent)) == y.stage.(inFlight := y.stage.inFlight + if sent then 1 else 0);
    }
  }

  lemma QuietTasFrame(x: Session, y: Session, legacyHeld: bool, buttons: Masks, accepted: bool)
    requires StillStaged(x, y)
    ensures StillStaged(x, Next(y, TasFrame(legacyHeld, buttons, accepted)))
  {
    if y.stage.owner.Lease? {
      TasFrameStep(y, legacyHeld, buttons, accepted);
      StepWellFormed(y, TasFrame(legacyHeld, buttons, accepted));
    }
  }

  lemma QuietOther(x: Session, y: Session, e: Event)
    requires StillStaged(x, y) && LeavesStaged(e) && !e.FrameDone? && !e.Tick? && !e.TasFrame?
    ensures StillStaged(x, Next(y, e))
  {
  }

  lemma {:induction false} QuietRun(x: Session, es: seq<Event>)
    requires StillStaged(x, x) && x.stage.timeline.log != [] && AllLeaveStaged(es)
    ensures StillStaged(x, RunFrom(x, es))
  {
    if es != [] {
      var y, e := RunFrom(x, es[..|es| - 1]), es[|es| - 1];
      QuietRun(x, es[..|es| - 1]);
      assert LeavesStaged(e);
      if e.FrameDone? {
        QuietFrameDone(x, y, e.requests);
      } else if e.Tick? {
        QuietTick(x, y, e.request, e.sent);
      } else if e.TasFrame? {
        QuietTasFrame(x, y, e.legacyHeld, e.buttons, e.accepted);
      } else {
        QuietOther(x, y, e);
      }
    }
  }

  /**
   Where the promise stops: a lease is refused for a staged replay but not for part of an autofire batch. Whatever then
   happens, leases with any live frames, refused ones, changes of configuration and further leases included, a session
   back with the player and with the same frames staged is faithful if and only if the next of them is
   what it was: same state after it, same buttons.
   */
  lemma LeaseMidBatchIff(x: Session, es: seq<Event>, y: Session)
    requires Faithful(x) && x.inputs != [] && x.stage.timeline.log[0].state.Some?
    requires AllLeaveStaged(es) && y == RunFrom(x, es) && y.stage.owner.Gameplay?
    ensures Faithful(y) <==> SameFrame(y.actual, x.actual, x.inputs[0])
  {
    QuietRun(x, es);
    MovedMirrorsIff(x.actual, y.actual, x.stage.timeline.log, x.inputs);
  }

  // ---------------------------------------------------------------- the batches a lease can meet carry their states

  /** Frames staged neither for a recording nor from a replay carry their autofire states. */
  predicate LiveStatesTravel(log: seq<Entry<AutofireState>>) {
    forall i :: 0 <= i < |log| ==> log[i].record || log[i].playback || log[i].state.Some?
  }

  lemma TickStatesTravel(s: Stage, r: Request, sent: bool)
    requires ValidPatterns(s.configured) && LiveStatesTravel(s.timeline.log) && Allowed(s, Tick(r, sent))
    ensures LiveStatesTravel(Prepared(s, r).timeline.log)
  {
    if r.n > 0 && s.timeline.log == [] {
      if s.timeline.host.player.Some? {
        var frames := Peek(s.timeline.host.player.value, s.timeline.host.queued, Min(r.n, r.untilEvent));
        assert [] + Entries(PlaybackBatch<AutofireState>(frames)) == Entries(PlaybackBatch(frames));
      } else {
        PreparedLog(s, r);
      }
    }
  }

  lemma StepStatesTravel(s: Stage, e: Event)
    requires ValidPatterns(s.configured) && LiveStatesTravel(s.timeline.log) && Allowed(s, e)
    ensures LiveStatesTravel(NextStage(s, e).timeline.log)
  {
    if e.Tick? {
      TickStatesTravel(s, e.request, e.sent);
    } else if e.FrameDone? {
      var k := Min(e.frames, |s.timeline.log|);
      assert forall i :: 0 <= i < |s.timeline.log[k..]| ==> s.timeline.log[k..][i] == s.timeline.log[k + i];
    } else if e.TasFrame? {
      RearmedKeeps(s);
    }
  }

  /** In every run, a batch of live input that a lease can meet carries the state of every frame. */
  lemma {:induction false} StatesTravel(configured: Patterns, es: seq<Event>)
    requires ValidPatterns(configured)
    ensures LiveStatesTravel(Run(configured, es).stage.timeline.log)
  {
    if es != [] {
      var x, e := Run(configured, es[..|es| - 1]), es[|es| - 1];
      StatesTravel(configured, es[..|es| - 1]);
      if WellFormed(x) && Allowed(x.stage, e) {
        StepStatesTravel(x.stage, e);
      }
    }
  }

  // ---------------------------------------------------------------- a run that breaks the promise

  /** Two frames staged under legacy turbo, of which one runs. */
  function HalfRun(buttons: Masks, others: nat): seq<Event> {
    [Tick(Request(2, 0, true, buttons, others), true), FrameDone(1, 1)]
  }

  /** A lease with one live frame, committed, and given back. */
  function OneLiveFrame(legacyHeld: bool, buttons: Masks): seq<Event> {
    [TasTake, TasFrame(legacyHeld, buttons, true), TasReply(true), TasCancel, TasReturn]
  }

  /** One of two frames has run under legacy turbo, and the other is still staged with its state. */
  predicate OneOfTwoRan(x: Session, configured: Patterns, input: FrameInput) {
    && Allowed(x.stage, TasTake) && x.stage.configured == configured && x.inputs == [input]
    && |x.stage.timeline.log| == 1 && x.stage.timeline.log[0].state.Some? && x.actual.legacyPhase == 1
  }

  lemma TwoStaged(configured: Patterns, r: Request, y: Session)
    requires ValidPatterns(configured) && r.n == 2 && r.legacyHeld && y == Next(Start(configured), Tick(r, true))
    ensures var input := FrameInput(true, configured, r.buttons);
            && WellFormed(y) && y.stage.configured == configured && y.inputs == Repeated(input, 2)
            && y.actual == AT_REST
            && y.stage.timeline.log == Entries(LiveBatch(AT_REST, input, 2, r.others, false))
            && y.stage.owner.Gameplay? && y.stage.capture.Off? && y.stage.inFlight == 1
            && y.stage.timeline.host.player.None?
  {
    var x := Start(configured);
    assert !AnyReleased(NONE_RELEASED) && Rearmed(x.stage) == x.stage;
    LiveTick(x, r, true);
    PreparedLog(x.stage, r);
  }

  lemma SecondEntry(input: FrameInput, others: nat)
    requires ValidInput(input) && input.legacyHeld
    ensures var log := Entries(LiveBatch(AT_REST, input, 2, others, false));
            && |log| == 2 && log[1].state.Some? && !log[1].record && !log[1].playback
  {
    assert KeepsStates(AT_REST, input);
  }

  lemma OneRan(configured: Patterns, r: Request, y: Session)
    requires ValidPatterns(configured) && r.n == 2 && r.legacyHeld && y == Next(Start(configured), Tick(r, true))
    ensures OneOfTwoRan(Next(y, FrameDone(1, 1)), configured, FrameInput(true, configured, r.buttons))
  {
    var input := FrameInput(true, configured, r.buttons);
    TwoStaged(configured, r, y);
    SecondEntry(input, r.others);
    OneOfThemRan(y, input);
  }

  lemma OneOfThemRan(y: Session, input: FrameInput)
    requires WellFormed(y) && y.inputs == Repeated(input, 2) && y.actual == AT_REST && input.legacyHeld
    requires y.stage.owner.Gameplay? && y.stage.capture.Off? && y.stage.inFlight == 1
    requires y.stage.timeline.host.player.None? && |y.stage.timeline.log| == 2
    requires var e := y.stage.timeline.log[1]; e.state.Some? && !e.record && !e.playback
    ensures OneOfTwoRan(Next(y, FrameDone(1, 1)), y.stage.configured, input)
  {
    FirstOfTwo(y, input);
    FrameDoneStage(y.stage);
    assert NextStage(y.stage, FrameDone(1, 1)) == Finished(y.stage, 1, 1);
  }

  lemma FirstOfTwo(y: Session, input: FrameInput)
    requires WellFormed(y) && y.inputs == Repeated(input, 2) && y.actual == AT_REST && input.legacyHeld
    ensures NextInputs(y, FrameDone(1, 1)) == [input] && NextActual(y, FrameDone(1, 1)).legacyPhase == 1
  {
    assert y.inputs[..1] == [input] && y.inputs[1..] == [input] && [input][..1] == [input];
    FirstFrameOf(AT_REST, [input]);
  }

  lemma FrameDoneStage(s: Stage)
    requires s.inFlight == 1 && |s.timeline.log| == 2 && s.timeline.host.player.None?
    ensures var t := Finished(s, 1, 1);
            SameControl(s, t) && t.inFlight == 0 && t.timeline.log == [s.timeline.log[1]]
            && t.timeline.host.player.None?
  {
    assert s.timeline.log[1..] == [s.timeline.log[1]];
  }

  lemma {:induction false} OrderlyFrames(configured: Patterns, es: seq<Event>)
    requires forall i :: 0 <= i < |es| ==> es[i].Tick? || es[i].FrameDone?
    ensures AllOrderly(configured, es)
  {
    if es != [] {
      OrderlyFrames(configured, es[..|es| - 1]);
    }
  }

  lemma TwoEvents(x: Session, first: Event, second: Event)
    ensures RunFrom(x, [first, second]) == Next(Next(x, first), second)
  {
    assert [first, second][..1] == [first] && [first][..0] == [];
    assert RunFrom(x, [first]) == Next(RunFrom(x, []), first);
  }

  lemma {:induction false} RunIsFromStart(configured: Patterns, es: seq<Event>)
    ensures Run(configured, es) == RunFrom(Start(configured), es)
  {
    if es != [] {
      RunIsFromStart(configured, es[..|es| - 1]);
    }
  }

  /** Legacy turbo after one more frame: the next frame is not what it was. */
  lemma TurboMovesOn(state: AutofireState, input: FrameInput)
    requires ValidInput(input) && input.legacyHeld && state.legacyPhase == 1
    ensures !SameFrame(NextState(state, input), state, input)
  {
  }

  lemma LeaseTaken(x: Session, input: FrameInput, y: Session)
    requires WellFormed(x) && State(x.stage) == x.actual && Allowed(x.stage, TasTake) && x.stage.timeline.log != []
    requires input == FrameInput(true, x.stage.configured, input.buttons)
    requires y == Next(Next(x, TasTake), TasFrame(true, input.buttons, true))
    ensures WellFormed(y) && y.actual == x.actual && y.stage.owner.LiveFrame?
    ensures y.tasInput == Some(input) && y.stage.preview == Some(NextState(x.actual, input))
  {
    var a := Next(x, TasTake);
    RearmedKeeps(a.stage);
    TasFrameStep(a, true, input.buttons, true);
  }

  lemma LeaseGivenBack(y: Session, input: FrameInput)
    requires WellFormed(y) && y.stage.owner.LiveFrame? && ValidInput(input)
    requires y.tasInput == Some(input) && y.stage.preview == Some(NextState(y.actual, input))
    ensures var z := Next(Next(Next(y, TasReply(true)), TasCancel), TasReturn);
            z.actual == NextState(y.actual, input) && z.stage.owner.Gameplay?
  {
    var c := Next(y, TasReply(true));
    Replied(y, input);
    StepWellFormed(y, TasReply(true));
    var d := Next(c, TasCancel);
    assert d.stage == c.stage.(owner := Returning) && d.actual == c.actual;
    StepWellFormed(c, TasCancel);
  }

  lemma Replied(y: Session, input: FrameInput)
    requires WellFormed(y) && y.stage.owner.LiveFrame? && y.tasInput == Some(input)
    ensures Next(y, TasReply(true)).stage.owner.Lease? && Next(y, TasReply(true)).actual == NextState(y.actual, input)
  {
  }

  lemma FiveEvents(x: Session, es: seq<Event>)
    requires |es| == 5
    ensures RunFrom(x, es) == Next(Next(Next(Next(Next(x, es[0]), es[1]), es[2]), es[3]), es[4])
  {
    assert es[..1][..0] == [] && es[..2][..1] == es[..1] && es[..3][..2] == es[..2] && es[..4][..3] == es[..3];
    assert RunFrom(x, es[..1]) == Next(x, es[0]);
    assert RunFrom(x, es[..2]) == Next(RunFrom(x, es[..1]), es[1]);
    assert RunFrom(x, es[..3]) == Next(RunFrom(x, es[..2]), es[2]);
    assert RunFrom(x, es[..4]) == Next(RunFrom(x, es[..3]), es[3]);
  }

  /**
   The promise does break: under any configuration, hold legacy turbo, stage two frames of which one runs, and take a
   lease with one live frame. The session before the lease is faithful, and the session after it is not.
   */
  lemma MidBatchLeaseBreaks(configured: Patterns, buttons: Masks, others: nat, x: Session, y: Session)
    requires ValidPatterns(configured) && x == Run(configured, HalfRun(buttons, others))
    requires y == RunFrom(x, OneLiveFrame(true, buttons))
    ensures Faithful(x) && Allowed(x.stage, TasTake) && x.stage.timeline.log != []
    ensures y.stage.owner.Gameplay? && !Faithful(y)
  {
    var r, input := Request(2, 0, true, buttons, others), FrameInput(true, configured, buttons);
    RunIsFromStart(configured, HalfRun(buttons, others));
    TwoEvents(Start(configured), Tick(r, true), FrameDone(1, 1));
    OneRan(configured, r, Next(Start(configured), Tick(r, true)));
    OrderlyFrames(configured, HalfRun(buttons, others));
    SpeculationIsExecution(configured, HalfRun(buttons, others));
    BreaksFrom(x, configured, input, y);
  }

  lemma BreaksFrom(x: Session, configured: Patterns, input: FrameInput, y: Session)
    requires Faithful(x) && OneOfTwoRan(x, configured, input) && input == FrameInput(true, configured, input.buttons)
    requires y == RunFrom(x, OneLiveFrame(true, input.buttons))
    ensures y.stage.owner.Gameplay? && !Faithful(y)
  {
    LeaseRun(x, input, y);
    TurboMovesOn(x.actual, input);
    LeaseMidBatchIff(x, OneLiveFrame(true, input.buttons), y);
  }

  lemma LeaseRun(x: Session, input: FrameInput, y: Session)
    requires WellFormed(x) && State(x.stage) == x.actual && Allowed(x.stage, TasTake) && x.stage.timeline.log != []
    requires input == FrameInput(true, x.stage.configured, input.buttons)
    requires y == RunFrom(x, OneLiveFrame(true, input.buttons))
    ensures y.actual == NextState(x.actual, input) && y.stage.owner.Gameplay?
  {
    FiveEvents(x, OneLiveFrame(true, input.buttons));
    var b := Next(Next(x, TasTake), TasFrame(true, input.buttons, true));
    LeaseTaken(x, input, b);
    LeaseGivenBack(b, input);
  }
}
