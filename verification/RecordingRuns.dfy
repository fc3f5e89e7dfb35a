/** What a recording holds: the frames that really ran, pressed as execution presses them, and nothing else. */
module RecordingRuns {
  import opened Common
  import opened Autofire
  import opened ReplayCommit
  import opened InputStaging
  import opened StagingRuns

  // ---------------------------------------------------------------- the tape

  /** The recorder and the marks of what is staged: `marked` says the staged live frames are for the recording. */
  predicate Taping(s: Stage, marked: bool) {
    && (s.timeline.host.recorder.Some? <==> s.capture.On? || s.capture.Finalizing?)
    && forall i :: 0 <= i < |s.timeline.log| ==>
                     s.timeline.log[i].record == (marked && !s.timeline.log[i].playback)
  }

  function MarkedNext(x: Session, e: Event, marked: bool): bool {
    if WellFormed(x) && Allowed(x.stage, e) && e.Tick? && x.stage.timeline.log == [] then x.stage.capture.On?
    else marked
  }

  /** Whether what is staged now was staged during a recording. */
  function Marked(configured: Patterns, es: seq<Event>): bool {
    if es == [] then false
    else MarkedNext(Run(configured, es[..|es| - 1]), es[|es| - 1], Marked(configured, es[..|es| - 1]))
  }

  function Pressed(state: AutofireState, inputs: seq<FrameInput>): seq<seq<bv8>>
    requires ValidInputs(inputs)
  {
    seq(|inputs|, i requires 0 <= i < |inputs| => OutputAt(state, inputs, i))
  }

  /** The first frames of what is staged, as execution presses them. */
  function Ran(x: Session, frames: nat): seq<seq<bv8>>
    requires WellFormed(x)
  {
    Pressed(x.actual, x.inputs)[..Min(frames, |x.inputs|)]
  }

  /** Executed frame by frame: the buttons of every live frame staged since the recording began that really ran. */
  function Tape(configured: Patterns, es: seq<Event>): seq<seq<bv8>> {
    if es == [] then []
    else
      var x, e := Run(configured, es[..|es| - 1]), es[|es| - 1];
      if !WellFormed(x) || !Allowed(x.stage, e) then Tape(configured, es[..|es| - 1])
      else
        match e
        case StartRecording => []
        case FrameDone(_, frames) =>
          Tape(configured, es[..|es| - 1]) + if Marked(configured, es[..|es| - 1]) then Ran(x, frames) else []
        case _ => Tape(configured, es[..|es| - 1])
  }

  function ButtonsOf(frames: seq<Frame>): (buttons: seq<seq<bv8>>)
    ensures |buttons| == |frames|
  {
    seq(|frames|, i requires 0 <= i < |frames| => frames[i].buttons)
  }

  // ---------------------------------------------------------------- every step keeps the marks

  lemma SuffixTaping(s: Stage, t: Stage, marked: bool, k: nat)
    requires Taping(s, marked) && k <= |s.timeline.log| && t.timeline.log == s.timeline.log[k..]
    requires t.capture == s.capture && (t.timeline.host.recorder.Some? <==> s.timeline.host.recorder.Some?)
    ensures Taping(t, marked)
  {
    assert forall i :: 0 <= i < |t.timeline.log| ==> t.timeline.log[i] == s.timeline.log[k + i];
  }

  lemma LiveTaping(s: Stage, r: Request)
    requires ValidPatterns(s.configured) && Taping(s, false) && s.timeline.log == [] && r.n > 0
    requires s.timeline.host.player.None? && !s.capture.Starting?
    ensures Taping(Prepared(s, r), s.capture.On?)
  {
    PreparedKeeps(s, r);
    PreparedLog(s, r);
    TickKeepsRecorder(s, r);
    MarkedLive(Prepared(s, r).timeline.log, State(Rearmed(s)), InputOf(s, r), r, Recording(s));
  }

  lemma MarkedLive(log: seq<Entry<AutofireState>>, state: AutofireState, input: FrameInput, r: Request, record: bool)
    requires ValidInput(input) && (log == [] || log == Entries(LiveBatch(state, input, r.n, r.others, record)))
    ensures forall i :: 0 <= i < |log| ==> log[i].record == record && !log[i].playback
  {
  }

  lemma TickKeepsRecorder(s: Stage, r: Request)
    requires ValidPatterns(s.configured)
    ensures Prepared(s, r).timeline.host.recorder == s.timeline.host.recorder
  {
    RearmedKeeps(s);
    LiveKeepsRecorder(Rearmed(s), r);
  }

  lemma LiveKeepsRecorder(s: Stage, r: Request)
    requires ValidPatterns(s.configured)
    ensures PreparedLive(s, r).timeline.host.recorder == s.timeline.host.recorder
  {
  }

  lemma PlaybackTaping(s: Stage, n: nat, marked: bool)
    requires Taping(s, false) && s.timeline.log == [] && s.timeline.host.player.Some?
    ensures Taping(s.(timeline := PlaybackStaged(s.timeline, n)), marked)
  {
    var frames := Peek(s.timeline.host.player.value, s.timeline.host.queued, n);
    assert [] + Entries(PlaybackBatch<AutofireState>(frames)) == Entries(PlaybackBatch(frames));
  }

  lemma TickTaping(s: Stage, r: Request, sent: bool, marked: bool)
    requires ValidPatterns(s.configured) && Taping(s, marked) && Allowed(s, Tick(r, sent))
    ensures Taping(NextStage(s, Tick(r, sent)), if s.timeline.log == [] then s.capture.On? else marked)
  {
    if r.n > 0 && s.timeline.log == [] {
      assert Taping(s, false);
      if s.timeline.host.player.Some? {
        PlaybackTaping(s, Min(r.n, r.untilEvent), s.capture.On?);
      } else {
        LiveTaping(s, r);
      }
    }
  }

  lemma DoneTaping(s: Stage, requests: nat, frames: nat, marked: bool)
    requires ValidPatterns(s.configured) && Taping(s, marked)
    ensures Taping(NextStage(s, FrameDone(requests, frames)), marked)
  {
    SuffixTaping(s, Finished(s, requests, frames), marked, Min(frames, |s.timeline.log|));
  }

  /** A live TAS frame touches neither what is staged nor the recorder. */
  lemma TasFrameApart(s: Stage, legacyHeld: bool, buttons: Masks, accepted: bool)
    requires ValidPatterns(s.configured)
    ensures var t := NextStage(s, TasFrame(legacyHeld, buttons, accepted));
            && t.timeline.log == s.timeline.log && t.timeline.host.recorder == s.timeline.host.recorder
            && t.capture == s.capture
  {
    RearmedKeeps(s);
    TasFramedApart(Rearmed(s), FrameInput(legacyHeld, s.configured, buttons), accepted);
  }

  lemma TasFramedApart(s: Stage, input: FrameInput, accepted: bool)
    requires ValidInput(input)
    ensures var t := TasFramed(s, input, accepted);
            && t.timeline.log == s.timeline.log && t.timeline.host.recorder == s.timeline.host.recorder
            && t.capture == s.capture
  {
  }

  lemma OtherTaping(s: Stage, e: Event, marked: bool)
    requires ValidPatterns(s.configured) && Taping(s, marked) && Allowed(s, e)
    requires !e.Tick? && !e.FrameDone? && !e.TasFrame?
    ensures Taping(NextStage(s, e), marked)
  {
  }

  lemma StepTaping(s: Stage, e: Event, marked: bool)
    requires ValidPatterns(s.configured) && Taping(s, marked) && Allowed(s, e)
    ensures Taping(NextStage(s, e), if e.Tick? && s.timeline.log == [] then s.capture.On? else marked)
  {
    match e
    case Tick(r, sent) => TickTaping(s, r, sent, marked);
    case FrameDone(requests, frames) => DoneTaping(s, requests, frames, marked);
    case TasFrame(legacyHeld, buttons, accepted) => TasFrameApart(s, legacyHeld, buttons, accepted);
    case _ => OtherTaping(s, e, marked);
  }

  lemma {:induction false} RunTaping(configured: Patterns, es: seq<Event>)
    requires ValidPatterns(configured)
    ensures Taping(Run(configured, es).stage, Marked(configured, es))
  {
    if es != [] {
      var x, e := Run(configured, es[..|es| - 1]), es[|es| - 1];
      RunTaping(configured, es[..|es| - 1]);
      if WellFormed(x) && Allowed(x.stage, e) {
        StepTaping(x.stage, e, Marked(configured, es[..|es| - 1]));
      }
    }
  }

  // ---------------------------------------------------------------- what a commit records

  lemma {:induction false} AllFlagged(log: seq<Entry<AutofireState>>)
    requires forall i :: 0 <= i < |log| ==> log[i].record
    ensures Flagged(log) == FramesOf(log)
  {
    if log != [] {
      AllFlagged(log[1..]);
      assert FramesOf(log) == [log[0].frame] + FramesOf(log[1..]);
    }
  }

  lemma {:induction false} NoneFlagged(log: seq<Entry<AutofireState>>)
    requires forall i :: 0 <= i < |log| ==> !log[i].record
    ensures Flagged(log) == []
  {
    if log != [] {
      NoneFlagged(log[1..]);
    }
  }

  /** The frames a commit records are the ones execution presses, if they were staged for the recording. */
  lemma RecordedRan(x: Session, frames: nat, marked: bool, done: seq<Entry<AutofireState>>)
    requires Faithful(x) && Playing(x) && Taping(x.stage, marked)
    requires done == x.stage.timeline.log[..Min(frames, |x.stage.timeline.log|)]
    ensures ButtonsOf(Flagged(done)) == if marked then Ran(x, frames) else []
  {
    if x.inputs == [] {
      NoneFlagged(done);
    } else if marked {
      AllFlagged(done);
      assert forall i :: 0 <= i < |done| ==> done[i].frame.buttons == OutputAt(x.actual, x.inputs, i);
    } else {
      NoneFlagged(done);
    }
  }

  lemma RecorderAfter(x: Session, requests: nat, frames: nat, done: seq<Entry<AutofireState>>)
    requires WellFormed(x) && Consistent(x.stage.timeline) && x.stage.timeline.host.recorder.Some?
    requires done == x.stage.timeline.log[..Min(frames, |x.stage.timeline.log|)]
    ensures var after := Next(x, FrameDone(requests, frames)).stage.timeline.host.recorder;
            && after.Some?
            && ButtonsOf(after.value) == ButtonsOf(x.stage.timeline.host.recorder.value) + ButtonsOf(Flagged(done))
  {
    var t := x.stage.timeline;
    ButtonsTogether(t.host.recorder.value, Flagged(done));
    CommittedRecorder(t, frames, Committed(t, frames));
  }

  lemma CommittedRecorder(t: Timeline<AutofireState>, frames: nat, after: Timeline<AutofireState>)
    requires Consistent(t) && t.host.recorder.Some? && after == Committed(t, frames)
    ensures after.host.recorder == Some(t.host.recorder.value + Flagged(t.log[..Min(frames, |t.log|)]))
  {
    CommitMeans(t, frames);
  }

  lemma ButtonsTogether(a: seq<Frame>, b: seq<Frame>)
    ensures ButtonsOf(a + b) == ButtonsOf(a) + ButtonsOf(b)
  {
  }

  /** Only a result, the start and the end of a recording touch the recorder. */
  lemma OthersKeepRecorder(s: Stage, e: Event)
    requires ValidPatterns(s.configured) && Allowed(s, e)
    requires !e.FrameDone? && !e.StartRecording? && !e.SaveRecording?
    ensures NextStage(s, e).timeline.host.recorder == s.timeline.host.recorder
  {
    match e
    case Tick(r, _) => TickKeepsRecorder(s, r);
    case TasFrame(legacyHeld, buttons, accepted) => TasFrameApart(s, legacyHeld, buttons, accepted);
    case _ =>
  }

  /**
   A recording is what was played. In every orderly run the recorder is open from the moment the recording starts
   until it is written, and holds the buttons of the live frames staged since then that really ran, as executing
   frame by frame presses them: nothing speculative, dropped, replayed or staged before.
   */
  lemma {:induction false} RecorderIsTape(configured: Patterns, es: seq<Event>)
    requires ValidPatterns(configured) && AllOrderly(configured, es)
    ensures var s := Run(configured, es).stage;
            && (s.timeline.host.recorder.Some? <==> s.capture.On? || s.capture.Finalizing?)
            && (s.timeline.host.recorder.Some? ==>
                  ButtonsOf(s.timeline.host.recorder.value) == Tape(configured, es))
  {
    RunTaping(configured, es);
    if es != [] {
      var front, e := es[..|es| - 1], es[|es| - 1];
      RecorderIsTape(configured, front);
      RunTaping(configured, front);
      SpeculationIsExecution(configured, front);
      PlaybackInOrder(configured, front);
      LeftoverMeansRearm(configured, front);
      TapeStep(configured, es, Run(configured, front), e);
    }
  }

  lemma TapeStep(configured: Patterns, es: seq<Event>, x: Session, e: Event)
    requires es != [] && e == es[|es| - 1] && x == Run(configured, es[..|es| - 1])
    requires Faithful(x) && Playing(x) && Sound(x.stage) && Taping(x.stage, Marked(configured, es[..|es| - 1]))
    requires x.stage.timeline.host.recorder.Some? ==>
               ButtonsOf(x.stage.timeline.host.recorder.value) == Tape(configured, es[..|es| - 1])
    ensures var recorder := Next(x, e).stage.timeline.host.recorder;
            recorder.Some? ==> ButtonsOf(recorder.value) == Tape(configured, es)
  {
    if Allowed(x.stage, e) {
      if e.FrameDone? {
        if x.stage.timeline.host.recorder.Some? {
          var done := x.stage.timeline.log[..Min(e.frames, |x.stage.timeline.log|)];
          RecordedRan(x, e.frames, Marked(configured, es[..|es| - 1]), done);
          RecorderAfter(x, e.requests, e.frames, done);
        }
      } else if !e.StartRecording? && !e.SaveRecording? {
        OthersKeepRecorder(x.stage, e);
      }
    }
  }
}
