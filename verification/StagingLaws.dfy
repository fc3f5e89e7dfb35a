/** What staging does to a player's buttons and phases, on the raw masks: releases, resets and the frames handed on. */
module StagingLaws {
  import opened Common
  import opened Autofire
  import opened AutofireButtons
  import opened ReplayCommit
  import opened InputStaging
  import StagingRuns

  // ---------------------------------------------------------------- releases

  /** The button of action `a` was down on one mask and is up on the next. */
  predicate WentUp(before: bv8, now: bv8, a: nat)
    requires a < ACTIONS
  {
    before & BUTTON[a] != 0 && now & BUTTON[a] == 0
  }

  lemma WentUpIsLetGo(before: bv8, now: bv8, a: nat)
    requires a < ACTIONS
    ensures WentUp(before, now, a) <==> Held(before, a) && !Held(now, a)
  {
    HeldIsBit(before, a);
    HeldIsBit(now, a);
  }

  /** A target is marked exactly when it has a pattern and its button went up, and stays marked. */
  lemma MarkedIff(s: Stage, buttons: Masks, legacyHeld: bool, p: nat, a: nat)
    requires p < PLAYERS && a < ACTIONS
    ensures Observed(s, buttons, legacyHeld).released[p][a]
            <==> s.released[p][a] || (s.configured[p][a].Some? && WentUp(s.observed[p], buttons[p], a))
  {
    WentUpIsLetGo(s.observed[p], buttons[p], a);
    assert Observed(s, buttons, legacyHeld).released[p]
        == LetRow(s.configured[p], s.observed[p], buttons[p], s.released[p]);
  }

  lemma LegacyMarkedIff(s: Stage, buttons: Masks, legacyHeld: bool)
    ensures var t := Observed(s, buttons, legacyHeld);
            && (t.legacyReleased <==> s.legacyReleased || (s.observedLegacy && !legacyHeld))
            && t == s.(released := t.released, legacyReleased := t.legacyReleased,
                       observed := buttons, observedLegacy := legacyHeld)
  {
  }

  /** What the frontend saw at one moment. */
  datatype Sight = Sight(buttons: Masks, legacyHeld: bool)

  function Watched(s: Stage, seen: seq<Sight>): Stage {
    if seen == [] then s
    else
      var t, last := Watched(s, seen[..|seen| - 1]), seen[|seen| - 1];
      Observed(t, last.buttons, last.legacyHeld)
  }

  /** The sight before the `i`-th one. */
  function Earlier(s: Stage, seen: seq<Sight>, i: nat): Sight
    requires i <= |seen|
  {
    if i == 0 then Sight(s.observed, s.observedLegacy) else seen[i - 1]
  }

  ghost predicate WentUpSometime(s: Stage, seen: seq<Sight>, p: nat, a: nat)
    requires p < PLAYERS && a < ACTIONS
  {
    exists i :: 0 <= i < |seen| && WentUp(Earlier(s, seen, i).buttons[p], seen[i].buttons[p], a)
  }

  ghost predicate LegacyWentUpSometime(s: Stage, seen: seq<Sight>) {
    exists i :: 0 <= i < |seen| && Earlier(s, seen, i).legacyHeld && !seen[i].legacyHeld
  }

  lemma OneMoreSight(s: Stage, seen: seq<Sight>, last: Sight, p: nat, a: nat)
    requires p < PLAYERS && a < ACTIONS
    ensures WentUpSometime(s, seen + [last], p, a)
            <==> WentUpSometime(s, seen, p, a)
                 || WentUp(Earlier(s, seen, |seen|).buttons[p], last.buttons[p], a)
  {
    EarlierInBoth(s, seen, last);
    if WentUp(Earlier(s, seen, |seen|).buttons[p], last.buttons[p], a) {
      assert (seen + [last])[|seen|] == last;
    }
  }

  lemma OneMoreLegacySight(s: Stage, seen: seq<Sight>, last: Sight)
    ensures LegacyWentUpSometime(s, seen + [last])
            <==> LegacyWentUpSometime(s, seen) || (Earlier(s, seen, |seen|).legacyHeld && !last.legacyHeld)
  {
    EarlierInBoth(s, seen, last);
    if Earlier(s, seen, |seen|).legacyHeld && !last.legacyHeld {
      assert (seen + [last])[|seen|] == last;
    }
  }

  lemma EarlierInBoth(s: Stage, seen: seq<Sight>, last: Sight)
    ensures forall i :: 0 <= i <= |seen| ==> Earlier(s, seen + [last], i) == Earlier(s, seen, i)
    ensures forall i :: 0 <= i < |seen| ==> (seen + [last])[i] == seen[i]
  {
  }

  /** However often the buttons are looked at, no release is forgotten and none is made up. */
  lemma {:induction false} NoReleaseMissed(s: Stage, seen: seq<Sight>, p: nat, a: nat)
    requires p < PLAYERS && a < ACTIONS
    ensures Watched(s, seen).configured == s.configured
    ensures Sight(Watched(s, seen).observed, Watched(s, seen).observedLegacy) == Earlier(s, seen, |seen|)
    ensures Watched(s, seen).released[p][a]
            <==> s.released[p][a] || (s.configured[p][a].Some? && WentUpSometime(s, seen, p, a))
    ensures Watched(s, seen).legacyReleased <==> s.legacyReleased || LegacyWentUpSometime(s, seen)
  {
    if seen != [] {
      var front, last := seen[..|seen| - 1], seen[|seen| - 1];
      NoReleaseMissed(s, front, p, a);
      MarkedIff(Watched(s, front), last.buttons, last.legacyHeld, p, a);
      LegacyMarkedIff(Watched(s, front), last.buttons, last.legacyHeld);
      assert seen == front + [last];
      OneMoreSight(s, front, last, p, a);
      OneMoreLegacySight(s, front, last);
    }
  }

  // ---------------------------------------------------------------- resets

  ghost predicate ResetDue(s: Stage) {
    s.rearm || s.legacyReleased || exists p, a :: 0 <= p < PLAYERS && 0 <= a < ACTIONS && s.released[p][a]
  }

  /** A reset is consumed exactly when one is due and nothing is staged, in flight or live; all flags go with it. */
  lemma ConsumedIff(s: Stage)
    ensures var free := s.inFlight == 0 && s.timeline.log == [] && s.preview.None? && s.owner != LiveFrame;
            var t := Rearmed(s);
            if ResetDue(s) && free then
              && !ResetDue(t)
              && t == s.(timeline := t.timeline, rearm := false, legacyReleased := false, released := t.released)
              && t.timeline == s.timeline.(host := s.timeline.host.(state := t.timeline.host.state))
            else t == s
  {
  }

  /** A reset puts every phase at rest; a release puts that target's phase at rest and no other. */
  lemma ConsumedPhases(s: Stage, p: nat, a: nat)
    requires p < PLAYERS && a < ACTIONS
    requires ResetDue(s) && s.inFlight == 0 && s.timeline.log == [] && s.preview.None? && s.owner != LiveFrame
    ensures var before, after := s.timeline.host.state, Rearmed(s).timeline.host.state;
            && after.configured[p][a] == (if s.rearm || s.released[p][a] then 0 else before.configured[p][a])
            && after.legacyPhase == (if s.rearm || s.legacyReleased then 0 else before.legacyPhase)
  {
  }

  /** Any change of the effective input, to the patterns or elsewhere, starts every pattern anew. */
  lemma ChangeStartsAnew(s: Stage, patterns: Patterns, otherChange: bool, p: nat, a: nat)
    requires p < PLAYERS && a < ACTIONS
    requires s.inFlight == 0 && s.timeline.log == [] && s.preview.None? && s.owner != LiveFrame
    requires otherChange || patterns != s.configured
    ensures var t := Rearmed(Synced(s, patterns, otherChange));
            && t.configured == patterns && !t.rearm
            && t.timeline.host.state.configured[p][a] == 0 && t.timeline.host.state.legacyPhase == 0
  {
  }

  lemma UnchangedKeeps(s: Stage)
    ensures Synced(s, s.configured, false) == s
  {
  }

  /**
   Let go and pressed again between two frames: although no frame saw the button up, the next hold starts its pattern
   anew once the release was noticed and nothing was staged or in flight.
   */
  lemma NoticedReleaseRestarts(s: Stage, seen: seq<Sight>, hold: seq<FrameInput>, p: nat, a: nat, pattern: Pattern,
                               i: nat)
    requires p < PLAYERS && a < ACTIONS && ValidInputs(hold) && i < |hold|
    requires pattern.IsValid() && DownThroughout(hold, p, a, pattern) && s.configured[p][a].Some?
    requires s.inFlight == 0 && s.timeline.log == [] && s.preview.None? && s.owner != LiveFrame
    requires WentUpSometime(s, seen, p, a)
    ensures var at := Rearmed(Watched(s, seen)).timeline.host.state;
            OutputAt(at, hold, i)[p] & BUTTON[a] != 0 <==> !Blanked(at, hold, p, i) && i % pattern.period < pattern.on
  {
    NoReleaseMissed(s, seen, p, a);
    WatchingStagesNothing(s, seen);
    var t := Watched(s, seen);
    assert t.released[p][a];
    ConsumedPhases(t, p, a);
    HoldOnController(Rearmed(t).timeline.host.state, hold, p, a, pattern, i);
  }

  lemma {:induction false} WatchingStagesNothing(s: Stage, seen: seq<Sight>)
    ensures var t := Watched(s, seen);
            && t.timeline == s.timeline && t.inFlight == s.inFlight && t.preview == s.preview && t.owner == s.owner
            && t.rearm == s.rearm
  {
    if seen != [] {
      WatchingStagesNothing(s, seen[..|seen| - 1]);
    }
  }

  // ---------------------------------------------------------------- what a tick hands on

  /** The button of action `a` is down and has a pattern. */
  predicate Driven(configured: Patterns, buttons: Masks, p: nat, a: nat)
    requires p < PLAYERS && a < ACTIONS
  {
    configured[p][a].Some? && buttons[p] & BUTTON[a] != 0
  }

  /** The input may be changed by autofire. */
  ghost predicate AutofireActs(configured: Patterns, buttons: Masks, legacyHeld: bool) {
    legacyHeld || exists p, a :: 0 <= p < PLAYERS && 0 <= a < ACTIONS && Driven(configured, buttons, p, a)
  }

  lemma DrivenIsHeld(configured: Patterns, buttons: Masks, p: nat, a: nat)
    requires p < PLAYERS && a < ACTIONS
    ensures Driven(configured, buttons, p, a) <==> configured[p][a].Some? && Held(buttons[p], a)
  {
    HeldIsBit(buttons[p], a);
  }

  lemma ActsIff(configured: Patterns, buttons: Masks, legacyHeld: bool)
    ensures NeedsStaging(FrameInput(legacyHeld, configured, buttons)) <==> AutofireActs(configured, buttons, legacyHeld)
  {
    forall p, a | 0 <= p < PLAYERS && 0 <= a < ACTIONS
      ensures Driven(configured, buttons, p, a) <==> configured[p][a].Some? && Held(buttons[p], a)
    {
      DrivenIsHeld(configured, buttons, p, a);
    }
    if AutofireActs(configured, buttons, legacyHeld) && !legacyHeld {
      var p, a :| 0 <= p < PLAYERS && 0 <= a < ACTIONS && Driven(configured, buttons, p, a);
      assert Held(buttons[p], a);
    }
  }

  /** A tick that asks for no frame hands on none and changes nothing. */
  lemma NoFrameNothing(s: Stage, r: Request)
    requires ValidPatterns(s.configured) && r.n == 0
    ensures Prepared(s, r) == s && Handed(s, r).None?
  {
  }

  /** A new stage rests, and nothing is due on it. */
  lemma StartsAtRest(configured: Patterns, p: nat, a: nat)
    requires p < PLAYERS && a < ACTIONS
    ensures var s := Initial(configured);
            && s.configured == configured && State(s).configured[p][a] == 0 && State(s).legacyPhase == 0
            && !ResetDue(s) && s.timeline.log == [] && s.inFlight == 0 && s.owner == Gameplay && s.capture == Off
  {
  }

  /** Frames that were staged earlier come first, and nothing else happens. */
  lemma StagedComesFirst(s: Stage, r: Request)
    requires ValidPatterns(s.configured) && s.timeline.log != [] && r.n > 0
    ensures Prepared(s, r) == s && Handed(s, r).Some?
    ensures var frames := Handed(s, r).value;
            && |frames| == Min(r.n, |s.timeline.log|)
            && forall i :: 0 <= i < |frames| ==> frames[i] == s.timeline.log[i].frame
  {
  }

  /** Then a replay: its next frames, up to its next event and its end; with none left it is over. */
  lemma ReplayComesNext(s: Stage, r: Request)
    requires ValidPatterns(s.configured) && s.timeline.log == [] && r.n > 0
    requires s.timeline.host.player.Some? && s.timeline.host.queued == 0
    requires s.timeline.host.player.value.cursor <= |s.timeline.host.player.value.frames|
    ensures var p, t := s.timeline.host.player.value, Prepared(s, r);
            var left := Min(Min(r.n, r.untilEvent), |p.frames| - p.cursor);
            if left == 0 then
              Handed(t, r).None? && t.timeline.host.player.None? && t.timeline.log == []
            else
              && Handed(t, r) == Some(p.frames[p.cursor..p.cursor + left])
              && t.timeline.host.player == s.timeline.host.player
              && forall i :: 0 <= i < |t.timeline.log| ==> t.timeline.log[i].playback && !t.timeline.log[i].record
  {
    var p, t := s.timeline.host.player.value, Prepared(s, r);
    var left := Min(Min(r.n, r.untilEvent), |p.frames| - p.cursor);
    if left > 0 {
      var frames := p.frames[p.cursor..p.cursor + left];
      assert Peek(p, 0, Min(r.n, r.untilEvent)) == frames;
      assert t.timeline.log == [] + Entries(PlaybackBatch<AutofireState>(frames));
      assert FramesOf(t.timeline.log[..left]) == frames;
    }
  }

  /**
   Then live input: staged exactly when it is recorded or autofire may act on it. What is handed on is what executing
   frame by frame would press, with everything else as asked, and only a recording's frames are marked for it.
   */
  lemma LiveComesLast(s: Stage, r: Request)
    requires ValidPatterns(s.configured) && s.timeline.log == [] && r.n > 0 && s.timeline.host.player.None?
    ensures var t, start := Prepared(s, r), State(Rearmed(s));
            var recorded := s.capture == Starting || s.capture == On;
            if recorded || AutofireActs(s.configured, r.buttons, r.legacyHeld) then
              && Handed(t, r) == Some(FramesOf(t.timeline.log))
              && StagedLive(t.timeline.log, start, FrameInput(r.legacyHeld, s.configured, r.buttons), r, recorded)
            else Handed(t, r).None? && t.timeline.log == []
  {
    var input := FrameInput(r.legacyHeld, s.configured, r.buttons);
    ActsIff(s.configured, r.buttons, r.legacyHeld);
    var u := Rearmed(s);
    if Recording(u) || NeedsStaging(input) {
      LiveIsExecuted(State(u), input, r, Recording(u));
      var log := Entries(LiveBatch(State(u), input, r.n, r.others, Recording(u)));
      assert [] + log == log && log[..r.n] == log;
    }
  }

  /** As many frames as asked for, each with the buttons that execution from `start` presses. */
  predicate StagedLive(log: seq<Entry<AutofireState>>, start: AutofireState, input: FrameInput, r: Request,
                       recorded: bool)
    requires ValidInput(input)
  {
    && |log| == r.n
    && forall i :: 0 <= i < r.n ==> && log[i].frame == Frame(OutputAt(start, Repeated(input, r.n), i), r.others)
                                    && log[i].record == recorded && !log[i].playback
  }

  lemma LiveIsExecuted(start: AutofireState, input: FrameInput, r: Request, recorded: bool)
    requires ValidInput(input)
    ensures StagedLive(Entries(LiveBatch(start, input, r.n, r.others, recorded)), start, input, r, recorded)
  {
  }

  /** The states travel with the frames exactly when a pattern is set or legacy turbo is held or not at rest. */
  lemma StatesTravelIff(state: AutofireState, input: FrameInput, n: nat, others: nat, record: bool)
    requires ValidInput(input) && n > 0
    ensures var travel := || input.legacyHeld || state.legacyPhase != 0
                          || exists p, a :: 0 <= p < PLAYERS && 0 <= a < ACTIONS && input.configured[p][a].Some?;
            var batch := LiveBatch(state, input, n, others, record);
            && |batch.states| == (if travel then n else 0)
            && forall i :: 0 <= i < |batch.states| ==> batch.states[i] == After(state, Repeated(input, n)[..i + 1])
  {
  }

  /** A result answers its requests, never more than are in flight. */
  lemma ResultAnswers(s: Stage, requests: nat, frames: nat)
    ensures var t := Finished(s, requests, frames);
            && t.inFlight == Max(0, s.inFlight - requests)
            && t == s.(inFlight := t.inFlight, timeline := Committed(s.timeline, frames))
  {
  }

  /**
   A frame may be asked for while the player is in control and the start of a recording is not being captured. A
   second request may overlap the first exactly when nothing is recorded, played or staged and autofire has no say.
   */
  lemma RequestAllowedIff(s: Stage, r: Request, sent: bool)
    ensures var alone := || s.capture == On || s.timeline.host.player.Some? || s.timeline.log != []
                         || AutofireActs(s.configured, r.buttons, r.legacyHeld);
            StagingRuns.Allowed(s, StagingRuns.Tick(r, sent))
            <==> && s.owner == Gameplay && s.capture != Starting
                 && (s.inFlight == 0 || (s.inFlight == 1 && !alone))
  {
    ActsIff(s.configured, r.buttons, r.legacyHeld);
  }
}
