/**
 Autofire on the raw button masks: which bit each action owns, what one frame does to it, and how holds, releases
 and the legacy turbo read on the controller.
 */
module AutofireButtons {
  import opened Common
  import opened Autofire

  /** The bits of actions 0 to 7: A, B, X, Y, L, R, Start and Select. */
  const BUTTON: seq<bv8> := [0x01, 0x02, 0x40, 0x80, 0x10, 0x20, 0x04, 0x08]

  /** A pattern lets a frame pass in this phase. */
  predicate Lets(pattern: Option<Pattern>, phase: byte)
    requires pattern.Some? ==> pattern.value.IsValid()
  {
    pattern.Some? ==> phase as nat % pattern.value.period < pattern.value.on
  }

  lemma HeldIsBit(mask: bv8, a: nat)
    requires a < ACTIONS
    ensures Held(mask, a) <==> mask & BUTTON[a] != 0
  {
  }

  predicate RowValid(patterns: PatternRow) {
    forall a :: 0 <= a < ACTIONS && patterns[a].Some? ==> patterns[a].value.IsValid()
  }

  /** One row after its patterns had their say: button by button, as the controller numbers them. */
  lemma FilteredButtons(mask: bv8, patterns: PatternRow, phases: PhaseRow)
    requires RowValid(patterns)
    ensures var out := Filtered(mask, patterns, phases, ACTIONS);
            && (out & 0x01 != 0 <==> mask & 0x01 != 0 && Lets(patterns[0], phases[0]))
            && (out & 0x02 != 0 <==> mask & 0x02 != 0 && Lets(patterns[1], phases[1]))
            && (out & 0x40 != 0 <==> mask & 0x40 != 0 && Lets(patterns[2], phases[2]))
            && (out & 0x80 != 0 <==> mask & 0x80 != 0 && Lets(patterns[3], phases[3]))
            && (out & 0x10 != 0 <==> mask & 0x10 != 0 && Lets(patterns[4], phases[4]))
            && (out & 0x20 != 0 <==> mask & 0x20 != 0 && Lets(patterns[5], phases[5]))
            && (out & 0x04 != 0 <==> mask & 0x04 != 0 && Lets(patterns[6], phases[6]))
            && (out & 0x08 != 0 <==> mask & 0x08 != 0 && Lets(patterns[7], phases[7]))
  {
    var out := Filtered(mask, patterns, phases, ACTIONS);
    forall a | 0 <= a < ACTIONS
      ensures out & BUTTON[a] != 0 <==> mask & BUTTON[a] != 0 && Lets(patterns[a], phases[a])
    {
      FilteredBit(mask, patterns, phases, ACTIONS, a);
      HeldIsBit(mask, a);
      HeldIsBit(out, a);
    }
    EightButtons(out, mask, patterns, phases);
  }

  lemma EightButtons(out: bv8, mask: bv8, patterns: PatternRow, phases: PhaseRow)
    requires RowValid(patterns)
    requires forall a :: 0 <= a < ACTIONS ==>
                           (out & BUTTON[a] != 0 <==> mask & BUTTON[a] != 0 && Lets(patterns[a], phases[a]))
    ensures out & 0x01 != 0 <==> mask & 0x01 != 0 && Lets(patterns[0], phases[0])
    ensures out & 0x02 != 0 <==> mask & 0x02 != 0 && Lets(patterns[1], phases[1])
    ensures out & 0x40 != 0 <==> mask & 0x40 != 0 && Lets(patterns[2], phases[2])
    ensures out & 0x80 != 0 <==> mask & 0x80 != 0 && Lets(patterns[3], phases[3])
    ensures out & 0x10 != 0 <==> mask & 0x10 != 0 && Lets(patterns[4], phases[4])
    ensures out & 0x20 != 0 <==> mask & 0x20 != 0 && Lets(patterns[5], phases[5])
    ensures out & 0x04 != 0 <==> mask & 0x04 != 0 && Lets(patterns[6], phases[6])
    ensures out & 0x08 != 0 <==> mask & 0x08 != 0 && Lets(patterns[7], phases[7])
  {
    assert BUTTON[0] == 0x01 && BUTTON[1] == 0x02 && BUTTON[2] == 0x40 && BUTTON[3] == 0x80;
    assert BUTTON[4] == 0x10 && BUTTON[5] == 0x20 && BUTTON[6] == 0x04 && BUTTON[7] == 0x08;
  }

  // ---------------------------------------------------------------- holds

  /** The player's legacy turbo blanks this frame. */
  predicate Blanked(state: AutofireState, inputs: seq<FrameInput>, p: nat, i: nat)
    requires ValidInputs(inputs) && i < |inputs|
  {
    p == 0 && inputs[i].legacyHeld && After(state, inputs[..i]).legacyPhase as nat % 2 == 0
  }

  /** The button of action `a` is down on the raw mask on every frame, under this pattern. */
  predicate DownThroughout(inputs: seq<FrameInput>, p: nat, a: nat, pattern: Pattern)
    requires p < PLAYERS && a < ACTIONS
  {
    forall i :: 0 <= i < |inputs| ==>
                  inputs[i].configured[p][a] == Some(pattern) && inputs[i].buttons[p] & BUTTON[a] != 0
  }

  /** A button held from rest is let through on its i-th frame exactly when i mod period is below the on-frames. */
  lemma HoldOnController(state: AutofireState, inputs: seq<FrameInput>, p: nat, a: nat, pattern: Pattern, i: nat)
    requires p < PLAYERS && a < ACTIONS && ValidInputs(inputs) && i < |inputs|
    requires pattern.IsValid() && state.configured[p][a] == 0 && DownThroughout(inputs, p, a, pattern)
    ensures OutputAt(state, inputs, i)[p] & BUTTON[a] != 0
            <==> !Blanked(state, inputs, p, i) && i % pattern.period < pattern.on
  {
    forall j | 0 <= j < |inputs|
      ensures Held(inputs[j].buttons[p], a)
    {
      HeldIsBit(inputs[j].buttons[p], a);
    }
    HoldClosedForm(state, inputs, p, a, pattern, i);
    HeldIsBit(OutputAt(state, inputs, i)[p], a);
    BlankedPhase(After(state, inputs[..i]));
  }

  lemma BlankedPhase(at: AutofireState)
    ensures LegacyNext(at, true) % 2 == 1 <==> at.legacyPhase as nat % 2 == 0
  {
  }

  /** A frame on which the button is up puts its phase at rest, and one without legacy turbo the legacy phase. */
  lemma ReleaseRests(state: AutofireState, input: FrameInput, p: nat, a: nat)
    requires ValidInput(input) && p < PLAYERS && a < ACTIONS
    ensures input.buttons[p] & BUTTON[a] == 0 || input.configured[p][a].None?
            ==> NextState(state, input).configured[p][a] == 0
    ensures !input.legacyHeld ==> NextState(state, input).legacyPhase == 0
  {
    HeldIsBit(input.buttons[p], a);
  }

  /**
   Every hold starts its pattern anew: whatever happened before, once the button was up for a frame, the i-th frame of
   the next hold passes exactly when i mod period is below the on-frames.
   */
  lemma HoldAfterRelease(state: AutofireState, before: seq<FrameInput>, up: FrameInput, hold: seq<FrameInput>,
                         p: nat, a: nat, pattern: Pattern, i: nat)
    requires p < PLAYERS && a < ACTIONS && ValidInputs(before) && ValidInput(up) && ValidInputs(hold) && i < |hold|
    requires pattern.IsValid() && DownThroughout(hold, p, a, pattern)
    requires up.buttons[p] & BUTTON[a] == 0 || up.configured[p][a].None?
    ensures var at := NextState(After(state, before), up);
            OutputAt(at, hold, i)[p] & BUTTON[a] != 0 <==> !Blanked(at, hold, p, i) && i % pattern.period < pattern.on
  {
    ReleaseRests(After(state, before), up, p, a);
    HoldOnController(NextState(After(state, before), up), hold, p, a, pattern, i);
  }

  /** A frame moves a phase on by one, around the pattern's own period, while its button is down, and rests it else. */
  lemma PhaseMoves(state: AutofireState, input: FrameInput, p: nat, a: nat)
    requires ValidInput(input) && p < PLAYERS && a < ACTIONS
    ensures var before, after := state.configured[p][a], NextState(state, input).configured[p][a];
            match input.configured[p][a]
            case None => after == 0
            case Some(pattern) =>
              after as nat == if input.buttons[p] & BUTTON[a] != 0 then (before as nat + 1) % pattern.period else 0
    ensures NextState(state, input).legacyPhase as nat
            == if input.legacyHeld then (state.legacyPhase as nat + 1) % 256 else 0
  {
    HeldIsBit(input.buttons[p], a);
  }

  /** A reset rests exactly the phases whose button is up or whose pattern is gone, and the legacy phase likewise. */
  lemma ResetMeans(state: AutofireState, input: FrameInput, p: nat, a: nat)
    requires ValidInput(input) && p < PLAYERS && a < ACTIONS
    ensures Reset(state, input).configured[p][a]
            == if input.configured[p][a].Some? && input.buttons[p] & BUTTON[a] != 0 then state.configured[p][a] else 0
    ensures Reset(state, input).legacyPhase == if input.legacyHeld then state.legacyPhase else 0
  {
    HeldIsBit(input.buttons[p], a);
  }

  // ---------------------------------------------------------------- legacy turbo

  /** Legacy turbo touches player one alone: it empties that mask on every second frame of a hold, from the first. */
  lemma LegacyOnController(state: AutofireState, inputs: seq<FrameInput>, i: nat, p: nat)
    requires ValidInputs(inputs) && i < |inputs| && p < PLAYERS && state.legacyPhase == 0
    requires forall j :: 0 <= j < |inputs| ==> inputs[j].legacyHeld
    ensures var at := After(state, inputs[..i]);
            OutputAt(state, inputs, i)[p]
            == if p == 0 && i % 2 == 0 then 0
               else Filtered(inputs[i].buttons[p], inputs[i].configured[p], at.configured[p], ACTIONS)
  {
    LegacyAlternates(state, inputs, i);
    LegacyLeavesOthers(After(state, inputs[..i]), inputs[i], p);
  }

  lemma LegacyLeavesOthers(at: AutofireState, input: FrameInput, p: nat)
    requires ValidInput(input) && p < PLAYERS
    ensures p > 0 || !input.legacyHeld
            ==> Output(at, input)[p] == Filtered(input.buttons[p], input.configured[p], at.configured[p], ACTIONS)
  {
  }

  // ---------------------------------------------------------------- when staging is needed

  /** A frame leaves the buttons alone and does to the state what a reset of released targets does. */
  predicate PlainFrame(state: AutofireState, input: FrameInput)
    requires ValidInput(input)
  {
    Output(state, input) == input.buttons && NextState(state, input) == Reset(state, input)
  }

  /** A state with one phase set. */
  function OnePhase(p: nat, a: nat, phase: byte): (s: AutofireState)
    requires p < PLAYERS && a < ACTIONS
    ensures s.configured[p][a] == phase
    ensures phase < MAX_PERIOD ==> Bounded(s)
  {
    var rows: Phases := [IDLE_ROW, IDLE_ROW, IDLE_ROW, IDLE_ROW, IDLE_ROW];
    AutofireState(0, rows[p := IDLE_ROW[a := phase]])
  }

  /** Staging is skipped exactly for the inputs whose frame is plain from every state. */
  lemma StagingNeededIff(input: FrameInput)
    requires ValidInput(input)
    ensures !NeedsStaging(input) <==> forall state :: Bounded(state) ==> PlainFrame(state, input)
  {
    if !NeedsStaging(input) {
      forall state | Bounded(state)
        ensures PlainFrame(state, input)
      {
        FastPathExact(state, input);
      }
    } else if input.legacyHeld {
      LegacyIsNotPlain(OnePhase(0, 0, 0), input);
    } else {
      var p, a :| 0 <= p < PLAYERS && 0 <= a < ACTIONS && input.configured[p][a].Some? && Held(input.buttons[p], a);
      var phase: byte := if input.configured[p][a].value.period == 1 then 1 else 0;
      HeldIsNotPlain(OnePhase(p, a, phase), input, p, a);
    }
  }

  lemma LegacyIsNotPlain(state: AutofireState, input: FrameInput)
    requires ValidInput(input) && input.legacyHeld && Bounded(state)
    ensures !PlainFrame(state, input)
  {
    assert NextState(state, input).legacyPhase != state.legacyPhase;
  }

  lemma HeldIsNotPlain(state: AutofireState, input: FrameInput, p: nat, a: nat)
    requires ValidInput(input) && p < PLAYERS && a < ACTIONS
    requires input.configured[p][a].Some? && Held(input.buttons[p], a)
    requires state.configured[p][a] == if input.configured[p][a].value.period == 1 then 1 else 0
    ensures !PlainFrame(state, input)
  {
    assert Reset(state, input).configured[p][a] == state.configured[p][a];
    assert NextState(state, input).configured[p][a]
        == NextPhase(input.configured[p][a], true, state.configured[p][a]);
    MovesOn(input.configured[p][a].value.period);
  }

  lemma MovesOn(period: nat)
    requires period >= 1
    ensures period == 1 ==> (1 + 1) % period == 0
    ensures period >= 2 ==> (0 + 1) % period == 1
  {
  }
}
