/** Autofire: a per-target phase machine over five players and eight actions, plus the legacy turbo. */
module Autofire {
  import opened Common

  const PLAYERS: nat := 5
  const ACTIONS: nat := 8
  const MAX_PERIOD: nat := 60

  datatype Pattern = Pattern(period: nat, on: nat) {
    predicate IsValid() {
      1 <= on <= period <= MAX_PERIOD
    }
  }

  const IDLE_ROW: PhaseRow := [0, 0, 0, 0, 0, 0, 0, 0]
  const UNSET_ROW: PatternRow := [None, None, None, None, None, None, None, None]

  type PhaseRow = s: seq<byte> | |s| == ACTIONS witness [0, 0, 0, 0, 0, 0, 0, 0]
  type Phases = s: seq<PhaseRow> | |s| == PLAYERS witness [IDLE_ROW, IDLE_ROW, IDLE_ROW, IDLE_ROW, IDLE_ROW]
  type PatternRow = s: seq<Option<Pattern>> | |s| == ACTIONS witness [None, None, None, None, None, None, None, None]
  type Patterns = s: seq<PatternRow> | |s| == PLAYERS witness [UNSET_ROW, UNSET_ROW, UNSET_ROW, UNSET_ROW, UNSET_ROW]
  type Masks = s: seq<bv8> | |s| == PLAYERS witness [0, 0, 0, 0, 0]

  datatype AutofireState = AutofireState(legacyPhase: byte, configured: Phases)

  predicate ValidPatterns(configured: Patterns) {
    forall p, a :: 0 <= p < PLAYERS && 0 <= a < ACTIONS && configured[p][a].Some? ==> configured[p][a].value.IsValid()
  }

  /** Every configured phase is below the longest period. */
  predicate Bounded(state: AutofireState) {
    forall p, a :: 0 <= p < PLAYERS && 0 <= a < ACTIONS ==> state.configured[p][a] < MAX_PERIOD
  }

  // ---------------------------------------------------------------- button masks

  function Bit(action: nat): bv8
    requires action < ACTIONS
  {
    match action
    case 0 => 0x01
    case 1 => 0x02
    case 2 => 0x40
    case 3 => 0x80
    case 4 => 0x10
    case 5 => 0x20
    case 6 => 0x04
    case _ => 0x08
  }

  predicate Held(mask: bv8, action: nat)
    requires action < ACTIONS
  {
    mask & Bit(action) != 0
  }

  function Release(mask: bv8, action: nat): bv8
    requires action < ACTIONS
  {
    mask & !Bit(action)
  }

  lemma ReleaseBit(mask: bv8, bit: bv8, other: bv8)
    ensures bit & other == 0 ==> (mask & !bit) & other == mask & other
    ensures (mask & !bit) & bit == 0
  {
  }

  lemma BitsDistinct(a: nat, b: nat)
    requires a < ACTIONS && b < ACTIONS && a != b
    ensures Bit(a) & Bit(b) == 0
  {
  }

  /** Actions own distinct bits: releasing one leaves every other as it was. */
  lemma ReleaseOnlyThat(mask: bv8, a: nat, b: nat)
    requires a < ACTIONS && b < ACTIONS
    ensures Held(Release(mask, a), b) <==> a != b && Held(mask, b)
  {
    ReleaseBit(mask, Bit(a), Bit(b));
    if a != b {
      BitsDistinct(a, b);
    }
  }

  // ---------------------------------------------------------------- one frame, target by target

  predicate Passes(pattern: Pattern, phase: nat)
    requires pattern.IsValid()
  {
    phase % pattern.period < pattern.on
  }

  function NextPhase(pattern: Option<Pattern>, held: bool, phase: byte): (next: byte)
    requires pattern.Some? ==> pattern.value.IsValid()
    ensures next < MAX_PERIOD
  {
    if pattern.None? || !held then 0 else (phase as int + 1) % pattern.value.period
  }

  function NextPhases(configured: Patterns, buttons: Masks, phases: Phases): Phases
    requires ValidPatterns(configured)
  {
    seq(PLAYERS, p requires 0 <= p < PLAYERS =>
      seq(ACTIONS, a requires 0 <= a < ACTIONS => NextPhase(configured[p][a], Held(buttons[p], a), phases[p][a])))
  }

  /** The mask after the first `n` actions have had their say, in action order. */
  function Filtered(mask: bv8, patterns: PatternRow, phases: PhaseRow, n: nat): bv8
    requires n <= ACTIONS && forall a :: 0 <= a < ACTIONS && patterns[a].Some? ==> patterns[a].value.IsValid()
  {
    if n == 0 then mask
    else
      var m, a := Filtered(mask, patterns, phases, n - 1), n - 1;
      if patterns[a].Some? && Held(mask, a) && !Passes(patterns[a].value, phases[a]) then Release(m, a) else m
  }

  function LegacyNext(state: AutofireState, legacyHeld: bool): byte {
    if legacyHeld then (state.legacyPhase as int + 1) % 256 else 0
  }

  function Pulsed(state: AutofireState, configured: Patterns, buttons: Masks): Masks
    requires ValidPatterns(configured)
  {
    seq(PLAYERS, p requires 0 <= p < PLAYERS => Filtered(buttons[p], configured[p], state.configured[p], ACTIONS))
  }

  /** The input of one emulated frame. */
  datatype FrameInput = FrameInput(legacyHeld: bool, configured: Patterns, buttons: Masks)

  predicate ValidInput(input: FrameInput) {
    ValidPatterns(input.configured)
  }

  function NextState(state: AutofireState, input: FrameInput): AutofireState
    requires ValidInput(input)
  {
    AutofireState(LegacyNext(state, input.legacyHeld), NextPhases(input.configured, input.buttons, state.configured))
  }

  function Output(state: AutofireState, input: FrameInput): Masks
    requires ValidInput(input)
  {
    var pulsed := Pulsed(state, input.configured, input.buttons);
    if input.legacyHeld && LegacyNext(state, true) % 2 == 1 then pulsed[0 := 0] else pulsed
  }

  /** Filtering is per target: an action stays held unless its own pattern blanks it. */
  lemma {:induction false} FilteredBit(mask: bv8, patterns: PatternRow, phases: PhaseRow, n: nat, a: nat)
    requires n <= ACTIONS && a < ACTIONS
    requires forall b :: 0 <= b < ACTIONS && patterns[b].Some? ==> patterns[b].value.IsValid()
    ensures Held(Filtered(mask, patterns, phases, n), a)
            <==> Held(mask, a) && (a < n && patterns[a].Some? ==> Passes(patterns[a].value, phases[a]))
  {
    if n > 0 {
      FilteredBit(mask, patterns, phases, n - 1, a);
      ReleaseOnlyThat(Filtered(mask, patterns, phases, n - 1), n - 1, a);
    }
  }

  // ---------------------------------------------------------------- the loops

  /** `apply_frame`: the mask is tested while it is being cleared, action by action. */
  method ApplyFrame(state: AutofireState, legacyHeld: bool, configured: Patterns, buttons: Masks)
    returns (next: AutofireState, out: Masks)
    requires ValidPatterns(configured) && Bounded(state)
    ensures next == NextState(state, FrameInput(legacyHeld, configured, buttons))
    ensures out == Output(state, FrameInput(legacyHeld, configured, buttons))
    ensures Bounded(next)
  {
    var phases := state.configured;
    out := buttons;
    for p := 0 to PLAYERS
      invariant forall q :: 0 <= q < p ==> phases[q] == NextPhases(configured, buttons, state.configured)[q]
      invariant forall q :: 0 <= q < p ==> out[q] == Filtered(buttons[q], configured[q], state.configured[q], ACTIONS)
      invariant forall q :: p <= q < PLAYERS ==> phases[q] == state.configured[q] && out[q] == buttons[q]
    {
      var mask, row := out[p], phases[p];
      for a := 0 to ACTIONS
        invariant forall b :: 0 <= b < a ==>
                                row[b] == NextPhase(configured[p][b], Held(buttons[p], b), state.configured[p][b])
        invariant forall b :: a <= b < ACTIONS ==> row[b] == state.configured[p][b]
        invariant mask == Filtered(buttons[p], configured[p], state.configured[p], a)
      {
        FilteredBit(buttons[p], configured[p], state.configured[p], a, a);
        if configured[p][a].None? || !Held(mask, a) {
          row := row[a := 0];
        } else {
          var pattern, phase := configured[p][a].value, row[a];
          if phase % pattern.period >= pattern.on {
            mask := Release(mask, a);
          }
          row := row[a := (phase as int + 1) % pattern.period];
        }
      }
      phases, out := phases[p := row], out[p := mask];
    }
    assert phases == NextPhases(configured, buttons, state.configured);
    assert out == Pulsed(state, configured, buttons);
    var legacyPhase: byte := 0;
    if legacyHeld {
      legacyPhase := (state.legacyPhase as int + 1) % 256;
      if legacyPhase % 2 == 1 {
        out := out[0 := 0];
      }
    }
    next := AutofireState(legacyPhase, phases);
  }

  function ResetPhases(configured: Patterns, buttons: Masks, phases: Phases): Phases {
    seq(PLAYERS, p requires 0 <= p < PLAYERS =>
      seq(ACTIONS, a requires 0 <= a < ACTIONS =>
        if configured[p][a].None? || !Held(buttons[p], a) then 0 else phases[p][a]))
  }

  function Reset(state: AutofireState, input: FrameInput): AutofireState {
    AutofireState(if input.legacyHeld then state.legacyPhase else 0,
                  ResetPhases(input.configured, input.buttons, state.configured))
  }

  method ResetReleased(state: AutofireState, legacyHeld: bool, configured: Patterns, buttons: Masks)
    returns (next: AutofireState)
    ensures next == Reset(state, FrameInput(legacyHeld, configured, buttons))
  {
    var phases := state.configured;
    for p := 0 to PLAYERS
      invariant forall q :: 0 <= q < p ==> phases[q] == ResetPhases(configured, buttons, state.configured)[q]
      invariant forall q :: p <= q < PLAYERS ==> phases[q] == state.configured[q]
    {
      var row := phases[p];
      for a := 0 to ACTIONS
        invariant forall b :: 0 <= b < a ==>
                                row[b] == if configured[p][b].None? || !Held(buttons[p], b) then 0
                                          else state.configured[p][b]
        invariant forall b :: a <= b < ACTIONS ==> row[b] == state.configured[p][b]
      {
        if configured[p][a].None? || !Held(buttons[p], a) {
          row := row[a := 0];
        }
      }
      phases := phases[p := row];
    }
    assert phases == ResetPhases(configured, buttons, state.configured);
    next := AutofireState(if legacyHeld then state.legacyPhase else 0, phases);
  }

  predicate NeedsStaging(input: FrameInput) {
    || input.legacyHeld
    || exists p, a :: 0 <= p < PLAYERS && 0 <= a < ACTIONS && input.configured[p][a].Some? && Held(input.buttons[p], a)
  }

  // ---------------------------------------------------------------- runs

  predicate ValidInputs(inputs: seq<FrameInput>) {
    forall i :: 0 <= i < |inputs| ==> ValidInput(inputs[i])
  }

  function After(state: AutofireState, inputs: seq<FrameInput>): AutofireState
    requires ValidInputs(inputs)
  {
    if inputs == [] then state
    else NextState(After(state, inputs[..|inputs| - 1]), inputs[|inputs| - 1])
  }

  function OutputAt(state: AutofireState, inputs: seq<FrameInput>, i: nat): Masks
    requires ValidInputs(inputs) && i < |inputs|
  {
    Output(After(state, inputs[..i]), inputs[i])
  }

  /** Phases stay below the longest period over every run, however the patterns change: `phase + 1` fits a byte. */
  lemma {:induction false} PhasesNeverOverflow(state: AutofireState, inputs: seq<FrameInput>)
    requires Bounded(state) && ValidInputs(inputs)
    ensures Bounded(After(state, inputs))
  {
    if inputs != [] {
      PhasesNeverOverflow(state, inputs[..|inputs| - 1]);
    }
  }

  lemma {:induction false} AfterSplit(state: AutofireState, first: seq<FrameInput>, second: seq<FrameInput>)
    requires ValidInputs(first + second)
    ensures ValidInputs(first) && ValidInputs(second)
    ensures After(state, first + second) == After(After(state, first), second)
  {
    assert ValidInputs(first) by {
      forall i | 0 <= i < |first| ensures ValidInput(first[i]) { assert (first + second)[i] == first[i]; }
    }
    assert ValidInputs(second) by {
      forall i | 0 <= i < |second| ensures ValidInput(second[i]) { assert (first + second)[|first| + i] == second[i]; }
    }
    if second == [] {
      assert first + second == first;
    } else {
      var rest := second[..|second| - 1];
      assert (first + second)[..|first + second| - 1] == first + rest;
      AfterSplit(state, first, rest);
    }
  }

  lemma AfterOneMore(state: AutofireState, inputs: seq<FrameInput>, i: nat)
    requires ValidInputs(inputs) && i < |inputs|
    ensures After(state, inputs[..i + 1]) == NextState(After(state, inputs[..i]), inputs[i])
  {
    assert inputs[..i + 1][..i] == inputs[..i];
  }

  /** `preview`: the outputs and the states after each frame. */
  method Preview(state: AutofireState, legacyHeld: bool, configured: Patterns, buttons: seq<Masks>)
    returns (transformed: seq<Masks>, states: seq<AutofireState>)
    requires ValidPatterns(configured) && Bounded(state)
    ensures ValidInputs(Frames(legacyHeld, configured, buttons))
    ensures transformed == PreviewOutputs(state, Frames(legacyHeld, configured, buttons))
    ensures states == PreviewStates(state, Frames(legacyHeld, configured, buttons))
  {
    ghost var inputs := Frames(legacyHeld, configured, buttons);
    var at := state;
    transformed, states := [], [];
    for i := 0 to |buttons|
      invariant Bounded(at) && at == After(state, inputs[..i])
      invariant transformed == PreviewOutputs(state, inputs)[..i]
      invariant states == PreviewStates(state, inputs)[..i]
    {
      AfterOneMore(state, inputs, i);
      var out;
      at, out := ApplyFrame(at, legacyHeld, configured, buttons[i]);
      assert PreviewOutputs(state, inputs)[i] == out && PreviewStates(state, inputs)[i] == at;
      transformed, states := transformed + [out], states + [at];
    }
  }

  function PreviewOutputs(state: AutofireState, inputs: seq<FrameInput>): (outputs: seq<Masks>)
    requires ValidInputs(inputs)
    ensures |outputs| == |inputs|
  {
    seq(|inputs|, i requires 0 <= i < |inputs| => OutputAt(state, inputs, i))
  }

  function Frames(legacyHeld: bool, configured: Patterns, buttons: seq<Masks>): (inputs: seq<FrameInput>)
    ensures |inputs| == |buttons|
    ensures ValidPatterns(configured) ==> ValidInputs(inputs)
  {
    seq(|buttons|, i requires 0 <= i < |buttons| => FrameInput(legacyHeld, configured, buttons[i]))
  }

  function PreviewStates(state: AutofireState, inputs: seq<FrameInput>): (states: seq<AutofireState>)
    requires ValidInputs(inputs)
    ensures |states| == |inputs|
  {
    seq(|inputs|, i requires 0 <= i < |inputs| => After(state, inputs[..i + 1]))
  }

  // ---------------------------------------------------------------- what the player sees

  /** The player holds this target, under this pattern, on every frame. */
  predicate HeldThroughout(inputs: seq<FrameInput>, p: nat, a: nat, pattern: Pattern)
    requires p < PLAYERS && a < ACTIONS
  {
    forall i :: 0 <= i < |inputs| ==> inputs[i].configured[p][a] == Some(pattern) && Held(inputs[i].buttons[p], a)
  }

  lemma {:induction false} HeldPhase(state: AutofireState, inputs: seq<FrameInput>, p: nat, a: nat, pattern: Pattern)
    requires p < PLAYERS && a < ACTIONS && ValidInputs(inputs)
    requires pattern.IsValid() && state.configured[p][a] == 0
    requires HeldThroughout(inputs, p, a, pattern)
    ensures After(state, inputs).configured[p][a] as int == |inputs| % pattern.period
  {
    if inputs != [] {
      var before := inputs[..|inputs| - 1];
      HeldPhase(state, before, p, a, pattern);
      HeldStep(After(state, before), inputs[|inputs| - 1], p, a, pattern, |before|);
    }
  }

  lemma HeldStep(at: AutofireState, input: FrameInput, p: nat, a: nat, pattern: Pattern, n: nat)
    requires p < PLAYERS && a < ACTIONS && ValidInput(input) && pattern.IsValid()
    requires input.configured[p][a] == Some(pattern) && Held(input.buttons[p], a)
    requires at.configured[p][a] as int == n % pattern.period
    ensures NextState(at, input).configured[p][a] as int == (n + 1) % pattern.period
  {
    SuccessorMod(n, pattern.period);
  }

  lemma SuccessorMod(n: nat, m: nat)
    requires m > 0
    ensures (n % m + 1) % m == (n + 1) % m
  {
    var q, r := n / m, n % m;
    if r + 1 == m {
      assert n + 1 == (q + 1) * m;
      UniqueQuotient(n + 1, m, q + 1, 0);
      UniqueQuotient(m, m, 1, 0);
    } else {
      UniqueQuotient(n + 1, m, q, r + 1);
      UniqueQuotient(r + 1, m, 0, r + 1);
    }
  }

  lemma UniqueQuotient(x: int, m: nat, q: int, r: int)
    requires m > 0 && 0 <= r < m && x == q * m + r
    ensures x % m == r
  {
    var d := x / m - q;
    assert d * m == r - x % m;
    if d >= 1 {
      AtLeastOnce(d, m);
    } else if d <= -1 {
      AtLeastOnce(-d, m);
    }
  }

  lemma AtLeastOnce(d: int, m: nat)
    requires d >= 1
    ensures d * m >= m
  {
  }

  /**
   The closed form of an unbounded hold: a target held from phase 0 passes its i-th frame exactly when
   `i mod period < on`, whatever every other target, pattern and player does, unless the legacy turbo
   blanks player one's whole mask on that frame.
   */
  lemma HoldClosedForm(state: AutofireState, inputs: seq<FrameInput>, p: nat, a: nat, pattern: Pattern, i: nat)
    requires p < PLAYERS && a < ACTIONS && ValidInputs(inputs) && i < |inputs|
    requires pattern.IsValid() && state.configured[p][a] == 0
    requires HeldThroughout(inputs, p, a, pattern)
    ensures var blanked := p == 0 && inputs[i].legacyHeld && LegacyNext(After(state, inputs[..i]), true) % 2 == 1;
            Held(OutputAt(state, inputs, i)[p], a) <==> !blanked && i % pattern.period < pattern.on
  {
    HeldPhase(state, inputs[..i], p, a, pattern);
    var at := After(state, inputs[..i]);
    FilteredBit(inputs[i].buttons[p], inputs[i].configured[p], at.configured[p], ACTIONS, a);
    ModMod(i, pattern.period);
    assert OutputAt(state, inputs, i)[p] == 0 ==> !Held(OutputAt(state, inputs, i)[p], a);
  }

  lemma ModMod(i: nat, m: nat)
    requires m > 0
    ensures i % m % m == i % m
  {
    UniqueQuotient(i % m, m, 0, i % m);
  }

  lemma {:induction false} LegacyPhase(state: AutofireState, inputs: seq<FrameInput>)
    requires ValidInputs(inputs) && forall i :: 0 <= i < |inputs| ==> inputs[i].legacyHeld
    ensures After(state, inputs).legacyPhase as int == (state.legacyPhase as int + |inputs|) % 256
  {
    if inputs != [] {
      var n := |inputs| - 1;
      LegacyPhase(state, inputs[..n]);
      assert After(state, inputs).legacyPhase == LegacyNext(After(state, inputs[..n]), true);
      SuccessorWraps(state.legacyPhase as int + n);
    }
  }

  /** The legacy turbo blanks player one on every second frame for ever: the byte wrap never breaks the rhythm. */
  lemma LegacyAlternates(state: AutofireState, inputs: seq<FrameInput>, i: nat)
    requires ValidInputs(inputs) && i < |inputs| && forall j :: 0 <= j < |inputs| ==> inputs[j].legacyHeld
    ensures var out, at := OutputAt(state, inputs, i), After(state, inputs[..i]);
            if (state.legacyPhase as int + i) % 2 == 0 then out[0] == 0
            else out == Pulsed(at, inputs[i].configured, inputs[i].buttons)
  {
    LegacyPhase(state, inputs[..i]);
    LegacyFrame(After(state, inputs[..i]), inputs[i], state.legacyPhase as int + i);
  }

  lemma LegacyFrame(at: AutofireState, input: FrameInput, n: nat)
    requires ValidInput(input) && input.legacyHeld && at.legacyPhase as int == n % 256
    ensures if n % 2 == 0 then Output(at, input)[0] == 0
            else Output(at, input) == Pulsed(at, input.configured, input.buttons)
  {
    WrapKeepsParity(n);
  }

  lemma SuccessorWraps(n: nat)
    ensures (n % 256 + 1) % 256 == (n + 1) % 256
  {
    var q, r := n / 256, n % 256;
    assert n + 1 == 256 * q + (r + 1);
  }

  lemma WrapKeepsParity(n: nat)
    ensures (n % 256 + 1) % 256 % 2 == (n + 1) % 2 == 1 - n % 2
  {
    SuccessorWraps(n);
    ByteParity(n + 1);
  }

  lemma ByteParity(n: nat)
    ensures n % 256 % 2 == n % 2
  {
    var q, r := n / 256, n % 256;
    assert n == 2 * (128 * q) + r;
  }

  /** Resetting released targets first never changes what a frame returns or stores. */
  lemma ResetIsInvisible(state: AutofireState, input: FrameInput)
    requires ValidInput(input)
    ensures NextState(Reset(state, input), input) == NextState(state, input)
    ensures Output(Reset(state, input), input) == Output(state, input)
  {
    var reset := Reset(state, input);
    SamePhases(input, reset.configured, state.configured);
    forall p | 0 <= p < PLAYERS
      ensures Pulsed(reset, input.configured, input.buttons)[p] == Pulsed(state, input.configured, input.buttons)[p]
    {
      SameFilter(input.buttons[p], input.configured[p], reset.configured[p], state.configured[p], ACTIONS);
    }
    assert Pulsed(reset, input.configured, input.buttons) == Pulsed(state, input.configured, input.buttons);
  }

  lemma SamePhases(input: FrameInput, left: Phases, right: Phases)
    requires ValidInput(input)
    requires forall p, a ::
               0 <= p < PLAYERS && 0 <= a < ACTIONS && input.configured[p][a].Some? && Held(input.buttons[p], a)
               ==> left[p][a] == right[p][a]
    ensures NextPhases(input.configured, input.buttons, left) == NextPhases(input.configured, input.buttons, right)
  {
    var l, r := NextPhases(input.configured, input.buttons, left), NextPhases(input.configured, input.buttons, right);
    forall p | 0 <= p < PLAYERS
      ensures l[p] == r[p]
    {
      forall a | 0 <= a < ACTIONS
        ensures l[p][a] == r[p][a]
      {
      }
    }
  }

  lemma {:induction false} SameFilter(mask: bv8, patterns: PatternRow, left: PhaseRow, right: PhaseRow, n: nat)
    requires n <= ACTIONS && forall a :: 0 <= a < ACTIONS && patterns[a].Some? ==> patterns[a].value.IsValid()
    requires forall a :: 0 <= a < n && patterns[a].Some? && Held(mask, a) ==> left[a] == right[a]
    ensures Filtered(mask, patterns, left, n) == Filtered(mask, patterns, right, n)
  {
    if n > 0 {
      SameFilter(mask, patterns, left, right, n - 1);
    }
  }

  lemma {:induction false} NothingFiltered(mask: bv8, patterns: PatternRow, phases: PhaseRow, n: nat)
    requires n <= ACTIONS && forall a :: 0 <= a < ACTIONS && patterns[a].Some? ==> patterns[a].value.IsValid()
    requires forall a :: 0 <= a < n ==> !(patterns[a].Some? && Held(mask, a))
    ensures Filtered(mask, patterns, phases, n) == mask
  {
    if n > 0 {
      NothingFiltered(mask, patterns, phases, n - 1);
    }
  }

  /** The fast path is exact: without staging, a frame keeps the buttons and only resets released targets. */
  lemma FastPathExact(state: AutofireState, input: FrameInput)
    requires ValidInput(input) && !NeedsStaging(input)
    ensures Output(state, input) == input.buttons
    ensures NextState(state, input) == Reset(state, input)
  {
    forall p | 0 <= p < PLAYERS
      ensures Pulsed(state, input.configured, input.buttons)[p] == input.buttons[p]
    {
      NothingFiltered(input.buttons[p], input.configured[p], state.configured[p], ACTIONS);
    }
    assert Pulsed(state, input.configured, input.buttons) == input.buttons;
    var l, r := NextState(state, input).configured, Reset(state, input).configured;
    forall p | 0 <= p < PLAYERS
      ensures l[p] == r[p]
    {
      forall a | 0 <= a < ACTIONS
        ensures l[p][a] == r[p][a]
      {
        assert input.configured[p][a].None? || !Held(input.buttons[p], a);
      }
    }
  }
}
