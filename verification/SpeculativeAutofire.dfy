/** Autofire states travel with the speculative batches, and end up where real execution would put them. */
module SpeculativeAutofire {
  import opened Common
  import opened Autofire
  import opened ReplayCommit

  type AutofireBatch = Batch<AutofireState>

  /** Each batch previews its own inputs from the state the batch before it ended in. */
  ghost predicate Chained(start: AutofireState, pending: seq<AutofireBatch>, inputs: seq<FrameInput>)
    requires ValidInputs(inputs)
    decreases |pending|
  {
    if pending == [] then inputs == []
    else
      var n := |pending[0].frames|;
      && n <= |inputs|
      && pending[0].states == PreviewStates(start, inputs[..n])
      && Chained(After(start, inputs[..n]), pending[1..], inputs[n..])
  }

  /** The state installed after `k` of the frames, if any was. */
  ghost function Installed(start: AutofireState, inputs: seq<FrameInput>): Option<AutofireState>
    requires ValidInputs(inputs)
  {
    if inputs == [] then None else Some(After(start, inputs))
  }

  lemma InsideFirstBatch(start: AutofireState, batch: AutofireBatch, others: seq<Entry<AutofireState>>,
                         inputs: seq<FrameInput>, k: nat)
    requires ValidInputs(inputs) && k <= |batch.frames| <= |inputs|
    requires batch.states == PreviewStates(start, inputs[..|batch.frames|])
    ensures EffectOf((Entries(batch) + others)[..k]).state == Installed(start, inputs[..k])
  {
    assert (Entries(batch) + others)[..k] == Entries(batch)[..k];
    BatchPrefix(batch, k);
    assert inputs[..|batch.frames|][..k] == inputs[..k];
  }

  lemma PastFirstBatch(start: AutofireState, batch: AutofireBatch, others: seq<Entry<AutofireState>>,
                       inputs: seq<FrameInput>, k: nat)
    requires ValidInputs(inputs) && |batch.frames| < k <= |inputs| && k - |batch.frames| <= |others|
    requires EffectOf(others[..k - |batch.frames|]).state
             == Some(After(After(start, inputs[..|batch.frames|]), inputs[|batch.frames|..k]))
    ensures EffectOf((Entries(batch) + others)[..k]).state == Installed(start, inputs[..k])
  {
    var n := |batch.frames|;
    assert (Entries(batch) + others)[..k] == Entries(batch) + others[..k - n];
    EffectConcat(Entries(batch), others[..k - n]);
    assert inputs[..k] == inputs[..n] + inputs[n..k];
    AfterSplit(start, inputs[..n], inputs[n..k]);
  }

  lemma {:induction false} ChainedLength(start: AutofireState, pending: seq<AutofireBatch>, inputs: seq<FrameInput>)
    requires ValidInputs(inputs) && Chained(start, pending, inputs)
    ensures |Flat(pending)| == |inputs|
    decreases |pending|
  {
    if pending != [] {
      var n := |pending[0].frames|;
      ChainedLength(After(start, inputs[..n]), pending[1..], inputs[n..]);
    }
  }

  /** The state the first `k` log entries install is the one reached by really running `k` frames. */
  lemma {:induction false} ChainedEffect(start: AutofireState, pending: seq<AutofireBatch>, inputs: seq<FrameInput>,
                                         k: nat)
    requires ValidInputs(inputs) && Chained(start, pending, inputs) && k <= |inputs|
    ensures |Flat(pending)| == |inputs|
    ensures EffectOf(Flat(pending)[..k]).state == Installed(start, inputs[..k])
    decreases |pending|
  {
    ChainedLength(start, pending, inputs);
    if pending != [] {
      var n := |pending[0].frames|;
      if k <= n {
        InsideFirstBatch(start, pending[0], Flat(pending[1..]), inputs, k);
      } else {
        ChainedLength(After(start, inputs[..n]), pending[1..], inputs[n..]);
        ChainedEffect(After(start, inputs[..n]), pending[1..], inputs[n..], k - n);
        assert inputs[n..][..k - n] == inputs[n..k];
        PastFirstBatch(start, pending[0], Flat(pending[1..]), inputs, k);
      }
    }
  }

  /**
   Speculative autofire agrees with real execution: after any sequence of partial commits, the installed
   state is the one reached by running the committed frames one at a time.
   */
  lemma SpeculationAgrees(t: Timeline<AutofireState>, pending: seq<AutofireBatch>, inputs: seq<FrameInput>,
                          pieces: seq<nat>)
    requires ValidInputs(inputs) && Chained(t.host.state, pending, inputs)
    requires t.log == Flat(pending) && Consistent(t)
    ensures CommittedInPieces(t, pieces).host.state == After(t.host.state, inputs[..Min(Sum(pieces), |inputs|)])
  {
    PiecesAdd(t, pieces);
    ChainedEffect(t.host.state, pending, inputs, Min(Sum(pieces), |inputs|));
  }

  // ---------------------------------------------------------------- batches without states

  predicate AllIdle(state: AutofireState) {
    forall p, a :: 0 <= p < PLAYERS && 0 <= a < ACTIONS ==> state.configured[p][a] == 0
  }

  /** The staging code keeps no states when no pattern is set, no target is held and the legacy phase is at rest. */
  predicate StatesElided(state: AutofireState, input: FrameInput) {
    && !NeedsStaging(input) && state.legacyPhase == 0
    && forall p, a :: 0 <= p < PLAYERS && 0 <= a < ACTIONS ==> input.configured[p][a].None?
  }

  /**
   Leaving the states out is exact if and only if every configured phase is already at rest. The staging machine
   never leaves them out otherwise: see `StagingRuns.ElidedIsExact`.
   */
  lemma ElisionExactIff(state: AutofireState, input: FrameInput, n: nat)
    requires ValidInput(input) && StatesElided(state, input) && n > 0
    requires ValidInputs(seq(n, _ => input))
    ensures After(state, seq(n, _ => input)) == state <==> AllIdle(state)
  {
    IdleAfter(state, input, n);
    if AllIdle(state) {
      AllIdleUnique(After(state, seq(n, _ => input)), state);
    }
  }

  lemma AllIdleUnique(left: AutofireState, right: AutofireState)
    requires AllIdle(left) && AllIdle(right) && left.legacyPhase == right.legacyPhase
    ensures left == right
  {
    forall p | 0 <= p < PLAYERS
      ensures left.configured[p] == right.configured[p]
    {
      assert forall a :: 0 <= a < ACTIONS ==> left.configured[p][a] == right.configured[p][a];
    }
  }

  lemma IdleAfter(state: AutofireState, input: FrameInput, n: nat)
    requires ValidInput(input) && StatesElided(state, input) && n > 0
    requires ValidInputs(seq(n, _ => input))
    ensures AllIdle(After(state, seq(n, _ => input))) && After(state, seq(n, _ => input)).legacyPhase == 0
  {
    var inputs := seq(n, _ => input);
    assert inputs[n - 1] == input;
    IdleStep(After(state, inputs[..n - 1]), input);
  }

  lemma IdleStep(at: AutofireState, input: FrameInput)
    requires ValidInput(input) && !input.legacyHeld
    requires forall p, a :: 0 <= p < PLAYERS && 0 <= a < ACTIONS ==> input.configured[p][a].None?
    ensures AllIdle(NextState(at, input)) && NextState(at, input).legacyPhase == 0
  {
  }
}
