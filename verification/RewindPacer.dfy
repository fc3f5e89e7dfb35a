/** Real-time rewind pacing: the debt counter, and why the frames rewound never outrun the wall clock. */
module RewindPacer {
  import opened Common

  /** Durations are nanoseconds; `Duration::MAX` is 2^64 - 1 seconds and 999999999 nanoseconds. */
  const DURATION_MAX: nat := U64_MAX * 1_000_000_000 + 999_999_999

  function SaturatingSub(a: nat, b: nat): nat {
    if a >= b then a - b else 0
  }

  /** `rewind_duration`: a saturating 64-bit product of nanoseconds. */
  function RewindDuration(frameNs: nat, frames: nat): nat {
    Min(U64_MAX, frameNs * frames)
  }

  function Scheduled(ahead: nat, frameNs: nat, frames: nat): nat {
    Min(DURATION_MAX, ahead + RewindDuration(frameNs, frames))
  }

  function Reconciled(ahead: nat, frameNs: nat, scheduled: nat, actual: nat): nat {
    if actual >= scheduled then Scheduled(ahead, frameNs, actual - scheduled)
    else SaturatingSub(ahead, RewindDuration(frameNs, scheduled - actual))
  }

  class Pacer {
    var ahead: nat

    constructor ()
      ensures ahead == 0
    {
      ahead := 0;
    }

    method Elapse(elapsed: nat)
      modifies this
      ensures ahead == SaturatingSub(old(ahead), elapsed)
    {
      ahead := if ahead >= elapsed then ahead - elapsed else 0;
    }

    predicate Ready()
      reads this
    {
      ahead == 0
    }

    method Schedule(frameNs: nat, frames: nat)
      modifies this
      ensures ahead == Scheduled(old(ahead), frameNs, frames)
    {
      ahead := Min(DURATION_MAX, ahead + RewindDuration(frameNs, frames));
    }

    method Reconcile(frameNs: nat, scheduled: nat, actual: nat)
      modifies this
      ensures ahead == Reconciled(old(ahead), frameNs, scheduled, actual)
    {
      if actual >= scheduled {
        Schedule(frameNs, actual - scheduled);
      } else {
        Elapse(RewindDuration(frameNs, scheduled - actual));
      }
    }
  }

  // ---------------------------------------------------------------- runs

  /**
   The tick and the reply handler at one frame duration: time is credited while the key is held, a batch goes out,
   its result or its failure comes back, and the key is let go.
   */
  datatype Event = TimePasses(ns: nat) | SendBatch(frames: nat) | BatchDone(actual: nat) | BatchFailed | KeyReleased

  /**
   The debt, the frames scheduled for the batch in flight, and, since the key was last let go, the time credited,
   the frames rewound and how many of them came with the newest batch.
   */
  datatype Run = Run(ahead: nat, pending: Option<nat>, elapsed: nat, rewound: nat, last: nat)

  const IDLE := Run(0, None, 0, 0, 0)

  /** A batch is sent only when ready with none in flight, and only a batch in flight is answered. */
  predicate Allowed(r: Run, e: Event) {
    match e
    case TimePasses(_) => true
    case SendBatch(_) => r.ahead == 0 && r.pending.None?
    case BatchDone(_) => r.pending.Some?
    case BatchFailed => r.pending.Some?
    case KeyReleased => true
  }

  /** A batch in flight when the key is let go stays in flight, but with nothing scheduled for it. */
  function Next(r: Run, frameNs: nat, e: Event): Run {
    match e
    case TimePasses(ns) => r.(ahead := SaturatingSub(r.ahead, ns), elapsed := r.elapsed + ns)
    case SendBatch(frames) => r.(ahead := Scheduled(r.ahead, frameNs, frames), pending := Some(frames))
    case BatchDone(actual) =>
      r.(ahead := Reconciled(r.ahead, frameNs, if r.pending.Some? then r.pending.value else 0, actual),
      pending := None, rewound := r.rewound + actual, last := actual)
    case BatchFailed => r.(ahead := 0, pending := None)
    case KeyReleased => Run(0, if r.pending.Some? then Some(0) else None, 0, 0, 0)
  }

  /** No 64-bit product saturates: neither the scheduled nor the actual frames of a batch reach 2^64 ns. */
  predicate Unsaturated(frameNs: nat, e: Event) {
    match e
    case TimePasses(_) => true
    case SendBatch(frames) => frameNs * frames <= U64_MAX
    case BatchDone(actual) => frameNs * actual <= U64_MAX
    case BatchFailed => true
    case KeyReleased => true
  }

  function After(frameNs: nat, es: seq<Event>): Run {
    if es == [] then IDLE else Next(After(frameNs, es[..|es| - 1]), frameNs, es[|es| - 1])
  }

  predicate AllAllowed(frameNs: nat, es: seq<Event>) {
    forall i :: 0 <= i < |es| ==> Allowed(After(frameNs, es[..i]), es[i]) && Unsaturated(frameNs, es[i])
  }

  /**
   The debt covers the difference: what was rewound is paid for by the time that passed and what is still
   owed, and a batch in flight is owed in full. `paid` and `newest` are the times of all frames and of the newest.
   */
  predicate Covered(r: Run, owed: nat, paid: nat, newest: nat) {
    && newest <= paid <= r.elapsed + newest
    && if r.pending.Some? then r.ahead <= owed <= U64_MAX && paid <= r.elapsed && owed <= r.elapsed - paid + r.ahead
       else r.ahead <= U64_MAX && paid <= r.elapsed + r.ahead
  }

  ghost predicate Solvent(r: Run, frameNs: nat) {
    && r.last <= r.rewound
    && Covered(r, if r.pending.Some? then frameNs * r.pending.value else 0, frameNs * r.rewound, frameNs * r.last)
  }

  lemma Distribute(frameNs: nat, a: int, b: int)
    ensures frameNs * (a + b) == frameNs * a + frameNs * b
    ensures frameNs * (a - b) == frameNs * a - frameNs * b
  {
  }

  lemma Grows(frameNs: nat, a: nat, b: nat)
    requires a <= b
    ensures frameNs * a <= frameNs * b
  {
  }

  /** Reconciling in terms of what the two batches cost. */
  lemma ReconciledCost(ahead: nat, frameNs: nat, scheduled: nat, actual: nat)
    requires ahead <= frameNs * scheduled <= U64_MAX && frameNs * actual <= U64_MAX
    ensures var owed := ahead + frameNs * actual - frameNs * scheduled;
            Reconciled(ahead, frameNs, scheduled, actual) == if owed >= 0 then owed else 0
  {
    Distribute(frameNs, actual, scheduled);
    Distribute(frameNs, scheduled, actual);
    if actual >= scheduled {
      Grows(frameNs, scheduled, actual);
      assert RewindDuration(frameNs, actual - scheduled) == frameNs * actual - frameNs * scheduled;
    } else {
      Grows(frameNs, actual, scheduled);
      assert RewindDuration(frameNs, scheduled - actual) == frameNs * scheduled - frameNs * actual;
    }
  }

  lemma BatchCovered(r: Run, owed: nat, paid: nat, newest: nat, cost: nat, n: Run)
    requires Covered(r, owed, paid, newest) && r.pending.Some? && cost <= U64_MAX
    requires n.pending.None? && n.elapsed == r.elapsed
    requires n.ahead == if r.ahead + cost >= owed then r.ahead + cost - owed else 0
    ensures Covered(n, 0, paid + cost, cost)
  {
  }

  lemma BatchStaysSolvent(r: Run, frameNs: nat, actual: nat)
    requires Solvent(r, frameNs) && r.pending.Some? && frameNs * actual <= U64_MAX
    ensures Solvent(Next(r, frameNs, BatchDone(actual)), frameNs)
  {
    var frames := r.pending.value;
    var n := Next(r, frameNs, BatchDone(actual));
    ReconciledCost(r.ahead, frameNs, frames, actual);
    Distribute(frameNs, r.rewound, actual);
    BatchCovered(r, frameNs * frames, frameNs * r.rewound, frameNs * r.last, frameNs * actual, n);
  }

  lemma StepStaysSolvent(r: Run, frameNs: nat, e: Event)
    requires Solvent(r, frameNs) && Allowed(r, e) && Unsaturated(frameNs, e)
    ensures Solvent(Next(r, frameNs, e), frameNs)
  {
    match e
    case TimePasses(_) =>
    case SendBatch(_) =>
    case BatchDone(actual) => BatchStaysSolvent(r, frameNs, actual);
    case BatchFailed =>
    case KeyReleased =>
  }

  lemma {:induction false} RunStaysSolvent(frameNs: nat, es: seq<Event>)
    requires AllAllowed(frameNs, es)
    ensures Solvent(After(frameNs, es), frameNs)
  {
    if es != [] {
      var before := es[..|es| - 1];
      assert forall i :: 0 <= i < |before| ==> before[..i] == es[..i];
      RunStaysSolvent(frameNs, before);
      assert es[..|es| - 1] == before;
      StepStaysSolvent(After(frameNs, before), frameNs, es[|es| - 1]);
    }
  }

  /** All frames but the newest batch's fit into the time credited, and all of them do when nothing is owed. */
  ghost predicate KeepsPace(r: Run, frameNs: nat) {
    && frameNs * (r.rewound - r.last) <= r.elapsed
    && (r.ahead == 0 ==> frameNs * r.rewound <= r.elapsed)
  }

  lemma SolventKeepsPace(r: Run, frameNs: nat)
    requires Solvent(r, frameNs)
    ensures KeepsPace(r, frameNs)
  {
    Distribute(frameNs, r.rewound, r.last);
  }

  /**
   Rewind never outruns real time: in every run that sends only when ready and answers each batch once, the
   frames of all batches but the newest take no longer than the time credited, and whenever the
   pacer is ready, so do all of them. Both are counted since the key was last let go, which forgives any debt.
   */
  lemma NeverOutrunsRealTime(frameNs: nat, es: seq<Event>)
    requires AllAllowed(frameNs, es)
    ensures KeepsPace(After(frameNs, es), frameNs)
  {
    RunStaysSolvent(frameNs, es);
    SolventKeepsPace(After(frameNs, es), frameNs);
  }

  function Waited(ahead: nat, waits: seq<nat>): nat {
    if waits == [] then ahead else SaturatingSub(Waited(ahead, waits[..|waits| - 1]), waits[|waits| - 1])
  }

  function Total(waits: seq<nat>): nat {
    if waits == [] then 0 else Total(waits[..|waits| - 1]) + waits[|waits| - 1]
  }

  lemma {:induction false} WaitsAdd(ahead: nat, waits: seq<nat>)
    ensures Waited(ahead, waits) == SaturatingSub(ahead, Total(waits))
  {
    if waits != [] {
      WaitsAdd(ahead, waits[..|waits| - 1]);
    }
  }

  /**
   Nor does it dawdle: between a batch and the next, however the time is cut into ticks and wherever the reply
   falls, the pacer is ready exactly when the batch's actual frames are paid for, except that
   time spent waiting for a reply counts only up to the scheduled length.
   */
  lemma ReadyExactly(frameNs: nat, frames: nat, actual: nat, before: seq<nat>, after: seq<nat>)
    requires frameNs * frames <= U64_MAX && frameNs * actual <= U64_MAX
    ensures var replied := Reconciled(Waited(Scheduled(0, frameNs, frames), before), frameNs, frames, actual);
            Waited(replied, after) == 0 <==> Min(Total(before), frameNs * frames) + Total(after) >= frameNs * actual
  {
    var owed := Scheduled(0, frameNs, frames);
    assert owed == frameNs * frames;
    WaitsAdd(owed, before);
    var left := SaturatingSub(owed, Total(before));
    ReconciledCost(left, frameNs, frames, actual);
    WaitsAdd(Reconciled(left, frameNs, frames, actual), after);
  }

  // ---------------------------------------------------------------- the exact bound

  /** No batch is scheduled for, or rewinds, more than `most` frames. */
  predicate AtMost(e: Event, most: nat) {
    match e
    case TimePasses(_) => true
    case SendBatch(frames) => frames <= most
    case BatchDone(actual) => actual <= most
    case BatchFailed => true
    case KeyReleased => true
  }

  predicate AllSmall(frameNs: nat, es: seq<Event>, most: nat) {
    forall i :: 0 <= i < |es| ==> Allowed(After(frameNs, es[..i]), es[i]) && AtMost(es[i], most)
  }

  lemma SmallIsUnsaturated(frameNs: nat, es: seq<Event>, most: nat)
    requires AllSmall(frameNs, es, most) && frameNs * most <= U64_MAX
    ensures AllAllowed(frameNs, es)
  {
    forall i | 0 <= i < |es|
      ensures Unsaturated(frameNs, es[i])
    {
      match es[i]
      case SendBatch(frames) => Grows(frameNs, frames, most);
      case BatchDone(actual) => Grows(frameNs, actual, most);
      case TimePasses(_) =>
      case BatchFailed =>
      case KeyReleased =>
    }
  }

  function Outrunning(most: nat): seq<Event> {
    [SendBatch(most), BatchDone(most), TimePasses(U64_MAX)]
  }

  /** One batch whose product saturates is forgiven all but 2^64 - 1 nanoseconds. */
  lemma SaturationOutruns(frameNs: nat, most: nat)
    requires frameNs * most > U64_MAX
    ensures AllSmall(frameNs, Outrunning(most), most)
    ensures !KeepsPace(After(frameNs, Outrunning(most)), frameNs)
  {
    var es := Outrunning(most);
    assert es[..2] == [SendBatch(most), BatchDone(most)];
    assert es[..2][..1] == es[..1] == [SendBatch(most)] && es[..1][..0] == es[..0] == [];
    assert RewindDuration(frameNs, most) == U64_MAX && RewindDuration(frameNs, 0) == 0;
    var a := Run(U64_MAX, Some(most), 0, 0, 0);
    assert After(frameNs, es[..1]) == a;
    var b := Run(U64_MAX, None, 0, most, most);
    assert After(frameNs, es[..2]) == Next(a, frameNs, BatchDone(most)) == b;
    assert After(frameNs, es) == Next(b, frameNs, TimePasses(U64_MAX)) == Run(0, None, U64_MAX, most, most);
  }

  /**
   The exact bound: with batches of at most `most` frames, every run keeps pace if and only if the longest
   batch fits 64 bits of nanoseconds.
   */
  lemma KeepsPaceIff(frameNs: nat, most: nat)
    ensures (forall es :: AllSmall(frameNs, es, most) ==> KeepsPace(After(frameNs, es), frameNs))
            <==> frameNs * most <= U64_MAX
  {
    if frameNs * most <= U64_MAX {
      forall es | AllSmall(frameNs, es, most)
        ensures KeepsPace(After(frameNs, es), frameNs)
      {
        SmallIsUnsaturated(frameNs, es, most);
        NeverOutrunsRealTime(frameNs, es);
      }
    } else {
      SaturationOutruns(frameNs, most);
    }
  }

  // ---------------------------------------------------------------- saturation and failure

  /** A batch costs at most 2^64 - 1 nanoseconds, and the debt stays below 2^64 seconds. */
  lemma ScheduledCost(ahead: nat, frameNs: nat, frames: nat)
    ensures var cost := if frameNs * frames <= 0xFFFF_FFFF_FFFF_FFFF then frameNs * frames else 0xFFFF_FFFF_FFFF_FFFF;
            Scheduled(ahead, frameNs, frames)
            == if ahead + cost < 0x1_0000_0000_0000_0000 * 1_000_000_000 then ahead + cost
               else 0x1_0000_0000_0000_0000 * 1_000_000_000 - 1
  {
  }

  /** A failed batch owes nothing: the next one may go out at once. Letting go of the key forgives the debt as well. */
  lemma FailureForgives(r: Run, frameNs: nat, frames: nat)
    ensures Allowed(r, BatchFailed) ==> Allowed(Next(r, frameNs, BatchFailed), SendBatch(frames))
    ensures Allowed(Next(r, frameNs, KeyReleased), SendBatch(frames)) <==> r.pending.None?
  {
  }

  /** The answer to a batch sent before the key was let go is charged in full. */
  lemma LateAnswer(r: Run, frameNs: nat, actual: nat)
    requires r.pending.Some? && frameNs * actual <= U64_MAX
    ensures Next(Next(r, frameNs, KeyReleased), frameNs, BatchDone(actual))
            == Run(frameNs * actual, None, 0, actual, actual)
  {
    assert frameNs * (actual - 0) == frameNs * actual;
  }
}
