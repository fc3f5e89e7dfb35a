/**
 The coordinator that borrows the running game for a TAS project: its states, the messages it
 exchanges with the emulator worker, and every transition, as functions on values. The class at the
 end performs the same transitions in place.
 */
module TasCoordinator {
  import opened Common

  const MAX_SEGMENT: nat := 600

  type Digest = nat

  /** What the editor looked like when the project was bound; compared field by field. */
  datatype Snapshot = Snapshot(
    profile: nat, editGeneration: nat, contentSha: Digest, identitySha: Digest,
    branch: string, branchFrames: nat, cursor: nat, prefixLen: nat, prefixSha: Digest)
  {
    predicate MatchesLinked(current: Option<Snapshot>) {
      && current.Some?
      && profile == current.value.profile && editGeneration == current.value.editGeneration
      && contentSha == current.value.contentSha && identitySha == current.value.identitySha
      && branch == current.value.branch && branchFrames == current.value.branchFrames
    }

    predicate CanRebind(current: Option<Snapshot>) {
      && current.Some?
      && profile == current.value.profile && identitySha == current.value.identitySha
      && prefixLen == current.value.prefixLen && prefixSha == current.value.prefixSha
    }
  }

  /** The witness of the game at acquisition: frame count and state hash. */
  datatype Proof = Proof(frameCount: nat, stateSha: Digest)

  /** A project bound to the loaded game; `sources` are the cursors a cached state may start from. */
  datatype Binding = Binding(snapshot: Snapshot, total: nat, sources: seq<nat>)

  datatype Candidate = Candidate(segmentId: nat, segmentFrames: nat, executed: nat, frameCount: nat, stateSha: Digest)

  datatype Reason =
    | NoActiveLease | WrongLease | WrongProfile | InvalidRunId | RunAlreadyAttempted
    | NoCompletedExecution | WrongRun | InvalidAdvanceId | UnexpectedAdvanceId | AdvanceIdExhausted
    | SegmentProofMismatch | CandidateProofMismatch | SegmentIdExhausted | UnexpectedSegmentId
    | FrameLimitExceeded | BackendFailed

  datatype Command =
    | Acquire(requestId: nat, profile: nat)
    | Execute(profile: nat, leaseId: nat, runId: nat, total: nat, sources: seq<nat>)
    | Advance(profile: nat, leaseId: nat, runId: nat, advanceId: nat, segmentId: nat, from: Candidate)
    | Rollback(leaseId: nat)
    | Commit(leaseId: nat)

  datatype Response =
    | Acquired(requestId: nat, leaseId: nat, held: Proof)
    | AcquireRejected(requestId: nat)
    | ExecutionCompleted(profile: nat, leaseId: nat, runId: nat, report: Candidate)
    | ExecutionRejected(profile: nat, leaseId: nat, runId: nat, reason: Reason)
    | FrameAdvanced(profile: nat, leaseId: nat, runId: nat, advanceId: nat, report: Candidate)
    | FrameAdvanceRejected(profile: nat, leaseId: nat, runId: nat, advanceId: nat, segmentId: nat, reason: Reason)
    | RolledBack(leaseId: nat, restored: Proof)
    | RollbackRejected(leaseId: nat)
    | Committed(leaseId: nat)
    | CommitRejected(leaseId: nat)

  datatype TerminalReason =
    | RollbackWasRejected | RollbackMismatch | CommitWasRejected
    | ExecutionAuthority | ExecutionMismatch | AdvanceAuthority | AdvanceMismatch

  /** A held lease: who holds it, what must come back on rollback, and the project it serves. */
  datatype Lease = Lease(leaseId: nat, runId: nat, proof: Proof, project: Snapshot)

  datatype State =
    | Detached
    | AcquireQueued(generation: nat, wanted: Snapshot)
    | AcquirePending(generation: nat, requestId: nat, cancelled: bool, wanted: Snapshot)
    | ExecutionPending(generation: nat, lease: Lease, total: nat, sources: seq<nat>)
    | ReplayReady(generation: nat, lease: Lease, nextAdvanceId: nat, candidate: Candidate, total: nat)
    | ReplayPending(generation: nat, lease: Lease, advanceId: nat, nextAdvanceId: nat,
                    segmentId: nat, segmentFrames: nat, executed: nat, total: nat)
    | AwaitingDecision(generation: nat, lease: Lease, nextAdvanceId: nat, candidate: Candidate)
    | RollbackPending(generation: nat, leaseId: nat, checkpoint: Proof)
    | CommitPending(generation: nat, leaseId: nat)
    | Terminal(generation: nat, reason: TerminalReason)

  datatype Coord = Coord(state: State, nextRequestId: nat, nextRunId: nat)

  /** One transition: the new coordinator, and the command it hands to the worker, if any. */
  datatype Step = Step(coord: Coord, sent: Option<Command>)

  const INITIAL := Coord(Detached, 1, 1)

  predicate Holds(s: State) {
    s.ExecutionPending? || s.ReplayReady? || s.ReplayPending? || s.AwaitingDecision?
  }

  // ---------------------------------------------------------------- requests from the editor

  function BeginAcquire(c: Coord, generation: nat, project: Snapshot): Step {
    if !c.state.Detached? || c.nextRequestId >= U64_MAX then Step(c, None)
    else Step(Coord(AcquirePending(generation, c.nextRequestId, false, project), c.nextRequestId + 1, c.nextRunId),
              Some(Acquire(c.nextRequestId, project.profile)))
  }

  function QueueAcquire(c: Coord, generation: nat, project: Snapshot, modeSupported: bool): Step {
    if !c.state.Detached? || !modeSupported then Step(c, None)
    else Step(c.(state := AcquireQueued(generation, project)), None)
  }

  function BeginQueuedAcquire(c: Coord): Step {
    if !c.state.AcquireQueued? || c.nextRequestId >= U64_MAX then Step(c, None)
    else Step(Coord(AcquirePending(c.state.generation, c.nextRequestId, false, c.state.wanted),
                    c.nextRequestId + 1, c.nextRunId),
              Some(Acquire(c.nextRequestId, c.state.wanted.profile)))
  }

  function GiveBack(c: Coord, generation: nat, leaseId: nat, proof: Proof): Step {
    Step(c.(state := RollbackPending(generation, leaseId, proof)), Some(Rollback(leaseId)))
  }

  function Fail(c: Coord, generation: nat, reason: TerminalReason): Step {
    Step(c.(state := Terminal(generation, reason)), None)
  }

  function Cancelled(s: State): State
    requires s.AcquirePending?
  {
    AcquirePending(s.generation, s.requestId, true, s.wanted)
  }

  function Cancel(c: Coord): Step {
    if c.state.AcquireQueued? then Step(c.(state := Detached), None)
    else if c.state.AcquirePending? then Step(c.(state := Cancelled(c.state)), None)
    else if Holds(c.state) then GiveBack(c, c.state.generation, c.state.lease.leaseId, c.state.lease.proof)
    else Step(c, None)
  }

  function CommitRun(c: Coord, current: Option<Snapshot>): Step {
    if !c.state.AwaitingDecision? then Step(c, None)
    else
      var lease := c.state.lease;
      if current != Some(lease.project) then GiveBack(c, c.state.generation, lease.leaseId, lease.proof)
      else Step(c.(state := CommitPending(c.state.generation, lease.leaseId)), Some(Commit(lease.leaseId)))
  }

  function Rebound(s: State, project: Snapshot): State
    requires Holds(s)
  {
    match s
    case ExecutionPending(g, lease, total, sources) => ExecutionPending(g, lease.(project := project), total, sources)
    case ReplayReady(g, lease, id, candidate, total) => ReplayReady(g, lease.(project := project), id, candidate, total)
    case ReplayPending(g, lease, id, next, segmentId, segmentFrames, executed, total) =>
      ReplayPending(g, lease.(project := project), id, next, segmentId, segmentFrames, executed, total)
    case AwaitingDecision(g, lease, id, candidate) => AwaitingDecision(g, lease.(project := project), id, candidate)
  }

  /** Called whenever the editor may have moved on: drop, cancel, rebind or give the game back. */
  function Reconcile(c: Coord, current: Option<Snapshot>): Step {
    if c.state.AcquireQueued? then
      Step(if current != Some(c.state.wanted) then c.(state := Detached) else c, None)
    else if c.state.AcquirePending? then
      Step(if current != Some(c.state.wanted) then c.(state := Cancelled(c.state)) else c, None)
    else if !Holds(c.state) || c.state.lease.project.MatchesLinked(current) then Step(c, None)
    else if c.state.lease.project.CanRebind(current) then Step(c.(state := Rebound(c.state, current.value)), None)
    else GiveBack(c, c.state.generation, c.state.lease.leaseId, c.state.lease.proof)
  }

  /** Moving the linked game to another boundary starts the next run on the same lease. */
  function LinkedSeek(c: Coord, binding: Binding): Step {
    if !c.state.AwaitingDecision? || c.nextRunId >= U64_MAX then Step(c, None)
    else
      var lease := c.state.lease;
      if binding.snapshot.profile != lease.project.profile || binding.snapshot.identitySha != lease.project.identitySha
      then Step(c, None)
      else
        var next := Lease(lease.leaseId, c.nextRunId, lease.proof, binding.snapshot);
        Step(Coord(ExecutionPending(c.state.generation, next, binding.total, binding.sources),
                   c.nextRequestId, c.nextRunId + 1),
             Some(Execute(binding.snapshot.profile, lease.leaseId, c.nextRunId, binding.total, binding.sources)))
  }

  /** Stages one more frame; `inputReady` says the session still matches and has this frame's input. */
  function ContinueReplay(c: Coord, inputReady: bool): Step {
    if !c.state.ReplayReady? then Step(c, None)
    else
      var s, at := c.state, c.state.candidate;
      var starts := at.segmentFrames == MAX_SEGMENT;
      if !inputReady || at.executed >= s.total || s.nextAdvanceId >= U64_MAX
         || (starts && at.segmentId >= U64_MAX) || (!starts && at.segmentFrames >= U64_MAX) || at.executed >= U64_MAX
      then GiveBack(c, s.generation, s.lease.leaseId, s.lease.proof)
      else
        var segmentId := if starts then at.segmentId + 1 else at.segmentId;
        var segmentFrames := if starts then 1 else at.segmentFrames + 1;
        Step(c.(state := ReplayPending(s.generation, s.lease, s.nextAdvanceId, s.nextAdvanceId + 1,
                                       segmentId, segmentFrames, at.executed + 1, s.total)),
             Some(Advance(s.lease.project.profile, s.lease.leaseId, s.lease.runId, s.nextAdvanceId, segmentId, at)))
  }

  // ---------------------------------------------------------------- replies from the worker

  function StaleAcquired(c: Coord, generation: nat, leaseId: nat, proof: Proof): Step {
    if c.state.Detached? || c.state.generation == generation then GiveBack(c, generation, leaseId, proof)
    else Step(c, Some(Rollback(leaseId)))
  }

  function ConsumeAcquired(c: Coord, generation: nat, requestId: nat, leaseId: nat, proof: Proof,
                           binding: Option<Binding>): Step {
    if !c.state.AcquirePending? || c.state.generation != generation || c.state.requestId != requestId then
      StaleAcquired(c, generation, leaseId, proof)
    else if c.state.cancelled || binding.None? || binding.value.snapshot != c.state.wanted then
      GiveBack(c, generation, leaseId, proof)
    else
      var b := binding.value;
      Step(Coord(ExecutionPending(generation, Lease(leaseId, 1, proof, b.snapshot), b.total, b.sources),
                 c.nextRequestId, 2),
           Some(Execute(b.snapshot.profile, leaseId, 1, b.total, b.sources)))
  }

  /** The three reports that cover the whole first transaction of a bound prefix. */
  predicate CoversFirstTransaction(report: Candidate, total: nat, sources: seq<nat>) {
    || (report.segmentFrames == report.executed && report.executed == Min(total, MAX_SEGMENT))
    || (report.segmentFrames == 0 && report.executed == total)
    || (&& report.executed <= total && report.segmentFrames <= report.executed
        && (report.executed - report.segmentFrames) in sources
        && report.segmentFrames == Min(total - (report.executed - report.segmentFrames), MAX_SEGMENT))
  }

  function ConsumeCompleted(c: Coord, generation: nat, profile: nat, leaseId: nat, runId: nat, report: Candidate,
                            current: Option<Snapshot>): Step {
    if !c.state.ExecutionPending? || c.state.generation != generation then Step(c, None)
    else
      var s := c.state;
      if profile != s.lease.project.profile || leaseId != s.lease.leaseId || runId != s.lease.runId
         || report.segmentId != 1 || !CoversFirstTransaction(report, s.total, s.sources)
      then Fail(c, generation, ExecutionMismatch)
      else if current != Some(s.lease.project) then GiveBack(c, generation, leaseId, s.lease.proof)
      else if report.executed == s.total then
        Step(c.(state := AwaitingDecision(generation, s.lease, 1, report)), None)
      else Step(c.(state := ReplayReady(generation, s.lease, 1, report, s.total)), None)
  }

  function ConsumeExecutionRejected(c: Coord, generation: nat, profile: nat, leaseId: nat, runId: nat,
                                    reason: Reason): Step {
    if !c.state.ExecutionPending? || c.state.generation != generation then Step(c, None)
    else
      var s := c.state;
      if profile != s.lease.project.profile || leaseId != s.lease.leaseId || runId != s.lease.runId then
        Fail(c, generation, ExecutionMismatch)
      else if reason.NoActiveLease? || reason.WrongLease? || reason.RunAlreadyAttempted? then
        Fail(c, generation, ExecutionAuthority)
      else GiveBack(c, generation, leaseId, s.lease.proof)
  }

  /** `guard` says the session's edit generation, branch and cursor still match the bound project. */
  function ConsumeAdvanced(c: Coord, generation: nat, profile: nat, leaseId: nat, runId: nat, advanceId: nat,
                           report: Candidate, current: Option<Snapshot>, guard: bool): Step {
    if !c.state.ReplayPending? || c.state.generation != generation then Step(c, None)
    else
      var s := c.state;
      if profile != s.lease.project.profile || leaseId != s.lease.leaseId || runId != s.lease.runId
         || advanceId != s.advanceId || report.segmentId != s.segmentId
         || report.segmentFrames != s.segmentFrames || report.executed != s.executed
      then Fail(c, generation, AdvanceMismatch)
      else if !(if report.executed == s.total then current == Some(s.lease.project) else guard) then
        GiveBack(c, generation, leaseId, s.lease.proof)
      else if report.executed > s.total then Fail(c, generation, AdvanceMismatch)
      else if report.executed == s.total then
        Step(c.(state := AwaitingDecision(generation, s.lease, s.nextAdvanceId, report)), None)
      else Step(c.(state := ReplayReady(generation, s.lease, s.nextAdvanceId, report, s.total)), None)
  }

  function ConsumeAdvanceRejected(c: Coord, generation: nat, profile: nat, leaseId: nat, runId: nat,
                                  advanceId: nat, segmentId: nat, reason: Reason): Step {
    if !c.state.ReplayPending? || c.state.generation != generation then Step(c, None)
    else
      var s := c.state;
      if profile != s.lease.project.profile || leaseId != s.lease.leaseId || runId != s.lease.runId
         || advanceId != s.advanceId || segmentId != s.segmentId
      then Fail(c, generation, AdvanceMismatch)
      else if reason.NoActiveLease? || reason.WrongLease? then Fail(c, generation, AdvanceAuthority)
      else GiveBack(c, generation, leaseId, s.lease.proof)
  }

  function ConsumeResolution(c: Coord, generation: nat, r: Response): Step
    requires r.RolledBack? || r.RollbackRejected? || r.Committed? || r.CommitRejected?
  {
    var s := c.state;
    if r.RolledBack? || r.RollbackRejected? then
      if !s.RollbackPending? || s.generation != generation || s.leaseId != r.leaseId then Step(c, None)
      else if r.RollbackRejected? then Fail(c, generation, RollbackWasRejected)
      else if r.restored != s.checkpoint then Fail(c, generation, RollbackMismatch)
      else Step(c.(state := Detached), None)
    else if !s.CommitPending? || s.generation != generation || s.leaseId != r.leaseId then Step(c, None)
    else if r.CommitRejected? then Fail(c, generation, CommitWasRejected)
    else Step(c.(state := Detached), None)
  }

  /** What the editor shows when a reply arrives: the acquired binding, the snapshot, the session guard. */
  datatype Editor = Editor(binding: Option<Binding>, current: Option<Snapshot>, guard: bool)

  function Consume(c: Coord, generation: nat, r: Response, editor: Editor): Step {
    if c.state.Terminal? then Step(c, None)
    else
      match r
      case Acquired(id, leaseId, held) => ConsumeAcquired(c, generation, id, leaseId, held, editor.binding)
      case AcquireRejected(id) =>
        if !c.state.AcquirePending? || c.state.generation != generation || c.state.requestId != id then Step(c, None)
        else Step(c.(state := Detached), None)
      case ExecutionCompleted(profile, leaseId, runId, report) =>
        ConsumeCompleted(c, generation, profile, leaseId, runId, report, editor.current)
      case ExecutionRejected(profile, leaseId, runId, reason) =>
        ConsumeExecutionRejected(c, generation, profile, leaseId, runId, reason)
      case FrameAdvanced(profile, leaseId, runId, advanceId, report) =>
        ConsumeAdvanced(c, generation, profile, leaseId, runId, advanceId, report, editor.current, editor.guard)
      case FrameAdvanceRejected(profile, leaseId, runId, advanceId, segmentId, reason) =>
        ConsumeAdvanceRejected(c, generation, profile, leaseId, runId, advanceId, segmentId, reason)
      case _ => ConsumeResolution(c, generation, r)
  }

  // ---------------------------------------------------------------- the object

  /** The coordinator object: each method changes the fields as the matching function says. */
  class Coordinator {
    var state: State
    var nextRequestId: nat
    var nextRunId: nat

    ghost function View(): Coord
      reads this
    {
      Coord(state, nextRequestId, nextRunId)
    }

    constructor ()
      ensures View() == INITIAL
    {
      state, nextRequestId, nextRunId := Detached, 1, 1;
    }

    method BeginAcquireNow(generation: nat, project: Snapshot) returns (sent: Option<Command>)
      modifies this
      ensures Step(View(), sent) == BeginAcquire(old(View()), generation, project)
    {
      sent := None;
      if state != Detached {
        return;
      }
      var requestId := nextRequestId;
      if requestId >= U64_MAX {
        return;
      }
      nextRequestId := requestId + 1;
      state := AcquirePending(generation, requestId, false, project);
      sent := Some(Acquire(requestId, project.profile));
    }

    method Queue(generation: nat, project: Snapshot, modeSupported: bool)
      modifies this
      ensures Step(View(), None) == QueueAcquire(old(View()), generation, project, modeSupported)
    {
      if state == Detached && modeSupported {
        state := AcquireQueued(generation, project);
      }
    }

    method BeginQueued() returns (sent: Option<Command>)
      modifies this
      ensures Step(View(), sent) == BeginQueuedAcquire(old(View()))
    {
      sent := None;
      match state {
        case AcquireQueued(generation, project) =>
          var requestId := nextRequestId;
          if requestId < U64_MAX {
            nextRequestId := requestId + 1;
            state := AcquirePending(generation, requestId, false, project);
            sent := Some(Acquire(requestId, project.profile));
          }
        case _ =>
      }
    }

    method CancelRun() returns (sent: Option<Command>)
      modifies this
      ensures Step(View(), sent) == Cancel(old(View()))
    {
      sent := None;
      match state {
        case AcquireQueued(_, _) =>
          state := Detached;
        case AcquirePending(generation, requestId, _, project) =>
          state := AcquirePending(generation, requestId, true, project);
        case ExecutionPending(generation, lease, _, _) =>
          sent := RollBackTo(generation, lease.leaseId, lease.proof);
        case ReplayReady(generation, lease, _, _, _) =>
          sent := RollBackTo(generation, lease.leaseId, lease.proof);
        case ReplayPending(generation, lease, _, _, _, _, _, _) =>
          sent := RollBackTo(generation, lease.leaseId, lease.proof);
        case AwaitingDecision(generation, lease, _, _) =>
          sent := RollBackTo(generation, lease.leaseId, lease.proof);
        case _ =>
      }
    }

    method RollBackTo(generation: nat, leaseId: nat, proof: Proof) returns (sent: Option<Command>)
      modifies this
      ensures Step(View(), sent) == GiveBack(old(View()), generation, leaseId, proof)
    {
      state := RollbackPending(generation, leaseId, proof);
      sent := Some(Rollback(leaseId));
    }

    method CommitNow(current: Option<Snapshot>) returns (sent: Option<Command>)
      modifies this
      ensures Step(View(), sent) == CommitRun(old(View()), current)
    {
      sent := None;
      match state {
        case AwaitingDecision(generation, lease, _, _) =>
          if current != Some(lease.project) {
            sent := RollBackTo(generation, lease.leaseId, lease.proof);
          } else {
            state := CommitPending(generation, lease.leaseId);
            sent := Some(Commit(lease.leaseId));
          }
        case _ =>
      }
    }

    method ReconcileProject(current: Option<Snapshot>) returns (sent: Option<Command>)
      modifies this
      ensures Step(View(), sent) == Reconcile(old(View()), current)
    {
      sent := None;
      if state.AcquireQueued? {
        if current != Some(state.wanted) {
          state := Detached;
        }
      } else if state.AcquirePending? {
        if current != Some(state.wanted) && !state.cancelled {
          state := AcquirePending(state.generation, state.requestId, true, state.wanted);
        }
      } else if Holds(state) && !state.lease.project.MatchesLinked(current) {
        if state.lease.project.CanRebind(current) {
          state := Rebound(state, current.value);
        } else {
          sent := RollBackTo(state.generation, state.lease.leaseId, state.lease.proof);
        }
      }
    }

    method SeekTo(binding: Binding) returns (sent: Option<Command>)
      modifies this
      ensures Step(View(), sent) == LinkedSeek(old(View()), binding)
    {
      sent := None;
      match state {
        case AwaitingDecision(generation, lease, _, _) =>
          var runId := nextRunId;
          if binding.snapshot.profile == lease.project.profile
             && binding.snapshot.identitySha == lease.project.identitySha && runId < U64_MAX {
            nextRunId := runId + 1;
            state := ExecutionPending(generation, Lease(lease.leaseId, runId, lease.proof, binding.snapshot),
                                      binding.total, binding.sources);
            sent := Some(Execute(binding.snapshot.profile, lease.leaseId, runId, binding.total, binding.sources));
          }
        case _ =>
      }
    }

    method StageNextFrame(inputReady: bool) returns (sent: Option<Command>)
      modifies this
      ensures Step(View(), sent) == ContinueReplay(old(View()), inputReady)
    {
      sent := None;
      match state {
        case ReplayReady(generation, lease, advanceId, at, total) =>
          var starts := at.segmentFrames == MAX_SEGMENT;
          if !inputReady || at.executed >= total || advanceId >= U64_MAX || at.executed >= U64_MAX
             || (if starts then at.segmentId >= U64_MAX else at.segmentFrames >= U64_MAX) {
            sent := RollBackTo(generation, lease.leaseId, lease.proof);
            return;
          }
          var segmentId, segmentFrames := at.segmentId, at.segmentFrames + 1;
          if starts {
            segmentId, segmentFrames := at.segmentId + 1, 1;
          }
          state := ReplayPending(generation, lease, advanceId, advanceId + 1, segmentId, segmentFrames,
                                 at.executed + 1, total);
          sent := Some(Advance(lease.project.profile, lease.leaseId, lease.runId, advanceId, segmentId, at));
        case _ =>
      }
    }

    method ConsumeResponse(generation: nat, r: Response, editor: Editor) returns (sent: Option<Command>)
      modifies this
      ensures Step(View(), sent) == Consume(old(View()), generation, r, editor)
    {
      sent := None;
      if state.Terminal? {
        return;
      }
      match r {
        case Acquired(requestId, leaseId, proof) =>
          sent := OnAcquired(generation, requestId, leaseId, proof, editor.binding);
        case AcquireRejected(requestId) =>
          if state.AcquirePending? && state.generation == generation && state.requestId == requestId {
            state := Detached;
          }
        case ExecutionCompleted(profile, leaseId, runId, report) =>
          sent := OnCompleted(generation, profile, leaseId, runId, report, editor.current);
        case ExecutionRejected(profile, leaseId, runId, reason) =>
          if state.ExecutionPending? && state.generation == generation {
            if profile != state.lease.project.profile || leaseId != state.lease.leaseId || runId != state.lease.runId {
              state := Terminal(generation, ExecutionMismatch);
            } else if reason.NoActiveLease? || reason.WrongLease? || reason.RunAlreadyAttempted? {
              state := Terminal(generation, ExecutionAuthority);
            } else {
              sent := RollBackTo(generation, leaseId, state.lease.proof);
            }
          }
        case FrameAdvanced(profile, leaseId, runId, advanceId, report) =>
          sent := OnAdvanced(generation, profile, leaseId, runId, advanceId, report, editor);
        case FrameAdvanceRejected(profile, leaseId, runId, advanceId, segmentId, reason) =>
          if state.ReplayPending? && state.generation == generation {
            if profile != state.lease.project.profile || leaseId != state.lease.leaseId || runId != state.lease.runId
               || advanceId != state.advanceId || segmentId != state.segmentId {
              state := Terminal(generation, AdvanceMismatch);
            } else if reason.NoActiveLease? || reason.WrongLease? {
              state := Terminal(generation, AdvanceAuthority);
            } else {
              sent := RollBackTo(generation, leaseId, state.lease.proof);
            }
          }
        case RolledBack(leaseId, restored) =>
          if state.RollbackPending? && state.generation == generation && state.leaseId == leaseId {
            state := if restored != state.checkpoint then Terminal(generation, RollbackMismatch) else Detached;
          }
        case RollbackRejected(leaseId) =>
          if state.RollbackPending? && state.generation == generation && state.leaseId == leaseId {
            state := Terminal(generation, RollbackWasRejected);
          }
        case Committed(leaseId) =>
          if state.CommitPending? && state.generation == generation && state.leaseId == leaseId {
            state := Detached;
          }
        case CommitRejected(leaseId) =>
          if state.CommitPending? && state.generation == generation && state.leaseId == leaseId {
            state := Terminal(generation, CommitWasRejected);
          }
      }
    }

    method OnAcquired(generation: nat, requestId: nat, leaseId: nat, proof: Proof, binding: Option<Binding>)
      returns (sent: Option<Command>)
      modifies this
      ensures Step(View(), sent) == ConsumeAcquired(old(View()), generation, requestId, leaseId, proof, binding)
    {
      if !state.AcquirePending? || state.generation != generation || state.requestId != requestId {
        sent := Some(Rollback(leaseId));
        if state.Detached? || state.generation == generation {
          state := RollbackPending(generation, leaseId, proof);
        }
        return;
      }
      if state.cancelled || binding.None? || binding.value.snapshot != state.wanted {
        sent := RollBackTo(generation, leaseId, proof);
        return;
      }
      var b := binding.value;
      nextRunId := 2;
      state := ExecutionPending(generation, Lease(leaseId, 1, proof, b.snapshot), b.total, b.sources);
      sent := Some(Execute(b.snapshot.profile, leaseId, 1, b.total, b.sources));
    }

    method OnCompleted(generation: nat, profile: nat, leaseId: nat, runId: nat, report: Candidate,
                       current: Option<Snapshot>) returns (sent: Option<Command>)
      modifies this
      ensures Step(View(), sent) == ConsumeCompleted(old(View()), generation, profile, leaseId, runId, report, current)
    {
      sent := None;
      if !state.ExecutionPending? || state.generation != generation {
        return;
      }
      var lease, total := state.lease, state.total;
      if profile != lease.project.profile || leaseId != lease.leaseId || runId != lease.runId {
        state := Terminal(generation, ExecutionMismatch);
        return;
      }
      if report.segmentId != 1 || !CoversFirstTransaction(report, total, state.sources) {
        state := Terminal(generation, ExecutionMismatch);
        return;
      }
      if current != Some(lease.project) {
        sent := RollBackTo(generation, leaseId, lease.proof);
      } else if report.executed == total {
        state := AwaitingDecision(generation, lease, 1, report);
      } else {
        state := ReplayReady(generation, lease, 1, report, total);
      }
    }

    method OnAdvanced(generation: nat, profile: nat, leaseId: nat, runId: nat, advanceId: nat, report: Candidate,
                      editor: Editor) returns (sent: Option<Command>)
      modifies this
      ensures Step(View(), sent)
              == ConsumeAdvanced(old(View()), generation, profile, leaseId, runId, advanceId, report,
                                 editor.current, editor.guard)
    {
      sent := None;
      if !state.ReplayPending? || state.generation != generation {
        return;
      }
      var lease, total, nextAdvanceId := state.lease, state.total, state.nextAdvanceId;
      if profile != lease.project.profile || leaseId != lease.leaseId || runId != lease.runId
         || advanceId != state.advanceId || report.segmentId != state.segmentId
         || report.segmentFrames != state.segmentFrames || report.executed != state.executed {
        state := Terminal(generation, AdvanceMismatch);
        return;
      }
      var matches := editor.guard;
      if report.executed == total {
        matches := editor.current == Some(lease.project);
      }
      if !matches {
        sent := RollBackTo(generation, leaseId, lease.proof);
      } else if report.executed > total {
        state := Terminal(generation, AdvanceMismatch);
      } else if report.executed == total {
        state := AwaitingDecision(generation, lease, nextAdvanceId, report);
      } else {
        state := ReplayReady(generation, lease, nextAdvanceId, report, total);
      }
    }
  }
}
