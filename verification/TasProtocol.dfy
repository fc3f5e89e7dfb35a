/**
 The whole lease protocol: the coordinator, the emulator worker's authority machine, and the two
 FIFO channels between them. Everything the emulator itself decides (whether a witness is available,
 whether frames run, what the state hashes to) is an arbitrary environment choice.
 */
module TasProtocol {
  import opened Common
  import opened TasCoordinator

  // ---------------------------------------------------------------- the worker

  datatype WorkerCandidate = WorkerCandidate(report: Candidate, lastAdvanceId: nat)

  datatype Authority =
    | Gameplay
    | Leased(leaseId: nat, profile: nat, checkpoint: Proof, attempted: nat, failed: bool,
             candidate: Option<WorkerCandidate>)

  /** `attempted` is the last run tried on the lease, 0 before the first. */
  datatype Worker = Worker(authority: Authority, nextLeaseId: nat)

  /** Where an execution starts: the project's start state, a cached target, or a cached predecessor. */
  datatype Origin = Fresh | CachedTarget | CachedSource(cursor: nat)

  /** What the emulator does while the worker handles one command. */
  datatype Env = Env(held: Option<Proof>, origin: Option<Origin>, after: Proof, restored: Option<Proof>, verified: bool)

  function ExecutionReport(origin: Origin, total: nat, sources: seq<nat>, after: Proof): Option<Candidate> {
    match origin
    case Fresh => Some(Candidate(1, Min(total, MAX_SEGMENT), Min(total, MAX_SEGMENT), after.frameCount, after.stateSha))
    case CachedTarget => Some(Candidate(1, 0, total, after.frameCount, after.stateSha))
    case CachedSource(cursor) =>
      if cursor !in sources || cursor > total then None
      else
        var frames := Min(total - cursor, MAX_SEGMENT);
        Some(Candidate(1, frames, cursor + frames, after.frameCount, after.stateSha))
  }

  function DoAcquire(w: Worker, id: nat, profile: nat, env: Env): (Worker, Response) {
    if w.authority.Leased? || w.nextLeaseId >= U64_MAX || env.held.None? then (w, AcquireRejected(id))
    else (Worker(Leased(w.nextLeaseId, profile, env.held.value, 0, false, None), w.nextLeaseId + 1),
          Acquired(id, w.nextLeaseId, env.held.value))
  }

  function DoExecute(w: Worker, c: Command, env: Env): (Worker, Response)
    requires c.Execute?
  {
    var a := w.authority;
    if a.Gameplay? then (w, ExecutionRejected(c.profile, c.leaseId, c.runId, NoActiveLease))
    else if a.leaseId != c.leaseId then (w, ExecutionRejected(c.profile, c.leaseId, c.runId, WrongLease))
    else if a.profile != c.profile then (w, ExecutionRejected(c.profile, c.leaseId, c.runId, WrongProfile))
    else if c.runId == 0 then (w, ExecutionRejected(c.profile, c.leaseId, c.runId, InvalidRunId))
    else if a.failed || a.attempted >= U64_MAX || c.runId != a.attempted + 1 then
      (w, ExecutionRejected(c.profile, c.leaseId, c.runId, RunAlreadyAttempted))
    else
      var report := if env.origin.None? then None else ExecutionReport(env.origin.value, c.total, c.sources, env.after);
      if report.None? then
        (w.(authority := a.(attempted := c.runId, failed := true, candidate := None)),
         ExecutionRejected(c.profile, c.leaseId, c.runId, BackendFailed))
      else
        (w.(authority := a.(attempted := c.runId, candidate := Some(WorkerCandidate(report.value, 0)))),
         ExecutionCompleted(c.profile, c.leaseId, c.runId, report.value))
  }

  /** The checks before one staged frame; None when the frame may run. */
  function AdvanceBlocker(a: Authority, c: Command): Option<Reason>
    requires c.Advance?
  {
    if a.Gameplay? then Some(NoActiveLease)
    else if a.leaseId != c.leaseId then Some(WrongLease)
    else if a.profile != c.profile then Some(WrongProfile)
    else if a.attempted == 0 || a.candidate.None? then Some(NoCompletedExecution)
    else if a.attempted != c.runId then Some(WrongRun)
    else
      var at := a.candidate.value.report;
      var starts := at.segmentFrames == MAX_SEGMENT;
      if c.advanceId == 0 then Some(InvalidAdvanceId)
      else if a.candidate.value.lastAdvanceId >= U64_MAX then Some(AdvanceIdExhausted)
      else if c.advanceId != a.candidate.value.lastAdvanceId + 1 then Some(UnexpectedAdvanceId)
      else if c.from.segmentFrames != at.segmentFrames || c.from.executed != at.executed then Some(SegmentProofMismatch)
      else if c.from.frameCount != at.frameCount || c.from.stateSha != at.stateSha then Some(CandidateProofMismatch)
      else if starts && at.segmentId >= U64_MAX then Some(SegmentIdExhausted)
      else if c.segmentId != (if starts then at.segmentId + 1 else at.segmentId) then Some(UnexpectedSegmentId)
      else if (!starts && at.segmentFrames + 1 > MAX_SEGMENT) || at.executed >= U64_MAX then Some(FrameLimitExceeded)
      else None
  }

  function DoAdvance(w: Worker, c: Command, env: Env): (Worker, Response)
    requires c.Advance?
  {
    var a := w.authority;
    var blocker := AdvanceBlocker(a, c);
    if blocker.Some? then
      (w, FrameAdvanceRejected(c.profile, c.leaseId, c.runId, c.advanceId, c.segmentId, blocker.value))
    else if env.origin.None? then
      (w, FrameAdvanceRejected(c.profile, c.leaseId, c.runId, c.advanceId, c.segmentId, BackendFailed))
    else
      var at := a.candidate.value.report;
      var report := Candidate(c.segmentId, if at.segmentFrames == MAX_SEGMENT then 1 else at.segmentFrames + 1,
                              at.executed + 1, env.after.frameCount, env.after.stateSha);
      (w.(authority := a.(candidate := Some(WorkerCandidate(report, c.advanceId)))),
       FrameAdvanced(c.profile, c.leaseId, c.runId, c.advanceId, report))
  }

  function DoRollback(w: Worker, leaseId: nat, env: Env): (Worker, Response) {
    if w.authority.Gameplay? || w.authority.leaseId != leaseId || env.restored != Some(w.authority.checkpoint) then
      (w, RollbackRejected(leaseId))
    else (w.(authority := Gameplay), RolledBack(leaseId, w.authority.checkpoint))
  }

  function DoCommit(w: Worker, leaseId: nat, env: Env): (Worker, Response) {
    if w.authority.Gameplay? || w.authority.leaseId != leaseId || w.authority.candidate.None? || !env.verified then
      (w, CommitRejected(leaseId))
    else (w.(authority := Gameplay), Committed(leaseId))
  }

  function Handle(w: Worker, c: Command, env: Env): (Worker, Response) {
    match c
    case Acquire(id, profile) => DoAcquire(w, id, profile, env)
    case Execute(_, _, _, _, _) => DoExecute(w, c, env)
    case Advance(_, _, _, _, _, _) => DoAdvance(w, c, env)
    case Rollback(leaseId) => DoRollback(w, leaseId, env)
    case Commit(leaseId) => DoCommit(w, leaseId, env)
  }

  // ---------------------------------------------------------------- the system

  /** The first transaction of a run as the worker reported it, with what the run was asked for. */
  datatype Opening = Opening(leaseId: nat, runId: nat, report: Candidate, total: nat, sources: seq<nat>)

  /**
   What happened so far: acquisition requests sent, cancelled while pending, and answered by an
   execution; the snapshot the last execution was bound to, the accepted opening of the last run, and the
   editor's own snapshot at the moment the last run was accepted as complete.
   */
  datatype History = History(requests: seq<nat>, cancelled: set<nat>, executed: set<nat>,
                             bound: Option<Snapshot>, opening: Option<Opening>, completed: Option<Snapshot>)

  datatype System = System(generation: nat, coord: Coord, commands: seq<Command>, responses: seq<Response>,
                           worker: Worker, history: History)

  datatype Event =
    | AskAcquire(project: Snapshot)
    | AskQueue(project: Snapshot, modeSupported: bool)
    | SendQueued
    | AskCancel
    | AskCommit(current: Option<Snapshot>)
    | EditorMoved(current: Option<Snapshot>)
    | AskSeek(binding: Binding)
    | StageFrame(inputReady: bool)
    | Deliver(editor: Editor)
    | WorkerTurn(env: Env)

  function Start(generation: nat, nextLeaseId: nat): System {
    System(generation, INITIAL, [], [], Worker(Gameplay, nextLeaseId), History([], {}, {}, None, None, None))
  }

  function Record(h: History, before: State, step: Step, e: Event): History {
    var after, sent := step.coord.state, step.sent;
    History(
      if sent.Some? && sent.value.Acquire? then h.requests + [sent.value.requestId] else h.requests,
      if before.AcquirePending? && after.AcquirePending? && after.cancelled then h.cancelled + {before.requestId}
      else h.cancelled,
      if before.AcquirePending? && sent.Some? && sent.value.Execute? then h.executed + {before.requestId}
      else h.executed,
      if sent.Some? && sent.value.Execute? && Holds(after) then Some(after.lease.project) else h.bound,
      if before.ExecutionPending? && (after.ReplayReady? || after.AwaitingDecision?)
      then Some(Opening(before.lease.leaseId, before.lease.runId, after.candidate, before.total, before.sources))
      else h.opening,
      if after.AwaitingDecision? && !before.AwaitingDecision? && e.Deliver? then e.editor.current else h.completed)
  }

  function Apply(s: System, step: Step, e: Event): System {
    s.(coord := step.coord,
       commands := if step.sent.Some? then s.commands + [step.sent.value] else s.commands,
       history := Record(s.history, s.coord.state, step, e))
  }

  /** What the coordinator does on an event; worker turns do not concern it. */
  function Reaction(s: System, e: Event): Step {
    match e
    case AskAcquire(project) => BeginAcquire(s.coord, s.generation, project)
    case AskQueue(project, modeSupported) => QueueAcquire(s.coord, s.generation, project, modeSupported)
    case SendQueued => BeginQueuedAcquire(s.coord)
    case AskCancel => Cancel(s.coord)
    case AskCommit(current) => CommitRun(s.coord, current)
    case EditorMoved(current) => Reconcile(s.coord, current)
    case AskSeek(binding) => LinkedSeek(s.coord, binding)
    case StageFrame(inputReady) => ContinueReplay(s.coord, inputReady)
    case Deliver(editor) =>
      if s.responses == [] then Step(s.coord, None) else Consume(s.coord, s.generation, s.responses[0], editor)
    case WorkerTurn(_) => Step(s.coord, None)
  }

  function Next(s: System, e: Event): System {
    if e.WorkerTurn? then
      if s.commands == [] then s
      else
        var (w, r) := Handle(s.worker, s.commands[0], e.env);
        s.(worker := w, commands := s.commands[1..], responses := s.responses + [r])
    else
      var t := Apply(s, Reaction(s, e), e);
      if e.Deliver? && s.responses != [] then t.(responses := s.responses[1..]) else t
  }

  /** Bindings come from one capture of the session: the prefix ends at the captured boundary. */
  predicate Honest(e: Event) {
    match e
    case Deliver(editor) => editor.binding.Some? ==> Captured(editor.binding.value)
    case AskSeek(binding) => Captured(binding)
    case _ => true
  }

  predicate Captured(b: Binding) {
    b.total == b.snapshot.prefixLen <= U64_MAX
  }

  function Run(s: System, es: seq<Event>): System {
    if es == [] then s else Next(Run(s, es[..|es| - 1]), es[|es| - 1])
  }

  predicate AllHonest(es: seq<Event>) {
    forall i :: 0 <= i < |es| ==> Honest(es[i])
  }

  // ---------------------------------------------------------------- the invariant

  predicate Quiet(s: System) {
    s.commands == [] && s.responses == []
  }

  /** The worker holds this lease, for this profile, with the acquisition witness as its checkpoint. */
  predicate HeldFor(w: Worker, lease: Lease) {
    && w.authority.Leased? && w.authority.leaseId == lease.leaseId
    && w.authority.profile == lease.project.profile && w.authority.checkpoint == lease.proof
  }

  /** Coordinator and worker agree on the staged candidate and on the next advance. */
  predicate Staged(w: Worker, lease: Lease, at: Candidate, nextAdvanceId: nat) {
    && HeldFor(w, lease) && !w.authority.failed && w.authority.attempted == lease.runId
    && 1 <= nextAdvanceId
    && w.authority.candidate == Some(WorkerCandidate(at, nextAdvanceId - 1))
    && at.segmentFrames <= MAX_SEGMENT
  }

  predicate Work(c: Command) {
    c.Execute? || c.Advance?
  }

  predicate WorkReply(r: Response) {
    r.ExecutionCompleted? || r.ExecutionRejected? || r.FrameAdvanced? || r.FrameAdvanceRejected?
  }

  predicate AcquiringPhase(s: System)
    requires s.coord.state.AcquirePending?
  {
    var id, w := s.coord.state.requestId, s.worker.authority;
    || (s.commands == [Acquire(id, s.coord.state.wanted.profile)] && s.responses == [] && w.Gameplay?)
    || (s.commands == [] && s.responses == [AcquireRejected(id)] && w.Gameplay?)
    || (&& s.commands == [] && w.Leased?
        && w == Leased(w.leaseId, s.coord.state.wanted.profile, w.checkpoint, 0, false, None)
        && s.responses == [Acquired(id, w.leaseId, w.checkpoint)])
  }

  predicate ExecutingPhase(s: System)
    requires s.coord.state.ExecutionPending?
  {
    var st, w := s.coord.state, s.worker.authority;
    var lease := st.lease;
    && HeldFor(s.worker, lease) && st.total == lease.project.prefixLen <= U64_MAX && 1 <= lease.runId <= U64_MAX
    && (|| (&& s.commands == [Execute(lease.project.profile, lease.leaseId, lease.runId, st.total, st.sources)]
            && s.responses == [] && !w.failed && w.attempted + 1 == lease.runId)
        || (&& s.commands == [] && |s.responses| == 1 && w.candidate.Some?
            && var report := w.candidate.value.report;
            && s.responses[0] == ExecutionCompleted(lease.project.profile, lease.leaseId, lease.runId, report)
            && Staged(s.worker, lease, report, 1)
            && report.segmentId == 1 && CoversFirstTransaction(report, st.total, st.sources)
            && report.executed <= st.total)
        || (s.commands == []
            && s.responses == [ExecutionRejected(lease.project.profile, lease.leaseId, lease.runId, BackendFailed)]))
  }

  predicate ReadyPhase(s: System)
    requires s.coord.state.ReplayReady?
  {
    var st := s.coord.state;
    && Quiet(s) && Staged(s.worker, st.lease, st.candidate, st.nextAdvanceId)
    && st.total == st.lease.project.prefixLen <= U64_MAX && st.candidate.executed < st.total
    && 1 <= st.lease.runId
  }

  predicate AdvancingPhase(s: System)
    requires s.coord.state.ReplayPending?
  {
    var st, w := s.coord.state, s.worker.authority;
    var lease := st.lease;
    && HeldFor(s.worker, lease) && st.total == lease.project.prefixLen <= U64_MAX
    && 1 <= lease.runId && 1 <= st.advanceId < st.nextAdvanceId == st.advanceId + 1 <= U64_MAX
        && st.executed <= st.total
    && w.candidate.Some?
    && var at := w.candidate.value.report;
    && (|| (&& s.commands
               == [Advance(lease.project.profile, lease.leaseId, lease.runId, st.advanceId, st.segmentId, at)]
            && s.responses == [] && Staged(s.worker, lease, at, st.advanceId)
            && st.executed == at.executed + 1
            && (if at.segmentFrames == MAX_SEGMENT
                then st.segmentId == at.segmentId + 1 <= U64_MAX && st.segmentFrames == 1
                else st.segmentId == at.segmentId && st.segmentFrames == at.segmentFrames + 1))
        || (&& s.commands == []
            && s.responses == [FrameAdvanced(lease.project.profile, lease.leaseId, lease.runId, st.advanceId, at)]
            && Staged(s.worker, lease, at, st.nextAdvanceId)
            && at.segmentId == st.segmentId && at.segmentFrames == st.segmentFrames && at.executed == st.executed)
        || (&& s.commands == []
            && s.responses == [FrameAdvanceRejected(lease.project.profile, lease.leaseId, lease.runId, st.advanceId,
                                                    st.segmentId, BackendFailed)]))
  }

  predicate DecidingPhase(s: System)
    requires s.coord.state.AwaitingDecision?
  {
    var st := s.coord.state;
    && Quiet(s) && Staged(s.worker, st.lease, st.candidate, st.nextAdvanceId)
    && st.candidate.executed == st.lease.project.prefixLen
    && 1 <= st.lease.runId
  }

  predicate RollingBackPhase(s: System)
    requires s.coord.state.RollbackPending?
  {
    var st, w, n := s.coord.state, s.worker.authority, |s.responses|;
    var kept := w.Leased? && w.leaseId == st.leaseId && w.checkpoint == st.checkpoint;
    || (kept && s.commands == [Rollback(st.leaseId)] && (n == 0 || (n == 1 && WorkReply(s.responses[0]))))
    || (kept && n == 0 && |s.commands| == 2 && Work(s.commands[0]) && s.commands[1] == Rollback(st.leaseId))
    || (&& s.commands == [] && (n == 1 || (n == 2 && WorkReply(s.responses[0])))
        && (|| (s.responses[n - 1] == RolledBack(st.leaseId, st.checkpoint) && w.Gameplay?)
            || (s.responses[n - 1] == RollbackRejected(st.leaseId) && kept)))
  }

  predicate CommittingPhase(s: System)
    requires s.coord.state.CommitPending?
  {
    var id, w := s.coord.state.leaseId, s.worker.authority;
    || (s.commands == [Commit(id)] && s.responses == [] && w.Leased? && w.leaseId == id && w.candidate.Some?)
    || (s.commands == [] && s.responses == [Committed(id)] && w.Gameplay?)
    || (s.commands == [] && s.responses == [CommitRejected(id)] && w.Leased? && w.leaseId == id)
  }

  predicate Phase(s: System) {
    match s.coord.state
    case Detached => Quiet(s) && s.worker.authority.Gameplay?
    case AcquireQueued(_, _) => Quiet(s) && s.worker.authority.Gameplay?
    case AcquirePending(_, _, _, _) => AcquiringPhase(s)
    case ExecutionPending(_, _, _, _) => ExecutingPhase(s)
    case ReplayReady(_, _, _, _, _) => ReadyPhase(s)
    case ReplayPending(_, _, _, _, _, _, _, _) => AdvancingPhase(s)
    case AwaitingDecision(_, _, _, _) => DecidingPhase(s)
    case RollbackPending(_, _, _) => RollingBackPhase(s)
    case CommitPending(_, _) => CommittingPhase(s)
    case Terminal(_, reason) =>
      (reason.RollbackWasRejected? || reason.CommitWasRejected?) && Quiet(s) && s.worker.authority.Leased?
  }

  ghost predicate HistoryKept(s: System) {
    var h, st := s.history, s.coord.state;
    && (forall i :: 0 <= i < |h.requests| ==> h.requests[i] < s.coord.nextRequestId)
    && (forall i, j :: 0 <= i < j < |h.requests| ==> h.requests[i] < h.requests[j])
    && (forall r :: r in h.cancelled ==> r < s.coord.nextRequestId)
    && (forall r :: r in h.executed ==> r < s.coord.nextRequestId)
    && h.cancelled !! h.executed
    && (st.AcquirePending? ==>
          && st.requestId < s.coord.nextRequestId && st.requestId !in h.executed
          && (st.cancelled <==> st.requestId in h.cancelled))
  }

  /** A rebound project runs the same inputs: profile, identity, prefix length and prefix hash are equal. */
  predicate PrefixKept(s: System) {
    var h, st := s.history, s.coord.state;
    && (Holds(st) ==> h.bound.Some? && h.bound.value.CanRebind(Some(st.lease.project)))
    && (st.AwaitingDecision? ==> h.completed.Some? && h.completed.value.CanRebind(Some(st.lease.project)))
    && (Holds(st) && !st.ExecutionPending? ==> OpenedProperly(h, st.lease))
  }

  /** The run of this lease opened fresh, at a cached target or after a known predecessor, for the whole prefix. */
  predicate OpenedProperly(h: History, lease: Lease) {
    && h.opening.Some?
    && h.opening.value.leaseId == lease.leaseId && h.opening.value.runId == lease.runId
    && h.opening.value.total == lease.project.prefixLen
    && CoversFirstTransaction(h.opening.value.report, h.opening.value.total, h.opening.value.sources)
  }

  /** The invariant of every run, apart from what `HistoryKept` says of the request log. */
  predicate Inv(s: System) {
    && Phase(s) && PrefixKept(s)
    && (s.coord.state.Detached? || s.coord.state.generation == s.generation)
    && (Holds(s.coord.state) ==> s.coord.nextRunId == s.coord.state.lease.runId + 1)
  }
}
