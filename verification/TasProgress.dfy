/** The lease protocol gets things done: work ends, and with an emulator that does not fail it ends in a commit. */
module TasProgress {
  import opened Common
  import opened TasCoordinator
  import opened TasProtocol
  import opened TasSafety

  // ---------------------------------------------------------------- moves

  /** The worker answers its next command, the coordinator takes its next reply, or the next frame is staged. */
  datatype Move = WorkerMove(env: Env) | ReplyMove(editor: Editor) | StageMove(inputReady: bool)

  function EventOf(m: Move): Event {
    match m
    case WorkerMove(env) => WorkerTurn(env)
    case ReplyMove(editor) => Deliver(editor)
    case StageMove(inputReady) => StageFrame(inputReady)
  }

  function Moved(s: System, m: Move): System {
    Next(s, EventOf(m))
  }

  function Moves(s: System, ms: seq<Move>): System {
    if ms == [] then s else Moved(Moves(s, ms[..|ms| - 1]), ms[|ms| - 1])
  }

  /** The move finds something to do. */
  predicate Useful(s: System, m: Move) {
    match m
    case WorkerMove(_) => s.commands != []
    case ReplyMove(_) => s.responses != []
    case StageMove(_) => s.coord.state.ReplayReady?
  }

  function UsefulMoves(s: System, ms: seq<Move>): nat {
    if ms == [] then 0
    else UsefulMoves(s, ms[..|ms| - 1]) + if Useful(Moves(s, ms[..|ms| - 1]), ms[|ms| - 1]) then 1 else 0
  }

  predicate AllHonestMoves(ms: seq<Move>) {
    forall i :: 0 <= i < |ms| ==> Honest(EventOf(ms[i]))
  }

  /** Nobody has anything to do until the user asks. */
  predicate AtRest(s: System) {
    Quiet(s) && !s.coord.state.ReplayReady?
  }

  /** How many useful moves are left at most: three a frame, and what ends or gives back a run. */
  function MovesLeft(s: System): nat {
    var c := s.coord.state;
    match c
    case AcquirePending(_, _, _, wanted) => 3 * wanted.prefixLen + if s.commands != [] then 9 else 8
    case ExecutionPending(_, lease, _, _) => 3 * lease.project.prefixLen + if s.commands != [] then 7 else 6
    case ReplayReady(_, lease, _, candidate, _) => 3 * Max(0, lease.project.prefixLen - candidate.executed) + 5
    case ReplayPending(_, lease, _, _, _, _, executed, _) =>
      3 * Max(0, lease.project.prefixLen - executed) + if s.commands != [] then 7 else 6
    case _ => 2 * |s.commands| + |s.responses|
  }

  // ---------------------------------------------------------------- every run of work ends

  lemma WorkerMoveCounts(s: System, env: Env)
    requires Inv(s)
    ensures s.commands != [] ==> MovesLeft(Moved(s, WorkerMove(env))) < MovesLeft(s)
    ensures s.commands == [] ==> Moved(s, WorkerMove(env)) == s
  {
  }

  lemma StageMoveCounts(s: System, inputReady: bool)
    requires Inv(s)
    ensures s.coord.state.ReplayReady? ==> MovesLeft(Moved(s, StageMove(inputReady))) < MovesLeft(s)
    ensures !s.coord.state.ReplayReady? ==> MovesLeft(Moved(s, StageMove(inputReady))) == MovesLeft(s)
  {
  }

  lemma RollbackReplyCounts(s: System, editor: Editor)
    requires Inv(s) && s.coord.state.RollbackPending? && s.responses != []
    ensures MovesLeft(Moved(s, ReplyMove(editor))) < MovesLeft(s)
  {
    if WorkReply(s.responses[0]) {
      AbandonedReplyIgnored(s, editor);
    } else {
      RollbackAnswered(s, editor);
    }
  }

  lemma WorkReplyCounts(s: System, editor: Editor)
    requires Inv(s) && Honest(Deliver(editor)) && Holds(s.coord.state) && s.responses != []
    ensures MovesLeft(Moved(s, ReplyMove(editor))) < MovesLeft(s)
  {
  }

  lemma ReplyMoveCounts(s: System, editor: Editor)
    requires Inv(s) && Honest(Deliver(editor))
    ensures s.responses != [] ==> MovesLeft(Moved(s, ReplyMove(editor))) < MovesLeft(s)
    ensures s.responses == [] ==> MovesLeft(Moved(s, ReplyMove(editor))) == MovesLeft(s)
  {
    if s.responses != [] {
      if s.coord.state.RollbackPending? {
        RollbackReplyCounts(s, editor);
      } else if Holds(s.coord.state) {
        WorkReplyCounts(s, editor);
      }
    }
  }

  lemma MoveCounts(s: System, m: Move)
    requires Inv(s) && Honest(EventOf(m))
    ensures Inv(Moved(s, m))
    ensures MovesLeft(Moved(s, m)) + (if Useful(s, m) then 1 else 0) <= MovesLeft(s)
  {
    StepKeepsInv(s, EventOf(m));
    match m
    case WorkerMove(env) => WorkerMoveCounts(s, env);
    case ReplyMove(editor) => ReplyMoveCounts(s, editor);
    case StageMove(inputReady) => StageMoveCounts(s, inputReady);
  }

  lemma {:induction false} MovesCount(s: System, ms: seq<Move>)
    requires Inv(s) && AllHonestMoves(ms)
    ensures Inv(Moves(s, ms)) && MovesLeft(Moves(s, ms)) + UsefulMoves(s, ms) <= MovesLeft(s)
  {
    if ms != [] {
      MovesCount(s, ms[..|ms| - 1]);
      MoveCounts(Moves(s, ms[..|ms| - 1]), ms[|ms| - 1]);
    }
  }

  lemma RestingStates(s: System)
    requires Inv(s) && AtRest(s)
    ensures var c := s.coord.state; c.Detached? || c.AcquireQueued? || c.AwaitingDecision? || c.Terminal?
  {
  }

  /**
   No work hangs: whatever the emulator and the editor do, in whatever order the two sides and the staging of frames
   take turns, a bounded number of useful moves ends in a state that waits for the user.
   */
  lemma WorkEnds(generation: nat, nextLeaseId: nat, es: seq<Event>, ms: seq<Move>)
    requires AllHonest(es) && AllHonestMoves(ms)
    ensures var start := Run(Start(generation, nextLeaseId), es);
            var s := Moves(start, ms);
            && UsefulMoves(start, ms) <= MovesLeft(start)
            && (AtRest(s) ==> var c := s.coord.state;
                              c.Detached? || c.AcquireQueued? || c.AwaitingDecision? || c.Terminal?)
  {
    RunKeepsInv(generation, nextLeaseId, es);
    var start := Run(Start(generation, nextLeaseId), es);
    MovesCount(start, ms);
    if AtRest(Moves(start, ms)) {
      RestingStates(Moves(start, ms));
    }
  }

  // ---------------------------------------------------------------- with an emulator that does not fail

  /** The editor shows the project throughout, bound to these cached cursors. */
  predicate Shows(editor: Editor, project: Snapshot, sources: seq<nat>) {
    && editor.binding == Some(Binding(project, project.prefixLen, sources))
    && editor.current == Some(project) && editor.guard
  }

  /** The emulator does what the next command asks: it has a witness, a usable origin, and runs the frame. */
  predicate Works(s: System, env: Env) {
    && env.held.Some? && env.origin.Some?
    && (env.origin.value.CachedSource? && s.commands != [] && s.commands[0].Execute? ==>
          && env.origin.value.cursor in s.commands[0].sources
          && env.origin.value.cursor <= s.commands[0].total)
  }

  predicate Willing(s: System, m: Move, project: Snapshot, sources: seq<nat>) {
    match m
    case WorkerMove(env) => Works(s, env)
    case ReplyMove(editor) => Shows(editor, project, sources)
    case StageMove(inputReady) => inputReady
  }

  /** Enough numbers are left for the frames to come. */
  predicate Room(nextAdvanceId: nat, segmentId: nat, executed: nat) {
    nextAdvanceId + 599 <= executed && segmentId <= nextAdvanceId
  }

  /** The work for this project under this lease is under way, or done and waiting. */
  predicate UnderWay(s: System, project: Snapshot, leaseId: nat) {
    var c := s.coord.state;
    match c
    case AcquirePending(_, _, cancelled, wanted) =>
      && !cancelled && wanted == project
      && (if s.commands != [] then s.worker.nextLeaseId == leaseId < U64_MAX
          else s.responses != [] && s.responses[0].Acquired? && s.responses[0].leaseId == leaseId)
    case ExecutionPending(_, lease, _, _) =>
      && lease.project == project && lease.leaseId == leaseId
      && (s.commands == [] ==> s.responses != [] && s.responses[0].ExecutionCompleted?)
    case ReplayReady(_, lease, next, candidate, _) =>
      && lease.project == project && lease.leaseId == leaseId && Room(next, candidate.segmentId, candidate.executed)
    case ReplayPending(_, lease, id, next, segmentId, _, executed, _) =>
      && lease.project == project && lease.leaseId == leaseId && next == id + 1 && Room(next, segmentId, executed)
      && (s.commands == [] ==> s.responses != [] && s.responses[0].FrameAdvanced?)
    case AwaitingDecision(_, lease, _, candidate) =>
      lease.project == project && lease.leaseId == leaseId && candidate.executed == project.prefixLen
    case _ => false
  }

  lemma AnswerKeepsUnderWay(s: System, env: Env, project: Snapshot, leaseId: nat)
    requires Inv(s) && UnderWay(s, project, leaseId) && Works(s, env)
    ensures UnderWay(Moved(s, WorkerMove(env)), project, leaseId)
  {
    if s.coord.state.ExecutionPending? && s.commands != [] {
      assert ExecutingPhase(s);
    } else if s.coord.state.ReplayPending? && s.commands != [] {
      assert AdvancingPhase(s);
    }
  }

  lemma StageKeepsUnderWay(s: System, project: Snapshot, leaseId: nat)
    requires Inv(s) && UnderWay(s, project, leaseId)
    ensures UnderWay(Moved(s, StageMove(true)), project, leaseId)
  {
    if s.coord.state.ReplayReady? {
      assert ReadyPhase(s);
    }
  }

  /** A first transaction that does not reach the end is a full segment. */
  lemma FirstSegmentIsFull(report: Candidate, total: nat, sources: seq<nat>)
    requires CoversFirstTransaction(report, total, sources) && report.executed < total
    ensures report.executed >= 600
  {
  }

  lemma TakeKeepsUnderWay(s: System, editor: Editor, project: Snapshot, sources: seq<nat>, leaseId: nat)
    requires Inv(s) && UnderWay(s, project, leaseId) && Shows(editor, project, sources)
    ensures UnderWay(Moved(s, ReplyMove(editor)), project, leaseId)
  {
    if s.responses != [] {
      if s.coord.state.ExecutionPending? {
        assert ExecutingPhase(s);
        var st := s.coord.state;
        if s.responses[0].report.executed < st.total {
          FirstSegmentIsFull(s.responses[0].report, st.total, st.sources);
        }
      } else if s.coord.state.ReplayPending? {
        assert AdvancingPhase(s);
      } else if s.coord.state.AcquirePending? {
        assert AcquiringPhase(s);
      }
    }
  }

  /** Every move of the schedule meets a willing emulator and editor. */
  predicate AllWilling(s: System, ms: seq<Move>, project: Snapshot, sources: seq<nat>) {
    forall i :: 0 <= i < |ms| ==> Willing(Moves(s, ms[..i]), ms[i], project, sources)
  }

  lemma WillingIsHonest(s: System, m: Move, project: Snapshot, sources: seq<nat>)
    requires Willing(s, m, project, sources) && project.prefixLen <= U64_MAX
    ensures Honest(EventOf(m))
  {
  }

  lemma {:induction false} StaysUnderWay(s: System, ms: seq<Move>, project: Snapshot, sources: seq<nat>, leaseId: nat)
    requires Inv(s) && UnderWay(s, project, leaseId) && project.prefixLen <= U64_MAX
    requires AllWilling(s, ms, project, sources)
    ensures Inv(Moves(s, ms)) && UnderWay(Moves(s, ms), project, leaseId)
    ensures MovesLeft(Moves(s, ms)) + UsefulMoves(s, ms) <= MovesLeft(s)
  {
    if ms != [] {
      var front, m := ms[..|ms| - 1], ms[|ms| - 1];
      assert forall i :: 0 <= i < |front| ==> front[..i] == ms[..i];
      StaysUnderWay(s, front, project, sources, leaseId);
      var t := Moves(s, front);
      assert Willing(Moves(s, ms[..|ms| - 1]), m, project, sources);
      WillingIsHonest(t, m, project, sources);
      MoveCounts(t, m);
      match m
      case WorkerMove(env) => AnswerKeepsUnderWay(t, env, project, leaseId);
      case ReplyMove(editor) => TakeKeepsUnderWay(t, editor, project, sources, leaseId);
      case StageMove(_) => StageKeepsUnderWay(t, project, leaseId);
    }
  }

  lemma RestIsDone(s: System, project: Snapshot, leaseId: nat)
    requires Inv(s) && UnderWay(s, project, leaseId) && AtRest(s)
    ensures s.coord.state.AwaitingDecision? && s.coord.state.lease.leaseId == leaseId
    ensures s.coord.state.lease.project == project && s.coord.state.candidate.executed == project.prefixLen
  {
  }

  /** Work that is under way gets done: within so many useful moves, and nothing else can be left when they stop. */
  lemma UnderWayIsDone(s: System, ms: seq<Move>, project: Snapshot, sources: seq<nat>, leaseId: nat)
    requires Inv(s) && UnderWay(s, project, leaseId) && project.prefixLen <= U64_MAX
    requires AllWilling(s, ms, project, sources)
    ensures UsefulMoves(s, ms) <= 3 * project.prefixLen + 9
    ensures AtRest(Moves(s, ms)) ==> Done(Moves(s, ms), project, leaseId)
  {
    StaysUnderWay(s, ms, project, sources, leaseId);
    if AtRest(Moves(s, ms)) {
      RestIsDone(Moves(s, ms), project, leaseId);
    }
  }

  /** The whole prefix has run under this lease, on both sides, and only the user's decision is missing. */
  predicate Done(s: System, project: Snapshot, leaseId: nat) {
    && s.coord.state.AwaitingDecision? && s.commands == [] && s.responses == []
    && s.coord.state.lease.leaseId == leaseId && s.coord.state.lease.project == project
    && s.coord.state.candidate.executed == project.prefixLen
    && s.worker.authority.Leased? && s.worker.authority.leaseId == leaseId
    && s.worker.authority.checkpoint == s.coord.state.lease.proof
    && s.worker.authority.candidate.Some? && s.worker.authority.candidate.value.report == s.coord.state.candidate
  }

  /** A willing emulator and editor can always make the next useful move. */
  function NextMove(s: System, project: Snapshot, sources: seq<nat>): Move {
    if s.commands != [] then WorkerMove(Env(Some(Proof(0, 0)), Some(Fresh), Proof(0, 0), None, true))
    else if s.responses != [] then
      ReplyMove(Editor(Some(Binding(project, project.prefixLen, sources)), Some(project), true))
    else StageMove(true)
  }

  /** A willing schedule can be carried on until the work is done: the bound is reached, not only kept. */
  lemma {:induction false} CanBeFinished(s: System, ms: seq<Move>, project: Snapshot, sources: seq<nat>, leaseId: nat)
    returns (all: seq<Move>)
    requires Inv(s) && UnderWay(s, project, leaseId) && project.prefixLen <= U64_MAX
    requires AllWilling(s, ms, project, sources)
    ensures AllWilling(s, all, project, sources) && Done(Moves(s, all), project, leaseId)
    ensures |ms| <= |all| && all[..|ms|] == ms
    decreases MovesLeft(Moves(s, ms))
  {
    all := ms;
    StaysUnderWay(s, ms, project, sources, leaseId);
    var t := Moves(s, ms);
    if AtRest(t) {
      RestIsDone(t, project, leaseId);
    } else {
      var m := NextMove(t, project, sources);
      OneMoreWilling(s, ms, m, project, sources);
      MoveCounts(t, m);
      assert (ms + [m])[..|ms|] == ms;
      all := CanBeFinished(s, ms + [m], project, sources, leaseId);
      assert all[..|ms|] == all[..|ms + [m]|][..|ms|];
    }
  }

  lemma OneMoreWilling(s: System, ms: seq<Move>, m: Move, project: Snapshot, sources: seq<nat>)
    requires AllWilling(s, ms, project, sources) && Willing(Moves(s, ms), m, project, sources)
    ensures AllWilling(s, ms + [m], project, sources)
  {
    forall i | 0 <= i < |ms + [m]|
      ensures Willing(Moves(s, (ms + [m])[..i]), (ms + [m])[i], project, sources)
    {
      assert (ms + [m])[..i] == ms[..i];
      if i == |ms| {
        assert ms[..i] == ms;
      }
    }
  }

  /** The lease this acquisition gets: the one already granted, or the worker's next. */
  function LeaseToCome(s: System): nat {
    if s.worker.authority.Leased? then s.worker.authority.leaseId else s.worker.nextLeaseId
  }

  /**
   An acquisition executes. From every reachable acquisition that is neither cancelled nor refused, with the editor
   showing the wanted project and an emulator that does not fail, every schedule of the worker, the coordinator and
   the staging of frames has at most this many useful moves, and when none is left the whole prefix has run.
   */
  lemma AcquisitionIsExecuted(generation: nat, nextLeaseId: nat, es: seq<Event>, ms: seq<Move>, sources: seq<nat>)
    requires AllHonest(es)
    requires var s := Run(Start(generation, nextLeaseId), es);
             && s.coord.state.AcquirePending? && !s.coord.state.cancelled
             && s.coord.state.wanted.prefixLen <= U64_MAX
             && (s.commands != [] ==> s.worker.nextLeaseId < U64_MAX)
             && (s.responses != [] ==> !s.responses[0].AcquireRejected?)
             && AllWilling(s, ms, s.coord.state.wanted, sources)
    ensures var s := Run(Start(generation, nextLeaseId), es);
            var project := s.coord.state.wanted;
            && UsefulMoves(s, ms) <= 3 * project.prefixLen + 9
            && (AtRest(Moves(s, ms)) ==> Done(Moves(s, ms), project, LeaseToCome(s)))
  {
    RunKeepsInv(generation, nextLeaseId, es);
    var s := Run(Start(generation, nextLeaseId), es);
    assert AcquiringPhase(s);
    UnderWayIsDone(s, ms, s.coord.state.wanted, sources, LeaseToCome(s));
  }

  /** Asking for the game sends one acquisition with the next request number, at once or from the queue. */
  lemma AskingAcquires(generation: nat, nextLeaseId: nat, es: seq<Event>, project: Snapshot)
    requires AllHonest(es) && Run(Start(generation, nextLeaseId), es).coord.state.Detached?
    requires Run(Start(generation, nextLeaseId), es).coord.nextRequestId < U64_MAX
    ensures var s := Run(Start(generation, nextLeaseId), es);
            var direct := Next(s, AskAcquire(project));
            var queued := Next(Next(s, AskQueue(project, true)), SendQueued);
            && direct.coord.state == AcquirePending(generation, s.coord.nextRequestId, false, project)
            && direct.commands == [Acquire(s.coord.nextRequestId, project.profile)]
            && queued == direct
  {
    RunKeepsInv(generation, nextLeaseId, es);
    RunKeepsGeneration(generation, nextLeaseId, es);
  }

  lemma {:induction false} RunKeepsGeneration(generation: nat, nextLeaseId: nat, es: seq<Event>)
    ensures Run(Start(generation, nextLeaseId), es).generation == generation
  {
    if es != [] {
      RunKeepsGeneration(generation, nextLeaseId, es[..|es| - 1]);
    }
  }

  /** Seeking runs again on the same lease, for the project the editor shows now. */
  lemma SeekIsExecuted(generation: nat, nextLeaseId: nat, es: seq<Event>, binding: Binding, ms: seq<Move>,
                       sources: seq<nat>)
    requires AllHonest(es) && binding.total == binding.snapshot.prefixLen <= U64_MAX
    requires var s := Run(Start(generation, nextLeaseId), es);
             && s.coord.state.AwaitingDecision? && s.coord.nextRunId < U64_MAX
             && s.coord.state.lease.project.profile == binding.snapshot.profile
             && s.coord.state.lease.project.identitySha == binding.snapshot.identitySha
             && AllWilling(Next(s, AskSeek(binding)), ms, binding.snapshot, sources)
    ensures var s := Run(Start(generation, nextLeaseId), es);
            var t := Next(s, AskSeek(binding));
            && UsefulMoves(t, ms) <= 3 * binding.snapshot.prefixLen + 9
            && (AtRest(Moves(t, ms)) ==> Done(Moves(t, ms), binding.snapshot, s.coord.state.lease.leaseId))
  {
    RunKeepsInv(generation, nextLeaseId, es);
    var s := Run(Start(generation, nextLeaseId), es);
    StepKeepsInv(s, AskSeek(binding));
    UnderWayIsDone(Next(s, AskSeek(binding)), ms, binding.snapshot, sources, s.coord.state.lease.leaseId);
  }

  /** The user commits: with the bound project showing and a state that verifies, the game is the player's again. */
  lemma CommitGoesThrough(s: System, env: Env, editor: Editor)
    requires Inv(s) && s.coord.state.AwaitingDecision? && env.verified
    ensures var leaseId := s.coord.state.lease.leaseId;
            var asked := Next(s, AskCommit(Some(s.coord.state.lease.project)));
            var answered := Next(asked, WorkerTurn(env));
            && asked.commands == [Commit(leaseId)]
            && answered.responses == [Committed(leaseId)] && answered.worker.authority.Gameplay?
            && IsOver(Next(answered, Deliver(editor)))
  {
    assert DecidingPhase(s);
    CommitIsAnswered(Next(s, AskCommit(Some(s.coord.state.lease.project))), env, editor);
  }

  /** The player has the game, and nothing is on its way. */
  predicate IsOver(s: System) {
    s.coord.state == Detached && s.worker.authority.Gameplay? && s.commands == [] && s.responses == []
  }

  lemma CommitIsAnswered(s: System, env: Env, editor: Editor)
    requires s.coord.state.CommitPending? && s.coord.state.generation == s.generation && s.responses == []
    requires s.commands == [Commit(s.coord.state.leaseId)]
    requires s.worker.authority.Leased? && s.worker.authority.leaseId == s.coord.state.leaseId
    requires s.worker.authority.candidate.Some? && env.verified
    ensures var t := Next(s, WorkerTurn(env));
            && t.responses == [Committed(s.coord.state.leaseId)] && t.worker.authority.Gameplay?
            && IsOver(Next(t, Deliver(editor)))
  {
  }

  /** With anything else showing, or cancelled instead, the lease is rolled back to its witness. */
  lemma DeclinedGoesBack(s: System, e: Event, env: Env, editor: Editor)
    requires Inv(s) && s.coord.state.AwaitingDecision? && env.restored == Some(s.coord.state.lease.proof)
    requires e == AskCancel || (e.AskCommit? && e.current != Some(s.coord.state.lease.project))
    ensures var lease := s.coord.state.lease;
            var asked := Next(s, e);
            var answered := Next(asked, WorkerTurn(env));
            && asked.commands == [Rollback(lease.leaseId)]
            && answered.responses == [RolledBack(lease.leaseId, lease.proof)]
            && IsOver(Next(answered, Deliver(editor)))
  {
    assert DecidingPhase(s);
    RollbackIsAnswered(Next(s, e), env, editor);
  }

  lemma RollbackIsAnswered(s: System, env: Env, editor: Editor)
    requires s.coord.state.RollbackPending? && s.coord.state.generation == s.generation
    requires s.commands == [Rollback(s.coord.state.leaseId)] && s.responses == []
    requires s.worker.authority.Leased? && s.worker.authority.leaseId == s.coord.state.leaseId
    requires s.worker.authority.checkpoint == s.coord.state.checkpoint
    requires env.restored == Some(s.coord.state.checkpoint)
    ensures var t := Next(s, WorkerTurn(env));
            && t.responses == [RolledBack(s.coord.state.leaseId, s.coord.state.checkpoint)]
            && t.worker.authority.Gameplay? && IsOver(Next(t, Deliver(editor)))
  {
  }

  // ---------------------------------------------------------------- when the editor moves on

  /** The editor's project is still the linked one; the cursor and the prefix may differ. */
  predicate SameProject(p: Snapshot, q: Snapshot) {
    (p.profile, p.editGeneration, p.contentSha, p.identitySha, p.branch, p.branchFrames)
    == (q.profile, q.editGeneration, q.contentSha, q.identitySha, q.branch, q.branchFrames)
  }

  /** Both stand for the same inputs on the same machine. */
  predicate SameInputs(p: Snapshot, q: Snapshot) {
    (p.profile, p.identitySha, p.prefixLen, p.prefixSha) == (q.profile, q.identitySha, q.prefixLen, q.prefixSha)
  }

  /** A held lease survives an edit exactly when the project or its inputs are the same, and then runs on. */
  lemma EditIsFollowedIff(s: System, current: Option<Snapshot>)
    requires Inv(s) && Holds(s.coord.state)
    ensures var lease, t := s.coord.state.lease, Next(s, EditorMoved(current));
            var kept := current.Some? && SameProject(lease.project, current.value);
            var rebound := current.Some? && SameInputs(lease.project, current.value);
            && (kept ==> t == s)
            && (!kept && rebound ==>
                  && Holds(t.coord.state) && t.coord.state.lease == lease.(project := current.value)
                  && t.commands == s.commands && t.responses == s.responses && t.worker == s.worker)
            && (!kept && !rebound ==>
                  && t.coord.state == RollbackPending(s.generation, lease.leaseId, lease.proof)
                  && t.commands == s.commands + [Rollback(lease.leaseId)])
  {
  }

  /** What was only asked for is dropped, or marked for return, exactly when the editor shows something else. */
  lemma EditDropsUnwanted(s: System, current: Option<Snapshot>)
    requires Inv(s) && !Holds(s.coord.state)
    ensures var c, t := s.coord.state, Next(s, EditorMoved(current));
            t == s.(coord := t.coord, history := t.history) &&
            match c
            case AcquireQueued(_, wanted) => t.coord.state == if current == Some(wanted) then c else Detached
            case AcquirePending(generation, id, cancelled, wanted) =>
              t.coord.state == AcquirePending(generation, id, cancelled || current != Some(wanted), wanted)
            case _ => t.coord == s.coord
  {
  }

  predicate Unmoved(s: System, t: System) {
    t.coord == s.coord && t.commands == s.commands && t.responses == s.responses && t.worker == s.worker
  }

  /** A request that cannot be met changes nothing: the game is not free, or the mode does not support it. */
  lemma RefusedRequests(s: System, project: Snapshot, modeSupported: bool)
    requires Inv(s) && !(s.coord.state.Detached? && modeSupported)
    ensures Unmoved(s, Next(s, AskQueue(project, modeSupported)))
    ensures !s.coord.state.Detached? ==> Unmoved(s, Next(s, AskAcquire(project)))
    ensures !s.coord.state.AcquireQueued? ==> Unmoved(s, Next(s, SendQueued))
  {
  }

  /** In every run, what is executing, staged or awaiting a decision runs the inputs that were bound. */
  lemma InputsNeverChange(generation: nat, nextLeaseId: nat, es: seq<Event>)
    requires AllHonest(es)
    ensures var s := Run(Start(generation, nextLeaseId), es);
            Holds(s.coord.state) ==>
              s.history.bound.Some? && SameInputs(s.history.bound.value, s.coord.state.lease.project)
  {
    RunKeepsInv(generation, nextLeaseId, es);
  }
}
