/**
 What each side accepts from the other, whatever it is sent. The runs of `TasSafety` exchange only what the two
 machines send; here a reply or a command is arbitrary, as if the other side or the channel were broken.
 */
module TasReplies {
  import opened Common
  import opened TasCoordinator
  import opened TasProtocol

  // ---------------------------------------------------------------- the coordinator

  /** The report ends a first transaction of at most 600 frames, begun at the start, a cached cursor or the end. */
  ghost predicate FirstTransaction(report: Candidate, total: nat, sources: seq<nat>) {
    && report.segmentId == 1
    && (|| (report.executed == total && report.segmentFrames == 0)
        || (exists cursor: nat :: (cursor == 0 || cursor in sources) && Spans(report, cursor, total)))
  }

  /** From the cursor to the total, or six hundred frames if that is more. */
  predicate Spans(report: Candidate, cursor: nat, total: nat) {
    && cursor <= total && report.executed == cursor + report.segmentFrames
    && (if total - cursor <= 600 then report.executed == total else report.segmentFrames == 600)
  }

  lemma FirstTransactionCovers(report: Candidate, total: nat, sources: seq<nat>)
    requires report.segmentId == 1
    ensures CoversFirstTransaction(report, total, sources) <==> FirstTransaction(report, total, sources)
  {
    if CoversFirstTransaction(report, total, sources) && !(report.executed == total && report.segmentFrames == 0) {
      assert Spans(report, report.executed - report.segmentFrames, total);
    }
  }

  /** An execution is accepted exactly on a report of this lease, run and profile that spans its first transaction. */
  lemma ExecutionAcceptedIff(c: Coord, generation: nat, r: Response, editor: Editor)
    requires c.state.ExecutionPending? && c.state.generation == generation
    ensures var st, t := c.state, Consume(c, generation, r, editor);
            var fits := && r.ExecutionCompleted? && r.profile == st.lease.project.profile
                        && r.leaseId == st.lease.leaseId && r.runId == st.lease.runId
                        && FirstTransaction(r.report, st.total, st.sources);
            && (t.coord.state.AwaitingDecision? <==>
                  fits && editor.current == Some(st.lease.project) && r.report.executed == st.total)
            && (t.coord.state.ReplayReady? <==>
                  fits && editor.current == Some(st.lease.project) && r.report.executed != st.total)
            && (t.coord.state.AwaitingDecision? || t.coord.state.ReplayReady? ==>
                  && t.sent == None && t.coord.state.lease == st.lease && t.coord.state.candidate == r.report
                  && t.coord.state.nextAdvanceId == 1
                  && (t.coord.state.ReplayReady? ==> t.coord.state.total == st.total))
            && (r.ExecutionCompleted? ==> (t.coord.state == Terminal(generation, ExecutionMismatch) <==> !fits))
  {
    if r.ExecutionCompleted? && r.report.segmentId == 1 {
      FirstTransactionCovers(r.report, c.state.total, c.state.sources);
    }
  }

  /**
   The next frame is staged exactly when the session has its input, the prefix is not used up and the numbers are not;
   it continues the accepted candidate, in its segment or, after six hundred frames, in the next. Otherwise the game
   is given back.
   */
  lemma StagesIff(c: Coord, inputReady: bool)
    requires c.state.ReplayReady?
    ensures var st, at, t := c.state, c.state.candidate, ContinueReplay(c, inputReady);
            var full := at.segmentFrames == 600;
            if && inputReady && at.executed < st.total && at.executed < U64_MAX && st.nextAdvanceId < U64_MAX
               && (if full then at.segmentId < U64_MAX else at.segmentFrames < U64_MAX)
            then
              var segment := if full then at.segmentId + 1 else at.segmentId;
              && t.sent == Some(Advance(st.lease.project.profile, st.lease.leaseId, st.lease.runId, st.nextAdvanceId,
                                        segment, at))
              && t.coord == c.(state := ReplayPending(st.generation, st.lease, st.nextAdvanceId, st.nextAdvanceId + 1,
                                                      segment, if full then 1 else at.segmentFrames + 1,
                                                      at.executed + 1, st.total))
            else
              && t.sent == Some(Rollback(st.lease.leaseId))
              && t.coord == c.(state := RollbackPending(st.generation, st.lease.leaseId, st.lease.proof))
  {
  }

  /** A staged frame is accepted exactly on a report of that frame, of its segment and of its place in the prefix. */
  lemma FrameAcceptedIff(c: Coord, generation: nat, r: Response, editor: Editor)
    requires c.state.ReplayPending? && c.state.generation == generation
    ensures var st, t := c.state, Consume(c, generation, r, editor);
            var fits := && r.FrameAdvanced?
                        && (r.profile, r.leaseId, r.runId)
                           == (st.lease.project.profile, st.lease.leaseId, st.lease.runId)
                        && r.advanceId == st.advanceId
                        && (r.report.segmentId, r.report.segmentFrames, r.report.executed)
                           == (st.segmentId, st.segmentFrames, st.executed);
            && (t.coord.state.AwaitingDecision? <==>
                  fits && st.executed == st.total && editor.current == Some(st.lease.project))
            && (t.coord.state.ReplayReady? <==> fits && st.executed < st.total && editor.guard)
            && (t.coord.state.AwaitingDecision? || t.coord.state.ReplayReady? ==>
                  && t.sent == None && t.coord.state.lease == st.lease && t.coord.state.candidate == r.report
                  && t.coord.state.nextAdvanceId == st.nextAdvanceId
                  && (t.coord.state.ReplayReady? ==> t.coord.state.total == st.total))
            && (r.FrameAdvanced? && !fits ==> t.coord.state == Terminal(generation, AdvanceMismatch))
  {
  }

  /** Work that was refused is given back, unless the refusal says the lease is not the worker's or not this work's. */
  lemma RefusalIsAnsweredIff(c: Coord, generation: nat, r: Response, editor: Editor)
    requires (c.state.ExecutionPending? && r.ExecutionRejected?) || (c.state.ReplayPending? && r.FrameAdvanceRejected?)
    requires c.state.generation == generation
    ensures var st, t := c.state, Consume(c, generation, r, editor);
            var ours := && (r.profile, r.leaseId, r.runId)
                           == (st.lease.project.profile, st.lease.leaseId, st.lease.runId)
                        && (st.ReplayPending? ==> r.advanceId == st.advanceId && r.segmentId == st.segmentId);
            var lost := r.reason == NoActiveLease || r.reason == WrongLease
                        || (st.ExecutionPending? && r.reason == RunAlreadyAttempted);
            if ours && !lost then
              && t.coord.state == RollbackPending(generation, st.lease.leaseId, st.lease.proof)
              && t.sent == Some(Rollback(st.lease.leaseId))
            else
              && t.sent == None && t.coord.state.Terminal? && t.coord.state.generation == generation
              && t.coord.state.reason == (match (ours, st.ExecutionPending?)
                                          case (true, true) => ExecutionAuthority
                                          case (true, false) => AdvanceAuthority
                                          case (false, true) => ExecutionMismatch
                                          case (false, false) => AdvanceMismatch)
  {
  }

  /** A lease nobody waits for is always sent back, and a lease is executed only for the request and project wanted. */
  lemma GrantedLeaseIff(c: Coord, generation: nat, r: Response, editor: Editor)
    requires !c.state.Terminal? && r.Acquired?
    ensures var st, t := c.state, Consume(c, generation, r, editor);
            var wanted := && st.AcquirePending? && st.generation == generation && st.requestId == r.requestId
                          && !st.cancelled && editor.binding.Some? && editor.binding.value.snapshot == st.wanted;
            if wanted then
              var b := editor.binding.value;
              && t.sent == Some(Execute(b.snapshot.profile, r.leaseId, 1, b.total, b.sources))
              && t.coord.state
                 == ExecutionPending(generation, Lease(r.leaseId, 1, r.held, st.wanted), b.total, b.sources)
            else
              && t.sent == Some(Rollback(r.leaseId))
              && t.coord.state == if st.Detached? || st.generation == generation
                                  then RollbackPending(generation, r.leaseId, r.held) else st
  {
  }

  /** The player has the game again exactly on the matching answer: restored as promised, committed, or refused. */
  lemma DetachedAgainIff(c: Coord, generation: nat, r: Response, editor: Editor)
    requires !c.state.Detached? && c.state.generation == generation
    ensures var st := c.state;
            Consume(c, generation, r, editor).coord.state == Detached
            <==> || (st.RollbackPending? && r == RolledBack(st.leaseId, st.checkpoint))
                 || (st.CommitPending? && r == Committed(st.leaseId))
                 || (st.AcquirePending? && r == AcquireRejected(st.requestId))
  {
  }

  /** An answer about the held lease that is not the promised one is the end. */
  lemma RefusedIsTerminal(c: Coord, generation: nat, r: Response, editor: Editor)
    requires c.state.RollbackPending? || c.state.CommitPending?
    requires c.state.generation == generation
    ensures var st, t := c.state, Consume(c, generation, r, editor).coord.state;
            && (t.Terminal? <==> || (st.RollbackPending? && r == RollbackRejected(st.leaseId))
                                 || (st.CommitPending? && r == CommitRejected(st.leaseId))
                                 || (st.RollbackPending? && r.RolledBack? && r.leaseId == st.leaseId
                                     && r.restored != st.checkpoint))
            && (t.Terminal? ==> t == Terminal(generation, if r.RolledBack? then RollbackMismatch
                                                          else if r.RollbackRejected? then RollbackWasRejected
                                                          else CommitWasRejected))
  {
  }

  /** The terminal state is final: no reply, request or edit leaves it or sends anything. */
  lemma TerminalIsFinal(s: System, e: Event)
    requires s.coord.state.Terminal?
    ensures Next(s, e).coord == s.coord && Reaction(s, e).sent == None
  {
  }

  /** Replies of another generation, other than a grant, change nothing. */
  lemma OtherGenerationIgnored(c: Coord, generation: nat, r: Response, editor: Editor)
    requires !c.state.Detached? && c.state.generation != generation && !r.Acquired?
    ensures Consume(c, generation, r, editor) == Step(c, None)
  {
  }

  // ---------------------------------------------------------------- the worker

  /** A lease is granted exactly when none is held, one is left to number and the game has a witness. */
  lemma GrantsIff(w: Worker, id: nat, profile: nat, env: Env)
    ensures var (v, r) := Handle(w, Acquire(id, profile), env);
            if w.authority == Gameplay && w.nextLeaseId < U64_MAX && env.held.Some? then
              && r == Acquired(id, w.nextLeaseId, env.held.value)
              && v == Worker(Leased(w.nextLeaseId, profile, env.held.value, 0, false, None), w.nextLeaseId + 1)
            else v == w && r == AcquireRejected(id)
  {
  }

  /** The run may be tried: the next number on this lease, after runs that did not fail. */
  predicate MayRun(a: Authority, c: Command)
    requires c.Execute?
  {
    && a.Leased? && (a.leaseId, a.profile) == (c.leaseId, c.profile)
    && c.runId >= 1 && c.runId == a.attempted + 1 <= U64_MAX && !a.failed
  }

  /** The emulator runs the first transaction: a state to start from, a known cursor within the prefix if cached. */
  predicate CanRun(c: Command, env: Env)
    requires c.Execute?
  {
    && env.origin.Some?
    && (env.origin.value.CachedSource? ==>
          env.origin.value.cursor in c.sources && env.origin.value.cursor <= c.total)
  }

  /** A run is executed exactly when it may be tried and can run; tried and failed, the lease runs nothing more. */
  lemma RunsIff(w: Worker, c: Command, env: Env)
    requires c.Execute?
    ensures var (v, r) := Handle(w, c, env);
            && (r.ExecutionCompleted? <==> MayRun(w.authority, c) && CanRun(c, env))
            && (r.ExecutionCompleted? ==>
                  && (r.profile, r.leaseId, r.runId) == (c.profile, c.leaseId, c.runId)
                  && FirstTransaction(r.report, c.total, c.sources)
                  && (r.report.frameCount, r.report.stateSha) == (env.after.frameCount, env.after.stateSha)
                  && v == w.(authority := w.authority.(attempted := c.runId,
                                                       candidate := Some(WorkerCandidate(r.report, 0)))))
            && (!r.ExecutionCompleted? ==>
                  && r.ExecutionRejected? && (r.profile, r.leaseId, r.runId) == (c.profile, c.leaseId, c.runId)
                  && (MayRun(w.authority, c) <==> r.reason == BackendFailed)
                  && v == if MayRun(w.authority, c)
                          then w.(authority := w.authority.(attempted := c.runId, failed := true, candidate := None))
                          else w)
  {
    var (_, r) := Handle(w, c, env);
    if r.ExecutionCompleted? {
      match env.origin.value
      case Fresh => assert Spans(r.report, 0, c.total);
      case CachedTarget =>
      case CachedSource(cursor) => assert Spans(r.report, cursor, c.total);
    }
  }

  /** Where a run starts decides what it reports: six hundred frames at most from there, or the cached end at once. */
  lemma OriginDecides(w: Worker, c: Command, env: Env)
    requires c.Execute? && MayRun(w.authority, c) && CanRun(c, env)
    ensures var report := Handle(w, c, env).1.report;
            match env.origin.value
            case Fresh => Spans(report, 0, c.total)
            case CachedTarget => report.executed == c.total && report.segmentFrames == 0
            case CachedSource(cursor) => Spans(report, cursor, c.total)
  {
  }

  /** The frame may be staged: the next one of this run, continuing exactly the candidate the worker has. */
  predicate MayAdvance(a: Authority, c: Command)
    requires c.Advance?
  {
    && a.Leased? && (a.leaseId, a.profile) == (c.leaseId, c.profile)
    && a.attempted == c.runId != 0 && a.candidate.Some?
    && var at := a.candidate.value.report;
    && c.advanceId == a.candidate.value.lastAdvanceId + 1 <= U64_MAX
    && (c.from.segmentFrames, c.from.executed, c.from.frameCount, c.from.stateSha)
       == (at.segmentFrames, at.executed, at.frameCount, at.stateSha)
    && at.segmentFrames <= 600 && at.executed < U64_MAX
    && c.segmentId == (if at.segmentFrames == 600 then at.segmentId + 1 else at.segmentId)
    && (at.segmentFrames == 600 ==> at.segmentId < U64_MAX)
  }

  /** One frame is run exactly when it may be staged and the emulator runs it; after the 600th begins a segment. */
  lemma AdvancesIff(w: Worker, c: Command, env: Env)
    requires c.Advance?
    ensures var (v, r) := Handle(w, c, env);
            && (r.FrameAdvanced? <==> MayAdvance(w.authority, c) && env.origin.Some?)
            && (r.FrameAdvanced? ==>
                  && (r.profile, r.leaseId, r.runId, r.advanceId) == (c.profile, c.leaseId, c.runId, c.advanceId)
                  && r.report == Candidate(c.segmentId, if c.from.segmentFrames == 600 then 1
                                                        else c.from.segmentFrames + 1, c.from.executed + 1,
                                           env.after.frameCount, env.after.stateSha)
                  && v == w.(authority := w.authority.(candidate := Some(WorkerCandidate(r.report, c.advanceId)))))
            && (!r.FrameAdvanced? ==>
                  && v == w && r.FrameAdvanceRejected?
                  && (r.profile, r.leaseId, r.runId, r.advanceId, r.segmentId)
                     == (c.profile, c.leaseId, c.runId, c.advanceId, c.segmentId)
                  && (MayAdvance(w.authority, c) <==> r.reason == BackendFailed))
  {
  }

  /** The game is given back exactly to the lease's own number, restored to its witness or verified as the candidate. */
  lemma ReleasesIff(w: Worker, c: Command, env: Env)
    requires c.Rollback? || c.Commit?
    ensures var (v, r) := Handle(w, c, env);
            var a := w.authority;
            var held := a.Leased? && a.leaseId == c.leaseId;
            && (r.RolledBack? <==> c.Rollback? && held && env.restored == Some(a.checkpoint))
            && (r.Committed? <==> c.Commit? && held && a.candidate.Some? && env.verified)
            && (r.RolledBack? || r.Committed? ==> v == w.(authority := Gameplay) && r.leaseId == c.leaseId)
            && (r.RolledBack? ==> r.restored == a.checkpoint)
            && (!r.RolledBack? && !r.Committed? ==>
                  v == w && r == if c.Rollback? then RollbackRejected(c.leaseId) else CommitRejected(c.leaseId))
  {
  }

  /** What a refusal says of the lease is so. */
  lemma RefusalsAreTrue(w: Worker, c: Command, env: Env)
    requires c.Execute? || c.Advance?
    ensures var a, r := w.authority, Handle(w, c, env).1;
            r.ExecutionRejected? || r.FrameAdvanceRejected? ==>
              && (r.reason == NoActiveLease <==> a == Gameplay)
              && (r.reason == WrongLease <==> a.Leased? && a.leaseId != c.leaseId)
              && (r.reason == WrongProfile <==> a.Leased? && a.leaseId == c.leaseId && a.profile != c.profile)
              && (r.reason == RunAlreadyAttempted ==> c.Execute? && (a.failed || c.runId != a.attempted + 1
                                                                     || a.attempted >= U64_MAX))
              && (r.reason == NoCompletedExecution ==> c.Advance? && (a.attempted == 0 || a.candidate.None?))
              && (r.reason == WrongRun ==> c.Advance? && a.attempted != c.runId)
              && (r.reason == InvalidAdvanceId ==> c.Advance? && c.advanceId == 0)
              && (r.reason == InvalidRunId ==> c.Execute? && c.runId == 0)
  {
  }
}
