/** Safety of the lease protocol over every run, and what a user can rely on. */
module TasSafety {
  import opened Common
  import opened TasCoordinator
  import opened TasProtocol

  // ---------------------------------------------------------------- every step keeps the invariant

  lemma AcquireRequestKeepsInv(s: System, e: Event)
    requires Inv(s) && (e.AskAcquire? || e.AskQueue? || e.SendQueued?)
    ensures Inv(Next(s, e))
  {
    match e
    case AskAcquire(project) => AcquireKeepsInv(s, project);
    case AskQueue(project, modeSupported) => QueueKeepsInv(s, project, modeSupported);
    case SendQueued => SendQueuedKeepsInv(s);
  }

  lemma AcquireKeepsInv(s: System, project: Snapshot)
    requires Inv(s)
    ensures Inv(Next(s, AskAcquire(project)))
  {
  }

  lemma QueueKeepsInv(s: System, project: Snapshot, modeSupported: bool)
    requires Inv(s)
    ensures Inv(Next(s, AskQueue(project, modeSupported)))
  {
  }

  lemma SendQueuedKeepsInv(s: System)
    requires Inv(s)
    ensures Inv(Next(s, SendQueued))
  {
  }

  /** Giving the game back is safe from every state that holds it, whatever is still in flight. */
  lemma GiveBackKeepsInv(s: System, e: Event)
    requires Inv(s) && Holds(s.coord.state) && !e.WorkerTurn? && !e.Deliver?
    requires Reaction(s, e) == GiveBack(s.coord, s.generation, s.coord.state.lease.leaseId, s.coord.state.lease.proof)
    ensures Inv(Next(s, e))
  {
  }

  lemma CancelKeepsInv(s: System)
    requires Inv(s)
    ensures Inv(Next(s, AskCancel))
  {
    if Holds(s.coord.state) {
      GiveBackKeepsInv(s, AskCancel);
    }
  }

  lemma RebindKeepsInv(s: System, current: Snapshot)
    requires Inv(s) && Holds(s.coord.state) && s.coord.state.lease.project.CanRebind(Some(current))
    requires !s.coord.state.lease.project.MatchesLinked(Some(current))
    ensures Inv(Next(s, EditorMoved(Some(current))))
  {
    match s.coord.state
    case ExecutionPending(_, _, _, _) =>
    case ReplayReady(_, _, _, _, _) =>
    case ReplayPending(_, _, _, _, _, _, _, _) =>
    case AwaitingDecision(_, _, _, _) =>
  }

  lemma EditorMoveKeepsInv(s: System, current: Option<Snapshot>)
    requires Inv(s)
    ensures Inv(Next(s, EditorMoved(current)))
  {
    if Holds(s.coord.state) {
      var project := s.coord.state.lease.project;
      if project.MatchesLinked(current) {
        assert Next(s, EditorMoved(current)) == s;
      } else if project.CanRebind(current) {
        RebindKeepsInv(s, current.value);
      } else {
        GiveBackKeepsInv(s, EditorMoved(current));
      }
    }
  }

  lemma CommitKeepsInv(s: System, current: Option<Snapshot>)
    requires Inv(s)
    ensures Inv(Next(s, AskCommit(current)))
  {
    if s.coord.state.AwaitingDecision? && current != Some(s.coord.state.lease.project) {
      GiveBackKeepsInv(s, AskCommit(current));
    }
  }

  lemma SeekKeepsInv(s: System, binding: Binding)
    requires Inv(s) && Captured(binding)
    ensures Inv(Next(s, AskSeek(binding)))
  {
  }

  lemma StageKeepsInv(s: System, inputReady: bool)
    requires Inv(s)
    ensures Inv(Next(s, StageFrame(inputReady)))
  {
    if s.coord.state.ReplayReady? && ContinueReplay(s.coord, inputReady).sent.value.Rollback? {
      GiveBackKeepsInv(s, StageFrame(inputReady));
    }
  }

  lemma WorkerAnswersWork(s: System, env: Env)
    requires Inv(s) && Holds(s.coord.state)
    ensures Inv(Next(s, WorkerTurn(env)))
  {
  }

  lemma WorkerAnswersAuthority(s: System, env: Env)
    requires Inv(s) && !Holds(s.coord.state)
    ensures Inv(Next(s, WorkerTurn(env)))
  {
  }

  lemma ExecutionReplyKeepsInv(s: System, editor: Editor)
    requires Inv(s) && s.coord.state.ExecutionPending? && s.responses != []
    ensures Inv(Next(s, Deliver(editor)))
  {
  }

  lemma AdvanceReplyKeepsInv(s: System, editor: Editor)
    requires Inv(s) && s.coord.state.ReplayPending? && s.responses != []
    ensures Inv(Next(s, Deliver(editor)))
  {
  }

  lemma AcquireReplyKeepsInv(s: System, editor: Editor)
    requires Inv(s) && s.coord.state.AcquirePending? && s.responses != [] && Honest(Deliver(editor))
    ensures Inv(Next(s, Deliver(editor)))
  {
  }

  /** A reply to work the coordinator has given up on changes nothing. */
  lemma AbandonedReplyIgnored(s: System, editor: Editor)
    requires s.coord.state.RollbackPending? && s.responses != [] && WorkReply(s.responses[0])
    ensures Next(s, Deliver(editor)) == s.(responses := s.responses[1..])
  {
  }

  /** The answer to a rollback ends it: restored as promised, or refused. */
  lemma RollbackAnswered(s: System, editor: Editor)
    requires Inv(s) && s.coord.state.RollbackPending? && s.responses != [] && !WorkReply(s.responses[0])
    ensures var t, st := Next(s, Deliver(editor)), s.coord.state;
            && Quiet(t)
            && (|| (s.responses[0] == RolledBack(st.leaseId, st.checkpoint) && s.worker.authority.Gameplay?
                && t.coord.state == Detached)
                || (s.responses[0] == RollbackRejected(st.leaseId) && s.worker.authority.Leased?
                    && t.coord.state == Terminal(s.generation, RollbackWasRejected)))
  {
    assert RollingBackPhase(s);
  }

  lemma ResolutionReplyKeepsInv(s: System, editor: Editor)
    requires Inv(s) && (s.coord.state.RollbackPending? || s.coord.state.CommitPending?) && s.responses != []
    ensures Inv(Next(s, Deliver(editor)))
  {
    if s.coord.state.RollbackPending? {
      if WorkReply(s.responses[0]) {
        AbandonedReplyIgnored(s, editor);
      } else {
        RollbackAnswered(s, editor);
      }
    }
  }

  lemma DeliveryKeepsInv(s: System, editor: Editor)
    requires Inv(s) && Honest(Deliver(editor))
    ensures Inv(Next(s, Deliver(editor)))
  {
    if s.responses != [] {
      if s.coord.state.ExecutionPending? {
        ExecutionReplyKeepsInv(s, editor);
      } else if s.coord.state.ReplayPending? {
        AdvanceReplyKeepsInv(s, editor);
      } else if s.coord.state.AcquirePending? {
        AcquireReplyKeepsInv(s, editor);
      } else {
        ResolutionReplyKeepsInv(s, editor);
      }
    }
  }

  lemma StepKeepsInv(s: System, e: Event)
    requires Inv(s) && Honest(e)
    ensures Inv(Next(s, e))
  {
    match e
    case WorkerTurn(env) =>
      if Holds(s.coord.state) {
        WorkerAnswersWork(s, env);
      } else {
        WorkerAnswersAuthority(s, env);
      }
    case Deliver(editor) => DeliveryKeepsInv(s, editor);
    case AskCancel => CancelKeepsInv(s);
    case EditorMoved(current) => EditorMoveKeepsInv(s, current);
    case AskAcquire(_) => AcquireRequestKeepsInv(s, e);
    case AskQueue(_, _) => AcquireRequestKeepsInv(s, e);
    case SendQueued => AcquireRequestKeepsInv(s, e);
    case AskCommit(current) => CommitKeepsInv(s, current);
    case AskSeek(binding) => SeekKeepsInv(s, binding);
    case StageFrame(inputReady) => StageKeepsInv(s, inputReady);
  }

  lemma {:induction false} RunKeepsInv(generation: nat, nextLeaseId: nat, es: seq<Event>)
    requires AllHonest(es)
    ensures Inv(Run(Start(generation, nextLeaseId), es))
  {
    if es != [] {
      RunKeepsInv(generation, nextLeaseId, es[..|es| - 1]);
      StepKeepsInv(Run(Start(generation, nextLeaseId), es[..|es| - 1]), es[|es| - 1]);
    }
  }

  /** How one reaction may touch the request log. */
  ghost predicate RequestDiscipline(before: Coord, t: Step) {
    var b, a := before.state, t.coord.state;
    if t.sent.Some? && t.sent.value.Acquire? then
      && !b.AcquirePending? && a.AcquirePending? && !a.cancelled && a.requestId == t.sent.value.requestId
      && t.sent.value.requestId == before.nextRequestId && t.coord.nextRequestId == before.nextRequestId + 1
    else
      && t.coord.nextRequestId == before.nextRequestId
      && (a.AcquirePending? ==> b.AcquirePending? && a.requestId == b.requestId && (b.cancelled ==> a.cancelled))
      && (b.AcquirePending? && t.sent.Some? && t.sent.value.Execute? ==> !b.cancelled && !a.AcquirePending?)
  }

  lemma ConsumeIsDisciplined(c: Coord, generation: nat, r: Response, editor: Editor)
    ensures RequestDiscipline(c, Consume(c, generation, r, editor))
  {
  }

  lemma ReactionIsDisciplined(s: System, e: Event)
    ensures RequestDiscipline(s.coord, Reaction(s, e))
  {
    if e.Deliver? && s.responses != [] {
      ConsumeIsDisciplined(s.coord, s.generation, s.responses[0], e.editor);
    }
  }

  lemma DisciplineKeepsHistory(s: System, t: Step, e: Event)
    requires HistoryKept(s) && RequestDiscipline(s.coord, t)
    ensures HistoryKept(Apply(s, t, e))
  {
  }

  lemma StepKeepsHistory(s: System, e: Event)
    requires HistoryKept(s)
    ensures HistoryKept(Next(s, e))
  {
    if !e.WorkerTurn? {
      ReactionIsDisciplined(s, e);
      DisciplineKeepsHistory(s, Reaction(s, e), e);
    }
  }

  lemma {:induction false} RunKeepsHistory(generation: nat, nextLeaseId: nat, es: seq<Event>)
    ensures HistoryKept(Run(Start(generation, nextLeaseId), es))
  {
    if es != [] {
      RunKeepsHistory(generation, nextLeaseId, es[..|es| - 1]);
      StepKeepsHistory(Run(Start(generation, nextLeaseId), es[..|es| - 1]), es[|es| - 1]);
    }
  }

  // ---------------------------------------------------------------- no leaked or altered game

  /** In every run, a detached coordinator has empty channels and the game is back with the player. */
  lemma DetachedMeansReturned(generation: nat, nextLeaseId: nat, es: seq<Event>)
    requires AllHonest(es)
    ensures var s := Run(Start(generation, nextLeaseId), es);
            s.coord.state.Detached? ==> s.commands == [] && s.responses == [] && s.worker.authority.Gameplay?
  {
    RunKeepsInv(generation, nextLeaseId, es);
  }

  /**
   In every run, the terminal state is entered only because the worker refused a rollback or a commit,
   and the game then stays frozen under its lease: every reply mismatch is unreachable.
   */
  lemma TerminalMeansRefused(generation: nat, nextLeaseId: nat, es: seq<Event>)
    requires AllHonest(es)
    ensures var s := Run(Start(generation, nextLeaseId), es);
            s.coord.state.Terminal? ==>
              && (s.coord.state.reason == RollbackWasRejected || s.coord.state.reason == CommitWasRejected)
              && s.worker.authority.Leased?
  {
    RunKeepsInv(generation, nextLeaseId, es);
  }

  /** The lease the coordinator answers for and the state it promises to bring back. */
  function Promise(st: State): Option<(nat, Proof)> {
    if Holds(st) then Some((st.lease.leaseId, st.lease.proof))
    else if st.RollbackPending? then Some((st.leaseId, st.checkpoint))
    else None
  }

  /** One step out of a promise: it stands, or it ends by commit, by a matching restore, or by a refusal. */
  lemma PromiseEndsProperly(s: System, e: Event)
    requires Inv(s) && Honest(e) && Promise(s.coord.state).Some?
    ensures var (leaseId, proof) := Promise(s.coord.state).value;
            var t := Next(s, e).coord.state;
            || Promise(t) == Some((leaseId, proof))
            || (t == CommitPending(s.generation, leaseId) && e.AskCommit?)
            || (t.Detached? && e.Deliver? && s.responses != [] && s.responses[0] == RolledBack(leaseId, proof))
            || (t.Terminal? && e.Deliver? && s.responses != [] && s.responses[0] == RollbackRejected(leaseId))
  {
    if e.Deliver? {
      PromiseUnderDelivery(s, e.editor);
    }
  }

  lemma PromiseUnderDelivery(s: System, editor: Editor)
    requires Inv(s) && Promise(s.coord.state).Some?
    ensures var (leaseId, proof) := Promise(s.coord.state).value;
            var t := Next(s, Deliver(editor)).coord.state;
            || Promise(t) == Some((leaseId, proof))
            || (t.Detached? && s.responses != [] && s.responses[0] == RolledBack(leaseId, proof))
            || (t.Terminal? && s.responses != [] && s.responses[0] == RollbackRejected(leaseId))
  {
    if s.responses != [] && s.coord.state.RollbackPending? {
      if WorkReply(s.responses[0]) {
        AbandonedReplyIgnored(s, editor);
      } else {
        RollbackAnswered(s, editor);
      }
    }
  }

  /** A commit in flight ends only with the worker's answer about that lease. */
  lemma CommitEndsProperly(s: System, e: Event)
    requires Inv(s) && Honest(e) && s.coord.state.CommitPending?
    ensures var t := Next(s, e).coord.state;
            || t == s.coord.state
            || (t.Detached? && e.Deliver? && s.responses != [] && s.responses[0] == Committed(s.coord.state.leaseId))
            || (t.Terminal? && e.Deliver? && s.responses != []
                && s.responses[0] == CommitRejected(s.coord.state.leaseId))
  {
    StepKeepsInv(s, e);
  }

  /** Lease `leaseId` was granted over state `proof`, and nobody can say otherwise from here on. */
  ghost predicate GrantedOver(s: System, leaseId: nat, proof: Proof) {
    var w := s.worker.authority;
    && leaseId < s.worker.nextLeaseId
    && (w.Leased? ==> w.leaseId < s.worker.nextLeaseId && (w.leaseId == leaseId ==> w.checkpoint == proof))
    && (Promise(s.coord.state).Some? && Promise(s.coord.state).value.0 == leaseId
        ==> Promise(s.coord.state).value.1 == proof)
    && (forall i :: 0 <= i < |s.responses| ==> Agrees(s.responses[i], leaseId, proof))
  }

  /** A reply that speaks of this lease's witness says `proof`. */
  predicate Agrees(r: Response, leaseId: nat, proof: Proof) {
    && (r.Acquired? && r.leaseId == leaseId ==> r.held == proof)
    && (r.RolledBack? && r.leaseId == leaseId ==> r.restored == proof)
  }

  lemma GrantStepStands(s: System, e: Event, leaseId: nat, proof: Proof)
    requires Inv(s) && Honest(e) && GrantedOver(s, leaseId, proof)
    ensures GrantedOver(Next(s, e), leaseId, proof)
  {
    if e.WorkerTurn? {
      GrantUnderWorker(s, e.env, leaseId, proof);
    } else if Promise(s.coord.state).Some? {
      PromiseEndsProperly(s, e);
    } else {
      if Promise(Next(s, e).coord.state).Some? {
        NewPromise(s, e);
      }
    }
  }

  /** A promise is first made on an acquisition reply, about the lease and checkpoint the worker holds. */
  lemma NewPromise(s: System, e: Event)
    requires Inv(s) && Promise(s.coord.state).None? && !e.WorkerTurn? && Promise(Next(s, e).coord.state).Some?
    ensures s.worker.authority.Leased?
    ensures Promise(Next(s, e).coord.state) == Some((s.worker.authority.leaseId, s.worker.authority.checkpoint))
  {
    assert e.Deliver? && s.coord.state.AcquirePending?;
  }

  lemma GrantUnderWorker(s: System, env: Env, leaseId: nat, proof: Proof)
    requires Inv(s) && GrantedOver(s, leaseId, proof)
    ensures GrantedOver(Next(s, WorkerTurn(env)), leaseId, proof)
  {
  }

  lemma {:induction false} LeaseIdsFresh(generation: nat, nextLeaseId: nat, es: seq<Event>)
    requires AllHonest(es)
    ensures var w := Run(Start(generation, nextLeaseId), es).worker;
            w.authority.Leased? ==> w.authority.leaseId < w.nextLeaseId
  {
    if es != [] {
      LeaseIdsFresh(generation, nextLeaseId, es[..|es| - 1]);
      LeaseIdFreshStep(Run(Start(generation, nextLeaseId), es[..|es| - 1]), es[|es| - 1]);
    }
  }

  lemma LeaseIdFreshStep(s: System, e: Event)
    requires s.worker.authority.Leased? ==> s.worker.authority.leaseId < s.worker.nextLeaseId
    ensures var w := Next(s, e).worker; w.authority.Leased? ==> w.authority.leaseId < w.nextLeaseId
  {
  }

  /**
   In every run, the witness taken at acquisition never changes: once the coordinator holds a lease, neither it
   nor the worker nor a reply in flight ever attributes another state to that lease.
   */
  lemma {:induction false} WitnessNeverChanges(generation: nat, nextLeaseId: nat, es: seq<Event>, fs: seq<Event>)
    requires AllHonest(es) && AllHonest(fs)
    requires Holds(Run(Start(generation, nextLeaseId), es).coord.state)
    ensures var lease := Run(Start(generation, nextLeaseId), es).coord.state.lease;
            GrantedOver(Run(Run(Start(generation, nextLeaseId), es), fs), lease.leaseId, lease.proof)
    ensures Inv(Run(Run(Start(generation, nextLeaseId), es), fs))
  {
    var s := Run(Start(generation, nextLeaseId), es);
    if fs == [] {
      RunKeepsInv(generation, nextLeaseId, es);
      LeaseIdsFresh(generation, nextLeaseId, es);
    } else {
      WitnessNeverChanges(generation, nextLeaseId, es, fs[..|fs| - 1]);
      var t := Run(s, fs[..|fs| - 1]);
      StepKeepsInv(t, fs[|fs| - 1]);
      GrantStepStands(t, fs[|fs| - 1], s.coord.state.lease.leaseId, s.coord.state.lease.proof);
    }
  }

  // ---------------------------------------------------------------- commit authority

  /**
   A commit may go out: nothing is in flight, the worker's candidate for that very lease covers exactly
   the bound input prefix, and the editor shows the bound project; the snapshot bound at execution and
   the one seen at completion stand for the same inputs.
   */
  predicate CommitJustified(s: System, e: Event, leaseId: nat) {
    && s.coord.state.AwaitingDecision? && e == AskCommit(Some(s.coord.state.lease.project))
    && Quiet(s)
    && s.worker.authority.Leased? && s.worker.authority.leaseId == leaseId
    && s.worker.authority.candidate.Some?
    && s.worker.authority.candidate.value.report == s.coord.state.candidate
    && var project := s.coord.state.lease.project;
    && s.coord.state.candidate.executed == project.prefixLen
    && s.history.bound.Some? && s.history.bound.value.CanRebind(Some(project))
    && s.history.completed.Some? && s.history.completed.value.CanRebind(Some(project))
  }

  lemma CommitStepJustified(s: System, e: Event)
    requires Inv(s) && Reaction(s, e).sent.Some? && Reaction(s, e).sent.value.Commit?
    ensures CommitJustified(s, e, Reaction(s, e).sent.value.leaseId)
  {
    assert e.AskCommit?;
  }

  /** In every run, a commit is sent only when it is justified. */
  lemma CommitAuthority(generation: nat, nextLeaseId: nat, es: seq<Event>, e: Event)
    requires AllHonest(es) && Honest(e)
    ensures var s := Run(Start(generation, nextLeaseId), es);
            var sent := Reaction(s, e).sent;
            sent.Some? && sent.value.Commit? ==> CommitJustified(s, e, sent.value.leaseId)
  {
    RunKeepsInv(generation, nextLeaseId, es);
    var s := Run(Start(generation, nextLeaseId), es);
    var sent := Reaction(s, e).sent;
    if sent.Some? && sent.value.Commit? {
      CommitStepJustified(s, e);
    }
  }

  /**
   A run is accepted as complete only on the worker's report of the whole prefix for that very lease, run and frame,
   with the editor unchanged, and only if the run opened fresh, at a cached target or after a known predecessor.
   */
  lemma CompletionNeedsWholePrefix(s: System, e: Event)
    requires Inv(s) && Honest(e) && !s.coord.state.AwaitingDecision? && Next(s, e).coord.state.AwaitingDecision?
    ensures var t := Next(s, e).coord.state;
            && e.Deliver? && e.editor.current == Some(t.lease.project)
            && t.candidate.executed == t.lease.project.prefixLen
            && OpenedProperly(Next(s, e).history, t.lease)
            && s.responses != []
            && (if s.coord.state.ExecutionPending? then
                  s.responses[0] == ExecutionCompleted(t.lease.project.profile, t.lease.leaseId, t.lease.runId,
                      t.candidate)
                else
                  && s.coord.state.ReplayPending?
                  && s.responses[0] == FrameAdvanced(t.lease.project.profile, t.lease.leaseId, t.lease.runId,
                                                     s.coord.state.advanceId, t.candidate))
  {
    StepKeepsInv(s, e);
  }

  /**
   In every run, acquisition request identifiers are strictly increasing, hence never reused, and a
   request that was cancelled while pending is never answered by an execution.
   */
  lemma CancelledNeverExecutes(generation: nat, nextLeaseId: nat, es: seq<Event>)
    ensures var h := Run(Start(generation, nextLeaseId), es).history;
            && (forall i, j :: 0 <= i < j < |h.requests| ==> h.requests[i] < h.requests[j])
            && h.cancelled !! h.executed
  {
    RunKeepsHistory(generation, nextLeaseId, es);
  }

  /** The worker's own checks let this command through, if it is work. */
  predicate Welcome(a: Authority, c: Command) {
    match c
    case Execute(_, _, _, _, _) =>
      && a.Leased? && a.leaseId == c.leaseId && a.profile == c.profile && c.runId != 0
      && !a.failed && a.attempted < U64_MAX && c.runId == a.attempted + 1
    case Advance(_, _, _, _, _, _) => AdvanceBlocker(a, c).None?
    case Acquire(_, _) => true
    case Rollback(_) => true
    case Commit(_) => true
  }

  predicate NextIsWelcome(s: System) {
    s.commands != [] ==> Welcome(s.worker.authority, s.commands[0])
  }

  lemma HeldWorkIsWelcome(s: System)
    requires Inv(s) && Holds(s.coord.state)
    ensures NextIsWelcome(s)
  {
    if s.coord.state.ExecutionPending? {
      assert ExecutingPhase(s);
    } else if s.coord.state.ReplayPending? {
      assert AdvancingPhase(s);
    }
  }

  lemma OnlyRollbackFollows(s: System)
    requires Inv(s) && |s.commands| > 1
    ensures s.commands[1].Rollback? && |s.commands| == 2
  {
  }

  lemma StepKeepsWelcome(s: System, e: Event)
    requires Inv(s) && Honest(e) && NextIsWelcome(s)
    ensures NextIsWelcome(Next(s, e))
  {
    if e.WorkerTurn? {
      if |s.commands| > 1 {
        OnlyRollbackFollows(s);
      }
    } else if s.commands == [] {
      StepKeepsInv(s, e);
      if Holds(Next(s, e).coord.state) {
        HeldWorkIsWelcome(Next(s, e));
      }
    } else {
      var t := Next(s, e);
      assert t.commands[0] == s.commands[0] && t.worker == s.worker;
    }
  }

  lemma {:induction false} RunKeepsWelcome(generation: nat, nextLeaseId: nat, es: seq<Event>)
    requires AllHonest(es)
    ensures NextIsWelcome(Run(Start(generation, nextLeaseId), es))
  {
    if es != [] {
      RunKeepsInv(generation, nextLeaseId, es[..|es| - 1]);
      RunKeepsWelcome(generation, nextLeaseId, es[..|es| - 1]);
      StepKeepsWelcome(Run(Start(generation, nextLeaseId), es[..|es| - 1]), es[|es| - 1]);
    }
  }

  /**
   In every run, the worker refuses the coordinator's work only when the emulator itself failed, work
   still queued after a cancel included.
   */
  lemma WorkRefusedOnlyByEmulator(generation: nat, nextLeaseId: nat, es: seq<Event>, env: Env)
    requires AllHonest(es)
    ensures var s := Run(Start(generation, nextLeaseId), es);
            s.commands != [] ==> EmulatorOnly(Handle(s.worker, s.commands[0], env).1)
  {
    RunKeepsWelcome(generation, nextLeaseId, es);
  }

  predicate EmulatorOnly(r: Response) {
    && (r.ExecutionRejected? ==> r.reason == BackendFailed)
    && (r.FrameAdvanceRejected? ==> r.reason == BackendFailed)
  }

  // ---------------------------------------------------------------- the game always comes back

  /** An emulator that can restore its own checkpoint and verify its own candidate. */
  function Faithful(w: Worker, env: Env): Env {
    if w.authority.Leased? then env.(restored := Some(w.authority.checkpoint), verified := true) else env
  }

  /** The states a cancel leads to, and the ones that follow. */
  predicate Resolving(s: System) {
    || s.coord.state.Detached? || s.coord.state.Terminal? || s.coord.state.RollbackPending?
        || s.coord.state.CommitPending?
    || (s.coord.state.AcquirePending? && s.coord.state.cancelled)
  }

  /** The worker has already refused to give the game back. */
  predicate GaveUp(s: System) {
    || s.coord.state.Terminal?
    || (s.responses != []
        && (s.responses[|s.responses| - 1].RollbackRejected? || s.responses[|s.responses| - 1].CommitRejected?))
  }

  lemma WorkerTurnKeepsVerdict(s: System, env: Env)
    requires Inv(s) && Resolving(s)
    ensures GaveUp(Next(s, WorkerTurn(Faithful(s.worker, env)))) <==> GaveUp(s)
    ensures Next(s, WorkerTurn(Faithful(s.worker, env))).coord == s.coord
  {
  }

  lemma DeliveryKeepsVerdict(s: System, editor: Editor)
    requires Inv(s) && Resolving(s)
    ensures GaveUp(Next(s, Deliver(editor))) <==> GaveUp(s)
    ensures Resolving(Next(s, Deliver(editor)))
  {
    if s.coord.state.RollbackPending? && s.responses != [] {
      if WorkReply(s.responses[0]) {
        AbandonedReplyIgnored(s, editor);
      } else {
        RollbackAnswered(s, editor);
      }
    }
  }

  /** A turn of either side: the worker answers its next command, or the coordinator takes its next reply. */
  datatype Turn = Answer(env: Env) | Take(editor: Editor)

  function Taken(s: System, t: Turn): System {
    match t
    case Answer(env) => Next(s, WorkerTurn(Faithful(s.worker, env)))
    case Take(editor) => Next(s, Deliver(editor))
  }

  /** The side has something to do. */
  predicate Busy(s: System, t: Turn) {
    if t.Answer? then s.commands != [] else s.responses != []
  }

  predicate HonestTurn(t: Turn) {
    t.Take? ==> Honest(Deliver(t.editor))
  }

  function Turns(s: System, ts: seq<Turn>): System {
    if ts == [] then s else Taken(Turns(s, ts[..|ts| - 1]), ts[|ts| - 1])
  }

  /** How many turns of the schedule found something to do. */
  function BusyTurns(s: System, ts: seq<Turn>): nat {
    if ts == [] then 0
    else BusyTurns(s, ts[..|ts| - 1]) + if Busy(Turns(s, ts[..|ts| - 1]), ts[|ts| - 1]) then 1 else 0
  }

  /** How many turns with something to do are left: a granted lease must still be rolled back. */
  function TurnsLeft(s: System): nat {
    if s.coord.state.AcquirePending? then
      if s.commands != [] then 4 else if s.responses != [] && s.responses[0].Acquired? then 3 else |s.responses|
    else 2 * |s.commands| + |s.responses|
  }

  lemma FewTurnsLeft(s: System)
    requires Inv(s) && Resolving(s)
    ensures TurnsLeft(s) <= 4
    ensures Quiet(s) ==> s.coord.state.Detached? || s.coord.state.Terminal?
  {
  }

  lemma AnswerCounts(s: System, env: Env)
    requires Inv(s) && Resolving(s)
    ensures s.commands != [] ==> TurnsLeft(Taken(s, Answer(env))) < TurnsLeft(s)
    ensures s.commands == [] ==> Taken(s, Answer(env)) == s
  {
  }

  lemma TakeCounts(s: System, editor: Editor)
    requires Inv(s) && Resolving(s)
    ensures s.responses != [] ==> TurnsLeft(Taken(s, Take(editor))) < TurnsLeft(s)
    ensures s.responses == [] ==> TurnsLeft(Taken(s, Take(editor))) == TurnsLeft(s)
  {
    if s.coord.state.RollbackPending? && s.responses != [] {
      if WorkReply(s.responses[0]) {
        AbandonedReplyIgnored(s, editor);
      } else {
        RollbackAnswered(s, editor);
      }
    }
  }

  lemma TurnResolves(s: System, t: Turn)
    requires Inv(s) && Resolving(s) && HonestTurn(t)
    ensures var n := Taken(s, t); Inv(n) && Resolving(n) && (GaveUp(n) <==> GaveUp(s))
    ensures TurnsLeft(Taken(s, t)) + (if Busy(s, t) then 1 else 0) <= TurnsLeft(s)
  {
    match t
    case Answer(env) =>
      StepKeepsInv(s, WorkerTurn(Faithful(s.worker, env)));
      WorkerTurnKeepsVerdict(s, env);
      AnswerCounts(s, env);
    case Take(editor) =>
      StepKeepsInv(s, Deliver(editor));
      DeliveryKeepsVerdict(s, editor);
      TakeCounts(s, editor);
  }

  lemma {:induction false} TurnsResolve(s: System, ts: seq<Turn>)
    requires Inv(s) && Resolving(s) && forall i :: 0 <= i < |ts| ==> HonestTurn(ts[i])
    ensures var n := Turns(s, ts); Inv(n) && Resolving(n) && (GaveUp(n) <==> GaveUp(s))
    ensures TurnsLeft(Turns(s, ts)) + BusyTurns(s, ts) <= TurnsLeft(s)
  {
    if ts != [] {
      TurnsResolve(s, ts[..|ts| - 1]);
      TurnResolves(Turns(s, ts[..|ts| - 1]), ts[|ts| - 1]);
    }
  }

  lemma CancelResolves(s: System)
    requires Inv(s)
    ensures Inv(Next(s, AskCancel)) && Resolving(Next(s, AskCancel)) && (GaveUp(Next(s, AskCancel)) <==> GaveUp(s))
  {
    StepKeepsInv(s, AskCancel);
  }

  lemma Resolved(s: System)
    requires Inv(s) && (s.coord.state.Detached? || s.coord.state.Terminal?)
    ensures if GaveUp(s) then s.coord.state.Terminal?
            else s.coord.state.Detached? && s.worker.authority.Gameplay? && Quiet(s)
  {
  }

  /**
   Cancelling always resolves. After a cancel in any reachable state, with a faithful emulator and whatever schedule
   of the two sides, at most four turns find something to do; and once neither side has anything pending, the
   coordinator is detached with the game returned, unless the worker had already refused a rollback or a commit:
   then, and only then, it is terminal.
   */
  lemma CancelReturnsTheGame(generation: nat, nextLeaseId: nat, es: seq<Event>, ts: seq<Turn>)
    requires AllHonest(es) && forall i :: 0 <= i < |ts| ==> HonestTurn(ts[i])
    ensures var before := Run(Start(generation, nextLeaseId), es);
            var s := Turns(Next(before, AskCancel), ts);
            && BusyTurns(Next(before, AskCancel), ts) <= 4
            && (Quiet(s) ==> if GaveUp(before) then s.coord.state.Terminal?
                             else s.coord.state.Detached? && s.worker.authority.Gameplay?)
  {
    RunKeepsInv(generation, nextLeaseId, es);
    var before := Run(Start(generation, nextLeaseId), es);
    var start := Next(before, AskCancel);
    CancelResolves(before);
    FewTurnsLeft(start);
    TurnsResolve(start, ts);
    FewTurnsLeft(Turns(start, ts));
    if Quiet(Turns(start, ts)) {
      Resolved(Turns(start, ts));
    }
  }
}
