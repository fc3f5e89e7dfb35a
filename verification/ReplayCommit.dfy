/**
 Speculative replay batches: frames handed to the emulator ahead of time, committed in arbitrary
 pieces, and the flat frame-by-frame log they stand for. `S` is the state of the input transformer
 that travels with each frame.
 */
module ReplayCommit {
  import opened Common

  /** A recorded frame: the five players' button masks, and everything else, of which only identity matters here. */
  datatype Frame = Frame(buttons: seq<bv8>, others: nat)

  datatype Batch<S> = Batch(frames: seq<Frame>, record: bool, playback: bool, states: seq<S>) {
    /** A batch previews either no transformer state or one for every frame. */
    predicate IsValid() {
      states == [] || |states| == |frames|
    }
  }

  /** A replay being played back; `checkpoints` are the frames with a stored hash. */
  datatype Player = Player(cursor: nat, frames: seq<Frame>, checkpoints: set<nat>)

  /** One frame of the log, with the transformer state to install once it has really run. */
  datatype Entry<S> = Entry(frame: Frame, record: bool, playback: bool, state: Option<S>)

  function EntryAt<S>(b: Batch<S>, i: nat): Entry<S>
    requires i < |b.frames|
  {
    Entry(b.frames[i], b.record, b.playback, if i < |b.states| then Some(b.states[i]) else None)
  }

  function Entries<S>(b: Batch<S>): (log: seq<Entry<S>>)
    ensures |log| == |b.frames|
  {
    seq(|b.frames|, i requires 0 <= i < |b.frames| => EntryAt(b, i))
  }

  function Flat<S>(pending: seq<Batch<S>>): seq<Entry<S>> {
    if pending == [] then [] else Entries(pending[0]) + Flat(pending[1..])
  }

  // ---------------------------------------------------------------- what committed entries do

  /** The effect of a stretch of log: frames recorded, last state installed, playback frames consumed. */
  datatype Effect<S> = Effect(recorded: seq<Frame>, state: Option<S>, playback: nat)

  function Then<S>(first: Effect<S>, second: Effect<S>): Effect<S> {
    Effect(first.recorded + second.recorded,
           if second.state.Some? then second.state else first.state,
           first.playback + second.playback)
  }

  function OneEffect<S>(e: Entry<S>): Effect<S> {
    Effect(if e.record then [e.frame] else [], e.state, if e.playback then 1 else 0)
  }

  function EffectOf<S>(log: seq<Entry<S>>): Effect<S> {
    if log == [] then Effect([], None, 0) else Then(OneEffect(log[0]), EffectOf(log[1..]))
  }

  /** The player after `n` more frames; it is dropped at the end unless the last frame has a checkpoint. */
  function Advanced(p: Option<Player>, n: nat): Option<Player> {
    if p.None? then None
    else
      var cursor := Min(p.value.cursor + n, |p.value.frames|);
      if cursor >= |p.value.frames| && cursor !in p.value.checkpoints then None else Some(p.value.(cursor := cursor))
  }

  /** A player that could be dropped already has been. */
  predicate Settled(p: Option<Player>) {
    Advanced(p, 0) == p
  }

  /** Everything a commit may change besides the log. */
  datatype Host<S> = Host(state: S, recorder: Option<seq<Frame>>, player: Option<Player>, queued: nat)

  function Feel<S>(h: Host<S>, e: Effect<S>): Host<S> {
    Host(if e.state.Some? then e.state.value else h.state,
         if h.recorder.Some? then Some(h.recorder.value + e.recorded) else None,
         Advanced(h.player, e.playback),
         Max(0, h.queued - e.playback))
  }

  datatype Timeline<S> = Timeline(log: seq<Entry<S>>, host: Host<S>)

  /** The specification: the first `n` frames of the log really happened. */
  function Committed<S>(t: Timeline<S>, n: nat): Timeline<S> {
    var k := Min(n, |t.log|);
    Timeline(t.log[k..], Feel(t.host, EffectOf(t.log[..k])))
  }

  /** What every timeline keeps: the count of queued playback frames, and a player dropped in time. */
  predicate Consistent<S>(t: Timeline<S>) {
    t.host.queued == EffectOf(t.log).playback && Settled(t.host.player)
  }

  // ---------------------------------------------------------------- staging

  /** The next frames of a replay after `offset` of them. */
  function Peek(p: Player, offset: nat, n: nat): seq<Frame> {
    var start := Min(p.cursor + offset, |p.frames|);
    p.frames[start..Min(start + n, |p.frames|)]
  }

  /** Frame by frame, after the cursor and what is queued already, and never past the end. */
  lemma PeekAt(p: Player, offset: nat, n: nat)
    ensures |Peek(p, offset, n)| == Min(n, Max(0, |p.frames| - p.cursor - offset))
    ensures forall i :: 0 <= i < |Peek(p, offset, n)| ==> Peek(p, offset, n)[i] == p.frames[p.cursor + offset + i]
  {
  }

  function PlaybackBatch<S>(frames: seq<Frame>): Batch<S> {
    Batch(frames, false, true, [])
  }

  /** Staging up to `n` frames of the replay: with none left the replay is over. */
  function PlaybackStaged<S>(t: Timeline<S>, n: nat): Timeline<S>
    requires t.host.player.Some?
  {
    var frames := Peek(t.host.player.value, t.host.queued, n);
    if frames == [] then t.(host := t.host.(player := None, queued := 0))
    else Queued(t, PlaybackBatch(frames))
  }

  lemma FlatSnoc<S>(pending: seq<Batch<S>>, batch: Batch<S>)
    ensures Flat(pending + [batch]) == Flat(pending) + Entries(batch)
  {
    if pending == [] {
      assert [] + [batch] == [batch] && [batch][1..] == [];
      assert Entries(batch) + [] == [] + Entries(batch);
    } else {
      FlatSnoc(pending[1..], batch);
      assert (pending + [batch])[1..] == pending[1..] + [batch];
    }
  }

  /** The timeline with one more batch at the end. */
  function Queued<S>(t: Timeline<S>, batch: Batch<S>): Timeline<S> {
    Timeline(t.log + Entries(batch),
             t.host.(queued := t.host.queued + if batch.playback then |batch.frames| else 0))
  }

  lemma QueuedConsistent<S>(t: Timeline<S>, batch: Batch<S>)
    requires Consistent(t) && batch.IsValid()
    ensures Consistent(Queued(t, batch))
  {
    EffectConcat(t.log, Entries(batch));
    WholeBatch(batch);
  }

  lemma WholeBatch<S>(batch: Batch<S>)
    requires batch.IsValid()
    ensures EffectOf(Entries(batch)) == PieceEffect(batch, |batch.frames|)
  {
    BatchPrefix(batch, |batch.frames|);
    TakeAll(Entries(batch));
  }

  lemma TakeAll<T>(s: seq<T>)
    ensures s[..|s|] == s
  {
  }

  // ---------------------------------------------------------------- laws of commitment

  lemma {:induction false} EffectConcat<S>(left: seq<Entry<S>>, right: seq<Entry<S>>)
    ensures EffectOf(left + right) == Then(EffectOf(left), EffectOf(right))
  {
    if left == [] {
      assert left + right == right;
    } else {
      var tail := left[1..];
      assert (left + right)[1..] == tail + right;
      EffectConcat(tail, right);
      ThenAssociates(OneEffect(left[0]), EffectOf(tail), EffectOf(right));
    }
  }

  lemma ThenAssociates<S>(a: Effect<S>, b: Effect<S>, c: Effect<S>)
    ensures Then(Then(a, b), c) == Then(a, Then(b, c))
  {
    assert (a.recorded + b.recorded) + c.recorded == a.recorded + (b.recorded + c.recorded);
  }

  lemma FeelTwice<S>(h: Host<S>, first: Effect<S>, second: Effect<S>)
    requires first.playback + second.playback <= h.queued
    ensures Feel(Feel(h, first), second) == Feel(h, Then(first, second))
  {
    if h.recorder.Some? {
      assert h.recorder.value + first.recorded + second.recorded
          == h.recorder.value + (first.recorded + second.recorded);
    }
  }

  lemma FeelNothing<S>(h: Host<S>)
    requires Settled(h.player)
    ensures Feel(h, Effect([], None, 0)) == h
  {
    if h.recorder.Some? {
      assert h.recorder.value + [] == h.recorder.value;
    }
  }

  lemma CommitFront<S>(t: Timeline<S>, front: seq<Entry<S>>, rest: seq<Entry<S>>)
    requires Consistent(t) && t.log == front + rest
    ensures Committed(t, |front|) == Timeline(rest, Feel(t.host, EffectOf(front)))
    ensures Consistent(Committed(t, |front|)) && EffectOf(front).playback <= t.host.queued
  {
    assert t.log[..|front|] == front && t.log[|front|..] == rest;
    EffectConcat(front, rest);
  }

  lemma CommitThreeParts<S>(t: Timeline<S>, first: seq<Entry<S>>, second: seq<Entry<S>>, third: seq<Entry<S>>)
    requires Consistent(t) && t.log == first + (second + third)
    ensures Committed(Committed(t, |first|), |second|) == Committed(t, |first| + |second|)
  {
    var middle := Timeline(second + third, Feel(t.host, EffectOf(first)));
    CommitFront(t, first, second + third);
    CommitFront(middle, second, third);
    BothParts(t.host, first, second);
    CommitTwoAtOnce(t, first, second, third);
  }

  lemma CommitTwoAtOnce<S>(t: Timeline<S>, first: seq<Entry<S>>, second: seq<Entry<S>>, third: seq<Entry<S>>)
    requires Consistent(t) && t.log == first + (second + third)
    ensures Committed(t, |first| + |second|) == Timeline(third, Feel(t.host, EffectOf(first + second)))
    ensures EffectOf(first).playback + EffectOf(second).playback <= t.host.queued
  {
    assert t.log == (first + second) + third;
    CommitFront(t, first + second, third);
    EffectConcat(first, second);
  }

  lemma BothParts<S>(h: Host<S>, first: seq<Entry<S>>, second: seq<Entry<S>>)
    requires EffectOf(first).playback + EffectOf(second).playback <= h.queued
    ensures Feel(Feel(h, EffectOf(first)), EffectOf(second)) == Feel(h, EffectOf(first + second))
  {
    EffectConcat(first, second);
    FeelTwice(h, EffectOf(first), EffectOf(second));
  }

  lemma InThree<T>(s: seq<T>, m: nat, n: nat)
    requires m + n <= |s|
    ensures s == s[..m] + (s[m..m + n] + s[m + n..])
  {
  }

  lemma CommitWithin<S>(t: Timeline<S>, m: nat, n: nat)
    requires Consistent(t) && m + n <= |t.log|
    ensures Committed(Committed(t, m), n) == Committed(t, m + n)
    ensures Consistent(Committed(t, m))
  {
    var first, second, third := t.log[..m], t.log[m..m + n], t.log[m + n..];
    InThree(t.log, m, n);
    CommitThreeParts(t, first, second, third);
    CommitFront(t, first, second + third);
  }

  /** Committing in two pieces is committing once: every timeline, every split, past the end as well. */
  lemma CommitAdds<S>(t: Timeline<S>, m: nat, n: nat)
    requires Consistent(t)
    ensures Committed(Committed(t, m), n) == Committed(t, m + n)
    ensures Consistent(Committed(t, m))
  {
    var j := Min(m, |t.log|);
    CommitWithin(t, j, Min(n, |t.log| - j));
  }

  /** `now` is what a commit of `n` frames makes of `start`. */
  ghost predicate Reached<S>(start: Timeline<S>, n: nat, now: Timeline<S>) {
    forall k: nat :: k == n ==> now == Committed(start, k)
  }

  /** A commit that goes on by `piece` frames is one of all of them together. */
  lemma GoesOn<S>(start: Timeline<S>, first: nat, before: Timeline<S>, piece: nat, after: Timeline<S>, total: nat)
    requires Consistent(start) && Reached(start, first, before)
    requires after == Committed(before, piece) && total == first + piece
    ensures Reached(start, total, after)
  {
    CommitAdds(start, first, piece);
  }

  function CommittedInPieces<S>(t: Timeline<S>, pieces: seq<nat>): Timeline<S> {
    if pieces == [] then t
    else Committed(CommittedInPieces(t, pieces[..|pieces| - 1]), pieces[|pieces| - 1])
  }

  function Sum(pieces: seq<nat>): nat {
    if pieces == [] then 0 else Sum(pieces[..|pieces| - 1]) + pieces[|pieces| - 1]
  }

  lemma CommitNothing<S>(t: Timeline<S>)
    requires Consistent(t)
    ensures Committed(t, 0) == t
  {
    FeelNothing(t.host);
    assert t.log[..0] == [] && t.log[0..] == t.log;
  }

  /** Any sequence of partial commits equals one commit of their total. */
  lemma {:induction false} PiecesAdd<S>(t: Timeline<S>, pieces: seq<nat>)
    requires Consistent(t)
    ensures CommittedInPieces(t, pieces) == Committed(t, Sum(pieces))
  {
    if pieces == [] {
      CommitNothing(t);
    } else {
      PiecesAdd(t, pieces[..|pieces| - 1]);
      OneMorePiece(t, pieces, Sum(pieces[..|pieces| - 1]), pieces[|pieces| - 1]);
    }
  }

  lemma OneMorePiece<S>(t: Timeline<S>, pieces: seq<nat>, first: nat, last: nat)
    requires Consistent(t) && pieces != [] && last == pieces[|pieces| - 1]
    requires CommittedInPieces(t, pieces[..|pieces| - 1]) == Committed(t, first)
    ensures CommittedInPieces(t, pieces) == Committed(t, first + last)
  {
    PieceThenRest(t, first, last, Committed(t, first));
  }

  lemma PieceThenRest<S>(t: Timeline<S>, first: nat, rest: nat, middle: Timeline<S>)
    requires Consistent(t) && middle == Committed(t, first)
    ensures Consistent(middle) && Committed(middle, rest) == Committed(t, first + rest)
  {
    CommitAdds(t, first, rest);
  }

  // ---------------------------------------------------------------- what a commit leaves

  /** The frames of a stretch of log that are to be recorded, in order. */
  function Flagged<S>(log: seq<Entry<S>>): seq<Frame> {
    if log == [] then []
    else if log[0].record then [log[0].frame] + Flagged(log[1..])
    else Flagged(log[1..])
  }

  /** How many entries of a stretch of log are the replay's. */
  function Replayed<S>(log: seq<Entry<S>>): nat {
    if log == [] then 0 else (if log[0].playback then 1 else 0) + Replayed(log[1..])
  }

  /** The state that came with the last entry that brought one. */
  function LastBrought<S>(log: seq<Entry<S>>, before: S): S {
    if log == [] then before
    else LastBrought(log[1..], if log[0].state.Some? then log[0].state.value else before)
  }

  /** A replay after `n` more of its frames: on by that many, and gone at its end unless that frame has a checkpoint. */
  predicate PlayedOn(before: Option<Player>, n: nat, after: Option<Player>) {
    match before
    case None => after.None?
    case Some(p) =>
      if p.cursor + n < |p.frames| then after == Some(p.(cursor := p.cursor + n))
      else if |p.frames| in p.checkpoints then after == Some(p.(cursor := |p.frames|))
      else after.None?
  }

  /** What an effect makes of a state. */
  function StateAfter<S>(e: Effect<S>, before: S): S {
    if e.state.Some? then e.state.value else before
  }

  lemma {:induction false} EffectReads<S>(log: seq<Entry<S>>, before: S)
    ensures EffectOf(log).recorded == Flagged(log) && EffectOf(log).playback == Replayed(log)
    ensures StateAfter(EffectOf(log), before) == LastBrought(log, before)
    decreases |log|
  {
    if log != [] {
      EffectReads(log[1..], if log[0].state.Some? then log[0].state.value else before);
    }
  }

  lemma FeelMeans<S>(h: Host<S>, e: Effect<S>)
    requires Settled(h.player) && e.playback <= h.queued
    ensures var g := Feel(h, e);
            && g.state == StateAfter(e, h.state)
            && g.recorder == (if h.recorder.Some? then Some(h.recorder.value + e.recorded) else None)
            && PlayedOn(h.player, e.playback, g.player) && g.queued == h.queued - e.playback
  {
  }

  /**
   What a commit leaves, read off the log: the recorder gets the flagged frames in order and a missing recorder stays
   missing, the last state is installed, and the replay moves on by its own frames.
   */
  lemma CommitMeans<S>(t: Timeline<S>, n: nat)
    requires Consistent(t)
    ensures var done, after := t.log[..Min(n, |t.log|)], Committed(t, n);
            && after.log == t.log[Min(n, |t.log|)..] && after.host.state == LastBrought(done, t.host.state)
            && after.host.recorder
               == (if t.host.recorder.Some? then Some(t.host.recorder.value + Flagged(done)) else None)
            && PlayedOn(t.host.player, Replayed(done), after.host.player)
            && after.host.queued == t.host.queued - Replayed(done)
  {
    var k := Min(n, |t.log|);
    var done, rest := t.log[..k], t.log[k..];
    assert t.log == done + rest;
    CommitFront(t, done, rest);
    FeelMeans(t.host, EffectOf(done));
    EffectReads(done, t.host.state);
  }

  // ---------------------------------------------------------------- the same, batch by batch

  /** The frames to be recorded among the first `n` staged ones, in order. */
  function ToRecord<S>(pending: seq<Batch<S>>, n: nat): seq<Frame> {
    if pending == [] then []
    else
      var b, k := pending[0], Min(n, |pending[0].frames|);
      (if b.record then b.frames[..k] else []) + ToRecord(pending[1..], n - k)
  }

  /** How many of the first `n` staged frames are the replay's. */
  function FromReplay<S>(pending: seq<Batch<S>>, n: nat): nat {
    if pending == [] then 0
    else
      var b, k := pending[0], Min(n, |pending[0].frames|);
      (if b.playback then k else 0) + FromReplay(pending[1..], n - k)
  }

  /** The state that came with the last of the first `n` staged frames that brought one. */
  function LastState<S>(pending: seq<Batch<S>>, n: nat, before: S): S {
    if pending == [] then before
    else
      var b, k := pending[0], Min(n, |pending[0].frames|);
      LastState(pending[1..], n - k, if 0 < k <= |b.states| then b.states[k - 1] else before)
  }

  lemma {:induction false} NothingAsked<S>(pending: seq<Batch<S>>, before: S)
    ensures ToRecord(pending, 0) == [] && FromReplay(pending, 0) == 0 && LastState(pending, 0, before) == before
    decreases |pending|
  {
    if pending != [] {
      NothingAsked(pending[1..], before);
    }
  }

  /** Everything a commit of `n` frames does to the host, read off the batches that were staged. */
  ghost predicate CommitsBatches<S>(before: Host<S>, pending: seq<Batch<S>>, n: nat, after: Host<S>) {
    && after.state == LastState(pending, n, before.state)
    && after.recorder == (if before.recorder.Some? then Some(before.recorder.value + ToRecord(pending, n)) else None)
    && PlayedOn(before.player, FromReplay(pending, n), after.player)
  }

  /** One piece of the front batch, and the batches that are left with the frames still asked for. */
  ghost predicate CommitsPiece<S>(before: Host<S>, b: Batch<S>, k: nat, after: Host<S>)
    requires k <= |b.frames|
  {
    && after.state == (if 0 < k <= |b.states| then b.states[k - 1] else before.state)
    && after.recorder == (if before.recorder.Some?
                          then Some(before.recorder.value + if b.record then b.frames[..k] else []) else None)
    && PlayedOn(before.player, if b.playback then k else 0, after.player)
  }

  lemma PlayedOnTwice(a: Option<Player>, m: nat, b: Option<Player>, n: nat, c: Option<Player>)
    requires PlayedOn(a, m, b) && PlayedOn(b, n, c)
    ensures PlayedOn(a, m + n, c)
  {
  }

  /** A piece of the front batch and then the rest is everything. */
  lemma PieceThenBatches<S>(h: Host<S>, pending: seq<Batch<S>>, n: nat, k: nat, g: Host<S>,
                            left: seq<Batch<S>>, rest: nat, f: Host<S>)
    requires pending != [] && k == Min(n, |pending[0].frames|) && rest == n - k
    requires left == pending[1..] || rest == 0
    requires CommitsPiece(h, pending[0], k, g) && CommitsBatches(g, left, rest, f)
    ensures CommitsBatches(h, pending, n, f)
  {
    if rest == 0 {
      NothingAsked(left, g.state);
      NothingAsked(pending[1..], g.state);
    }
    PlayedOnTwice(h.player, if pending[0].playback then k else 0, g.player, FromReplay(left, rest), f.player);
    if h.recorder.Some? {
      var first := if pending[0].record then pending[0].frames[..k] else [];
      assert h.recorder.value + first + ToRecord(left, rest) == h.recorder.value + (first + ToRecord(left, rest));
    }
  }

  /** Committing what is left completes the commit that was asked for. */
  ghost predicate Suffices<S(!new)>(h: Host<S>, pending: seq<Batch<S>>, left: nat,
                              host: Host<S>, batches: seq<Batch<S>>, n: nat)
  {
    forall f :: CommitsBatches(h, pending, left, f) ==> CommitsBatches(host, batches, n, f)
  }

  lemma PieceSuffices<S(!new)>(h: Host<S>, pending: seq<Batch<S>>, left: nat, k: nat, g: Host<S>, now: seq<Batch<S>>,
                         rest: nat, host: Host<S>, batches: seq<Batch<S>>, n: nat)
    requires Suffices(h, pending, left, host, batches, n)
    requires pending != [] && k == Min(left, |pending[0].frames|) && rest == left - k
    requires (now == pending[1..] || rest == 0) && CommitsPiece(h, pending[0], k, g)
    ensures Suffices(g, now, rest, host, batches, n)
  {
    forall f | CommitsBatches(g, now, rest, f)
      ensures CommitsBatches(host, batches, n, f)
    {
      PieceThenBatches(h, pending, left, k, g, now, rest, f);
    }
  }

  lemma PieceMeans<S>(h: Host<S>, b: Batch<S>, k: nat)
    requires Settled(h.player) && k <= |b.frames| && b.IsValid() && (b.playback ==> k <= h.queued)
    ensures CommitsPiece(h, b, k, Feel(h, PieceEffect(b, k)))
  {
    FeelMeans(h, PieceEffect(b, k));
  }

  /** Nothing asked for, or nothing staged: nothing changes. */
  lemma CommitsNothing<S>(h: Host<S>, pending: seq<Batch<S>>, n: nat)
    requires Settled(h.player) && (n == 0 || pending == [])
    ensures CommitsBatches(h, pending, n, h)
  {
    if n == 0 {
      NothingAsked(pending, h.state);
    }
    if h.recorder.Some? {
      assert h.recorder.value + [] == h.recorder.value;
    }
  }

  // ---------------------------------------------------------------- one piece of the front batch

  /** The effect of a prefix of one batch, in closed form. */
  function PieceEffect<S>(b: Batch<S>, k: nat): Effect<S>
    requires k <= |b.frames|
  {
    Effect(if b.record then b.frames[..k] else [],
           if 0 < k <= |b.states| then Some(b.states[k - 1]) else None,
           if b.playback then k else 0)
  }

  lemma {:induction false} BatchPrefix<S>(b: Batch<S>, k: nat)
    requires b.IsValid() && k <= |b.frames|
    ensures EffectOf(Entries(b)[..k]) == PieceEffect(b, k)
  {
    if k > 0 {
      BatchPrefix(b, k - 1);
      var e := EntryAt(b, k - 1);
      assert Entries(b)[..k] == Entries(b)[..k - 1] + [e];
      EffectConcat(Entries(b)[..k - 1], [e]);
      SingleEffect(e);
      PieceStep(b, k);
    }
  }

  lemma SingleEffect<S>(e: Entry<S>)
    ensures EffectOf([e]) == OneEffect(e)
  {
    assert [e][1..] == [];
    assert OneEffect(e).recorded + [] == OneEffect(e).recorded;
  }

  lemma PieceStep<S>(b: Batch<S>, k: nat)
    requires b.IsValid() && 0 < k <= |b.frames|
    ensures Then(PieceEffect(b, k - 1), OneEffect(EntryAt(b, k - 1))) == PieceEffect(b, k)
  {
    assert b.frames[..k] == b.frames[..k - 1] + [b.frames[k - 1]];
  }

  lemma PieceIsCommit<S>(t: Timeline<S>, batch: Batch<S>, others: seq<Entry<S>>, count: nat)
    requires Consistent(t) && batch.IsValid() && count <= |batch.frames| && t.log == Entries(batch) + others
    ensures Committed(t, count) == Timeline(Entries(batch)[count..] + others, Feel(t.host, PieceEffect(batch, count)))
    ensures Consistent(Committed(t, count)) && PieceEffect(batch, count).playback <= t.host.queued
  {
    var piece, rest := Entries(batch)[..count], Entries(batch)[count..] + others;
    assert t.log == piece + rest;
    CommitFront(t, piece, rest);
    BatchPrefix(batch, count);
  }

  lemma DrainedEntries<S>(batch: Batch<S>, rest: Batch<S>, count: nat)
    requires batch.IsValid() && count <= |batch.frames|
    requires rest == Batch(batch.frames[count..], batch.record, batch.playback,
                           if batch.states != [] then batch.states[count..] else [])
    ensures rest.IsValid() && Entries(rest) == Entries(batch)[count..]
  {
    assert forall i :: 0 <= i < |rest.frames| ==> Entries(rest)[i] == EntryAt(batch, count + i);
  }

  /** When the log is used up, the frames still asked for change nothing. */
  lemma CommitRest<S>(t: Timeline<S>, left: nat, n: nat, now: Timeline<S>)
    requires left <= n && Reached(t, n - left, now) && (left > 0 ==> now.log == [])
    ensures now == Committed(t, n)
  {
    if left > 0 {
      CommitPastTheEnd(t, n - left, n);
    }
  }

  lemma CommitPastTheEnd<S>(t: Timeline<S>, m: nat, n: nat)
    requires m <= n && Committed(t, m).log == []
    ensures Committed(t, m) == Committed(t, n)
  {
  }

  predicate NoEmpty<S>(pending: seq<Batch<S>>) {
    forall i :: 0 <= i < |pending| ==> pending[i].frames != []
  }

  /** No longer than before, and still without empty batches if there were none. */
  predicate Shrunk<S>(before: seq<Batch<S>>, after: seq<Batch<S>>) {
    |after| <= |before| && (NoEmpty(before) ==> NoEmpty(after))
  }

  // ---------------------------------------------------------------- the object

  class ReplayTimeline<S(!new)> {
    var pending: seq<Batch<S>>
    var state: S
    var recorder: Option<seq<Frame>>
    var player: Option<Player>
    var queued: nat

    ghost function HostView(): Host<S>
      reads this
    {
      Host(state, recorder, player, queued)
    }

    ghost function View(): Timeline<S>
      reads this
    {
      Timeline(Flat(pending), HostView())
    }

    ghost predicate Valid()
      reads this
    {
      && (forall i :: 0 <= i < |pending| ==> pending[i].IsValid())
      && Consistent(View())
    }

    constructor (idle: S)
      ensures Valid() && View() == Timeline([], Host(idle, None, None, 0))
      ensures pending == []
    {
      pending, state, recorder, player, queued := [], idle, None, None, 0;
    }

    /** Frames handed to the emulator ahead of time join the end of the queue. */
    method StageBatch(batch: Batch<S>)
      requires Valid() && batch.IsValid() && !batch.playback
      modifies this`pending
      ensures Valid() && pending == old(pending) + [batch]
      ensures View() == Queued(old(View()), batch)
    {
      QueuedConsistent(View(), batch);
      FlatSnoc(pending, batch);
      pending := pending + [batch];
    }

    /** The replay's next frames are staged, counted and queued; a replay with none left is dropped. */
    method StagePlayback(n: nat) returns (frames: seq<Frame>)
      requires Valid() && pending == [] && player.Some?
      modifies this`pending, this`player, this`queued
      ensures Valid() && View() == PlaybackStaged(old(View()), n)
      ensures frames == Peek(old(player).value, old(queued), n)
      ensures var p := old(player).value;
              && |frames| == Min(n, Max(0, |p.frames| - p.cursor))
              && forall i :: 0 <= i < |frames| ==> frames[i] == p.frames[p.cursor + i]
      ensures pending == if frames == [] then [] else [PlaybackBatch(frames)]
    {
      frames := Peek(player.value, queued, n);
      if frames == [] {
        player, queued := None, 0;
      } else {
        QueuedConsistent(View(), PlaybackBatch(frames));
        FlatSnoc(pending, PlaybackBatch(frames));
        queued := queued + |frames|;
        pending := pending + [PlaybackBatch(frames)];
      }
    }

    /**
     `commit_replay_batch`: the first `n` staged frames really happened. The recorder gets those to record, the replay
     moves on by its own, and the last state among them is installed.
     */
    method CommitReplayBatch(n: nat)
      requires Valid()
      modifies this
      ensures Valid() && View() == Committed(old(View()), n)
      ensures CommitsBatches(old(HostView()), old(pending), n, HostView())
      ensures Shrunk(old(pending), pending)
    {
      ghost var start, host, batches := View(), HostView(), pending;
      CommitNothing(start);
      var left: nat := n;
      while left > 0 && pending != []
        invariant Valid() && left <= n
        invariant Reached(start, n - left, View())
        invariant Suffices(HostView(), pending, left, host, batches, n)
        invariant Shrunk(batches, pending)
        decreases |pending|, left
      {
        ghost var was, staged, asked := HostView(), pending, left;
        left := CommitTurn(left, start, n);
        PieceSuffices(was, staged, asked, asked - left, HostView(), pending, left, host, batches, n);
      }
      CommitRest(start, left, n, View());
      CommitsNothing(HostView(), pending, left);
    }

    /** One turn of the loop, seen from where the loop started. */
    method CommitTurn(left: nat, ghost start: Timeline<S>, ghost n: nat) returns (remaining: nat)
      requires Valid() && pending != [] && 0 < left <= n && Consistent(start) && Reached(start, n - left, View())
      modifies this
      ensures Valid() && remaining <= n && Reached(start, n - remaining, View())
      ensures remaining == left - Min(left, |old(pending)[0].frames|)
      ensures CommitsPiece(old(HostView()), old(pending)[0], Min(left, |old(pending)[0].frames|), HostView())
      ensures remaining > 0 ==> pending == old(pending)[1..]
      ensures Shrunk(old(pending), pending)
      ensures |pending| < |old(pending)| || (|pending| == |old(pending)| && remaining == 0)
    {
      ghost var before, piece: nat := View(), Min(left, |pending[0].frames|);
      remaining := CommitFrontBatch(left);
      GoesOn(start, n - left, before, piece, View(), n - remaining);
    }

    /** One turn of the loop: commits what the front batch has, and puts an unfinished one back. */
    method CommitFrontBatch(left: nat) returns (remaining: nat)
      requires Valid() && pending != [] && left > 0
      modifies this
      ensures Valid() && View() == Committed(old(View()), Min(left, |old(pending)[0].frames|))
      ensures remaining == left - Min(left, |old(pending)[0].frames|)
      ensures CommitsPiece(old(HostView()), old(pending)[0], Min(left, |old(pending)[0].frames|), HostView())
      ensures remaining > 0 ==> pending == old(pending)[1..]
      ensures |pending| < |old(pending)| || (|pending| == |old(pending)| && remaining == 0)
      ensures Shrunk(old(pending), pending)
    {
      var batch, others := pending[0], pending[1..];
      var count := Min(left, |batch.frames|);
      PieceIsCommit(View(), batch, Flat(others), count);
      PieceMeans(HostView(), batch, count);
      TakePiece(batch, count);
      PutBack(batch, others, count);
      remaining := left - count;
    }

    /** What is left of the front batch goes back to the front, without the frames and states used up. */
    method PutBack(batch: Batch<S>, others: seq<Batch<S>>, count: nat)
      requires batch.IsValid() && count <= |batch.frames| && forall i :: 0 <= i < |others| ==> others[i].IsValid()
      modifies this`pending
      ensures Flat(pending) == Entries(batch)[count..] + Flat(others)
      ensures forall i :: 0 <= i < |pending| ==> pending[i].IsValid()
      ensures |pending| == |others| + if count < |batch.frames| then 1 else 0
      ensures count == |batch.frames| ==> pending == others
      ensures NoEmpty(others) ==> NoEmpty(pending)
    {
      if count < |batch.frames| {
        var rest := Batch(batch.frames[count..], batch.record, batch.playback,
                          if batch.states != [] then batch.states[count..] else []);
        DrainedEntries(batch, rest, count);
        pending := [rest] + others;
        assert pending[1..] == others;
      } else {
        assert Entries(batch)[count..] + Flat(others) == Flat(others);
        pending := others;
      }
    }

    /** Installs the state, records the frames and advances the player for `count` frames of a batch. */
    method TakePiece(batch: Batch<S>, count: nat)
      requires batch.IsValid() && count <= |batch.frames| && Settled(player)
      modifies this`state, this`recorder, this`player, this`queued
      ensures HostView() == Feel(old(HostView()), PieceEffect(batch, count))
    {
      if count != 0 && count <= |batch.states| {
        state := batch.states[count - 1];
      }
      if recorder.Some? {
        assert recorder.value + [] == recorder.value;
        if batch.record {
          recorder := Some(recorder.value + batch.frames[..count]);
        }
      }
      if batch.playback {
        if player.Some? {
          var cursor := Min(player.value.cursor + count, |player.value.frames|);
          player := Some(player.value.(cursor := cursor));
          if cursor >= |player.value.frames| && cursor !in player.value.checkpoints {
            player := None;
          }
        }
        queued := if queued >= count then queued - count else 0;
      }
    }
  }
}
