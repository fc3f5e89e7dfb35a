/** Playback over every interleaving of whole writes, generation bumps, preroll changes and callbacks. */
module AudioRuns {
  import opened Common
  import opened AudioPlayback

  datatype Event =
    | Write(values: seq<real>)
    | BumpGeneration
    | SetPreroll(samples: nat)
    | DeviceCallback(pairs: nat)

  /** The shared state with its history: every sample ever written, and for each one taken off the ring
      whether it was played (true) or discarded (false). */
  datatype World = World(audio: Audio, written: seq<Sample>, fates: seq<bool>)

  function Start(capacity: nat, preroll: nat, generation: nat): World {
    World(Audio([], capacity, generation, preroll, generation, preroll, false, 0, 0), [], [])
  }

  function Tagged(values: seq<real>, generation: nat): seq<Sample> {
    seq(|values|, i requires 0 <= i < |values| => Sample(generation, values[i]))
  }

  function Repeated(b: bool, n: nat): seq<bool> {
    seq(n, _ => b)
  }

  /** A write goes in whole or not at all. */
  function Next(w: World, e: Event): (t: World)
    requires |w.audio.queue| <= w.audio.capacity
    ensures |t.audio.queue| <= t.audio.capacity
  {
    var a := w.audio;
    match e
    case Write(values) =>
      if |a.queue| + |values| > a.capacity then w
      else
        var samples := Tagged(values, a.generation);
        w.(audio := a.(queue := a.queue + samples), written := w.written + samples)
    case BumpGeneration => w.(audio := a.(generation := a.generation + 1))
    case SetPreroll(n) => w.(audio := a.(preroll := n))
    case DeviceCallback(pairs) =>
      World(Callback(a, pairs), w.written,
            w.fates + Repeated(false, StaleCount(a.queue, a.generation)) + Repeated(true, |Played(a, pairs)|))
  }

  /** What every run keeps: the ring is the unconsumed end of what was written, oldest generation first. */
  ghost predicate Inv(w: World) {
    && |w.audio.queue| <= w.audio.capacity
    && |w.fates| <= |w.written| && w.written[|w.fates|..] == w.audio.queue
    && (forall i :: 0 <= i < |w.written| ==> w.written[i].generation <= w.audio.generation)
    && (forall i, j :: 0 <= i < j < |w.written| ==> w.written[i].generation <= w.written[j].generation)
  }

  /** Producers that write whole stereo pairs keep every boundary even. */
  ghost predicate Paired(w: World) {
    && |w.written| % 2 == 0 && |w.fates| % 2 == 0
    && forall p :: 0 <= p < |w.written| / 2 ==> PairAt(w.written, p)
  }

  /** The two samples of stereo pair `p` are of one generation. */
  predicate PairAt(written: seq<Sample>, p: nat) {
    2 * p + 1 < |written| && written[2 * p].generation == written[2 * p + 1].generation
  }

  predicate WholePairs(e: Event) {
    e.Write? ==> |e.values| % 2 == 0
  }

  predicate AllWholePairs(es: seq<Event>) {
    forall i :: 0 <= i < |es| ==> WholePairs(es[i])
  }

  /** Taking samples off the front of the ring, with a fate for each. */
  lemma ConsumptionKeepsInv(w: World, t: World, k: nat)
    requires Inv(w) && k <= |w.audio.queue|
    requires t.written == w.written && |t.fates| == |w.fates| + k && t.audio.queue == w.audio.queue[k..]
    requires t.audio.capacity == w.audio.capacity && t.audio.generation == w.audio.generation
    ensures Inv(t)
  {
    assert w.written[|w.fates| + k..] == w.written[|w.fates|..][k..];
  }

  lemma WriteKeepsInv(w: World, values: seq<real>)
    requires Inv(w)
    ensures Inv(Next(w, Write(values)))
  {
    var samples := Tagged(values, w.audio.generation);
    assert (w.written + samples)[|w.fates|..] == w.written[|w.fates|..] + samples;
  }

  lemma CallbackKeepsInv(w: World, pairs: nat)
    requires Inv(w)
    ensures Inv(Next(w, DeviceCallback(pairs)))
  {
    var a := w.audio;
    var stale, n := StaleCount(a.queue, a.generation), |Played(a, pairs)|;
    assert a.queue[stale..][n..] == a.queue[stale + n..];
    ConsumptionKeepsInv(w, Next(w, DeviceCallback(pairs)), stale + n);
  }

  lemma StepKeepsInv(w: World, e: Event)
    requires Inv(w)
    ensures Inv(Next(w, e))
  {
    match e
    case Write(values) => WriteKeepsInv(w, values);
    case DeviceCallback(pairs) => CallbackKeepsInv(w, pairs);
    case _ =>
  }

  /** Once the stale front is gone, everything left is of the current generation. */
  lemma OnlyCurrentLeft(w: World)
    requires Inv(w)
    ensures forall i :: StaleCount(w.audio.queue, w.audio.generation) <= i < |w.audio.queue|
                        ==> w.audio.queue[i].generation == w.audio.generation
  {
    var q, n := w.audio.queue, StaleCount(w.audio.queue, w.audio.generation);
    forall i | n <= i < |q|
      ensures q[i].generation == w.audio.generation
    {
      assert q[n] == w.written[|w.fates| + n] && q[i] == w.written[|w.fates| + i];
    }
  }

  /** The stale front ends on a pair boundary. */
  lemma StaleIsEven(w: World)
    requires Inv(w) && Paired(w)
    ensures StaleCount(w.audio.queue, w.audio.generation) % 2 == 0
  {
    var q, n := w.audio.queue, StaleCount(w.audio.queue, w.audio.generation);
    if n > 0 {
      var last := |w.fates| + n - 1;
      assert q[n - 1] == w.written[last] && q[n - 1].generation != w.audio.generation;
      assert n < |q| ==> q[n] == w.written[last + 1] && q[n].generation == w.audio.generation;
      PairBoundary(w.written, last, w.audio.generation);
      EvenSum(|w.fates|, n);
    }
  }

  /** Where the generation changes, or the samples end, a pair has just ended. */
  lemma PairBoundary(written: seq<Sample>, last: nat, generation: nat)
    requires |written| % 2 == 0 && forall p :: 0 <= p < |written| / 2 ==> PairAt(written, p)
    requires last < |written| && written[last].generation != generation
    requires last + 1 < |written| ==> written[last + 1].generation == generation
    ensures (last + 1) % 2 == 0
  {
    assert PairAt(written, last / 2);
  }

  lemma StepKeepsPairs(w: World, e: Event)
    requires Inv(w) && Paired(w) && WholePairs(e)
    ensures Paired(Next(w, e))
  {
    if e.DeviceCallback? {
      StaleIsEven(w);
      CallbackKeepsPairs(w, e.pairs);
    } else if e.Write? {
      PairedWrite(w, e.values);
    }
  }

  lemma CallbackKeepsPairs(w: World, pairs: nat)
    requires |w.audio.queue| <= w.audio.capacity && Paired(w)
    requires StaleCount(w.audio.queue, w.audio.generation) % 2 == 0
    ensures Paired(Next(w, DeviceCallback(pairs)))
  {
    var stale, n := StaleCount(w.audio.queue, w.audio.generation), |Played(w.audio, pairs)|;
    PlayedIsEven(w.audio, pairs);
    assert Next(w, DeviceCallback(pairs)).written == w.written;
    assert |Next(w, DeviceCallback(pairs)).fates| == |w.fates| + stale + n;
    EvenSum(|w.fates|, stale);
    EvenSum(|w.fates| + stale, n);
  }

  lemma PlayedIsEven(a: Audio, pairs: nat)
    requires |a.queue| <= a.capacity
    ensures |Played(a, pairs)| % 2 == 0
  {
  }

  lemma PairedWrite(w: World, values: seq<real>)
    requires Inv(w) && Paired(w) && |values| % 2 == 0
    ensures Paired(Next(w, Write(values)))
  {
    var t := Next(w, Write(values));
    forall p | 0 <= p < |t.written| / 2
      ensures PairAt(t.written, p)
    {
      if p < |w.written| / 2 {
        assert PairAt(w.written, p);
      }
    }
  }

  function Run(w: World, es: seq<Event>): (r: World)
    requires |w.audio.queue| <= w.audio.capacity
    ensures |r.audio.queue| <= r.audio.capacity
  {
    if es == [] then w else Next(Run(w, es[..|es| - 1]), es[|es| - 1])
  }

  lemma {:induction false} RunKeepsInv(capacity: nat, preroll: nat, generation: nat, es: seq<Event>)
    ensures Inv(Run(Start(capacity, preroll, generation), es))
  {
    if es != [] {
      RunKeepsInv(capacity, preroll, generation, es[..|es| - 1]);
      StepKeepsInv(Run(Start(capacity, preroll, generation), es[..|es| - 1]), es[|es| - 1]);
    }
  }

  lemma {:induction false} RunKeepsPairs(capacity: nat, preroll: nat, generation: nat, es: seq<Event>)
    requires AllWholePairs(es)
    ensures Paired(Run(Start(capacity, preroll, generation), es))
  {
    if es != [] {
      RunKeepsInv(capacity, preroll, generation, es[..|es| - 1]);
      RunKeepsPairs(capacity, preroll, generation, es[..|es| - 1]);
      StepKeepsPairs(Run(Start(capacity, preroll, generation), es[..|es| - 1]), es[|es| - 1]);
    }
  }

  // ---------------------------------------------------------------- what listeners can rely on

  function Count(fates: seq<bool>, b: bool): nat {
    if fates == [] then 0 else Count(fates[..|fates| - 1], b) + if fates[|fates| - 1] == b then 1 else 0
  }

  lemma {:induction false} CountAll(fates: seq<bool>)
    ensures Count(fates, true) + Count(fates, false) == |fates|
  {
    if fates != [] {
      CountAll(fates[..|fates| - 1]);
    }
  }

  /**
   Conservation and order, in every run: written samples are exactly those played, those discarded and
   those still queued, and the queue is the end of what was written.
   */
  lemma NothingLost(capacity: nat, preroll: nat, generation: nat, es: seq<Event>)
    ensures var w := Run(Start(capacity, preroll, generation), es);
            && |w.fates| <= |w.written| && w.written[|w.fates|..] == w.audio.queue
            && |w.written| == Count(w.fates, true) + Count(w.fates, false) + |w.audio.queue|
  {
    RunKeepsInv(capacity, preroll, generation, es);
    CountAll(Run(Start(capacity, preroll, generation), es).fates);
  }

  /** Where the samples of a callback sit in everything that was written. */
  function PlayedFrom(w: World): nat {
    |w.fates| + StaleCount(w.audio.queue, w.audio.generation)
  }

  /** The samples of a callback are the next ones written, all current; what was skipped is all older. */
  ghost predicate PlaysNextInOrder(w: World, pairs: nat)
    requires |w.audio.queue| <= w.audio.capacity
  {
    var played, from := Played(w.audio, pairs), PlayedFrom(w);
    && from + |played| <= |w.written|
    && played == w.written[from..from + |played|]
    && (forall i :: 0 <= i < |played| ==> played[i].generation == w.audio.generation)
    && (forall i :: |w.fates| <= i < from ==> w.written[i].generation < w.audio.generation)
  }

  /** In every run, a callback plays the next samples in written order, none of an older generation. */
  lemma PlaysCurrentInOrder(capacity: nat, preroll: nat, generation: nat, es: seq<Event>, pairs: nat)
    ensures PlaysNextInOrder(Run(Start(capacity, preroll, generation), es), pairs)
  {
    RunKeepsInv(capacity, preroll, generation, es);
    PlaysFromQueue(Run(Start(capacity, preroll, generation), es), pairs);
  }

  /**
   With producers that write whole stereo pairs, every callback of every run starts at an even position
   of what was written and plays whole pairs: left and right never swap.
   */
  lemma LeftRightNeverSwap(capacity: nat, preroll: nat, generation: nat, es: seq<Event>, pairs: nat)
    requires AllWholePairs(es)
    ensures StartsOnPair(Run(Start(capacity, preroll, generation), es), pairs)
  {
    RunKeepsInv(capacity, preroll, generation, es);
    RunKeepsPairs(capacity, preroll, generation, es);
    PairedStart(Run(Start(capacity, preroll, generation), es), pairs);
  }

  lemma PairedStart(w: World, pairs: nat)
    requires Inv(w) && Paired(w)
    ensures StartsOnPair(w, pairs)
  {
    StaleIsEven(w);
    PlayedIsEven(w.audio, pairs);
    EvenSum(|w.fates|, StaleCount(w.audio.queue, w.audio.generation));
  }

  predicate StartsOnPair(w: World, pairs: nat)
    requires |w.audio.queue| <= w.audio.capacity
  {
    PlayedFrom(w) % 2 == 0 && |Played(w.audio, pairs)| % 2 == 0
  }

  lemma EvenSum(a: nat, b: nat)
    ensures a % 2 == 0 && b % 2 == 0 ==> (a + b) % 2 == 0
    ensures a % 2 == 0 && (a + b) % 2 == 0 ==> b % 2 == 0
  {
  }

  /** What the ring holds, as a stretch of everything written. */
  lemma QueueIsWritten(w: World, from: nat, to: nat)
    requires Inv(w) && from <= to <= |w.audio.queue|
    ensures |w.fates| + to <= |w.written|
    ensures w.audio.queue[from..to] == w.written[|w.fates| + from..|w.fates| + to]
  {
    assert w.audio.queue[from..to] == w.written[|w.fates|..][from..to];
  }

  /** The samples a callback skips are all older. */
  lemma SkippedAreOlder(w: World, i: nat)
    requires Inv(w) && |w.fates| <= i < PlayedFrom(w)
    ensures i < |w.written| && w.written[i].generation < w.audio.generation
  {
    assert w.written[i] == w.audio.queue[i - |w.fates|];
  }

  lemma PlaysFromQueue(w: World, pairs: nat)
    requires Inv(w)
    ensures PlaysNextInOrder(w, pairs)
  {
    OnlyCurrentLeft(w);
    var a, played := w.audio, Played(w.audio, pairs);
    var stale := StaleCount(a.queue, a.generation);
    Rest(a.queue, stale, |played|);
    QueueIsWritten(w, stale, stale + |played|);
    forall i | |w.fates| <= i < PlayedFrom(w)
      ensures w.written[i].generation < a.generation
    {
      SkippedAreOlder(w, i);
    }
  }

  /**
   A callback plays a full buffer or nothing, unless the device asks for more than the ring holds; and
   after silence, a generation change or a raised preroll, sound resumes only with the preroll in store.
   */
  lemma FullOrSilent(a: Audio, pairs: nat)
    requires |a.queue| <= a.capacity && 2 * pairs <= a.capacity
    ensures var n, left := |Played(a, pairs)|, |DiscardStale(a).queue|;
            var resumes := !a.primed || a.generation != a.observedGeneration || a.preroll > a.observedPreroll;
            && (n == 2 * pairs || n == 0)
            && (n > 0 && resumes ==> left >= a.preroll)
            && (n == 0 && pairs > 0 ==> left < Max(a.preroll, 2 * pairs) && !Callback(a, pairs).primed)
  {
  }

  // ---------------------------------------------------------------- a callback, exactly

  /** Playback was running: primed, in this generation, and the preroll has not been raised since. */
  predicate Running(a: Audio) {
    a.primed && a.generation == a.observedGeneration && a.preroll <= a.observedPreroll
  }

  /** The samples of the current generation that a callback finds. */
  predicate Store(a: Audio, skipped: nat, store: nat) {
    && skipped + store == |a.queue|
    && (forall i :: 0 <= i < skipped ==> a.queue[i].generation != a.generation)
    && (store > 0 ==> a.queue[skipped].generation == a.generation)
  }

  /** The hysteresis: running playback needs one buffer, anything else the preroll too; interruptions are counted. */
  predicate Plays(a: Audio, pairs: nat, store: nat) {
    store >= 2 * pairs && (Running(a) || store >= a.preroll)
  }

  lemma Discarded(a: Audio, skipped: nat, store: nat)
    requires Store(a, skipped, store)
    ensures StaleCount(a.queue, a.generation) == skipped
    ensures DiscardStale(a).queue == a.queue[skipped..] && |a.queue[skipped..]| == store
  {
  }

  lemma Rest(queue: seq<Sample>, skipped: nat, n: nat)
    requires skipped + n <= |queue|
    ensures queue[skipped..][..n] == queue[skipped..skipped + n] && queue[skipped..][n..] == queue[skipped + n..]
  {
  }

  /** A write that fits goes in whole, tagged with the current generation; any other changes nothing. */
  lemma WriteExact(w: World, values: seq<real>)
    requires Inv(w)
    ensures var t := Next(w, Write(values));
            if |w.audio.queue| + |values| <= w.audio.capacity then
              && |t.written| == |w.written| + |values| && t.written[..|w.written|] == w.written
              && (forall i :: 0 <= i < |values| ==>
                                t.written[|w.written| + i] == Sample(w.audio.generation, values[i]))
              && t.fates == w.fates && t.audio == w.audio.(queue := t.written[|w.fates|..])
            else t == w
  {
    WriteKeepsInv(w, values);
  }

  lemma PlanExact(a: Audio, pairs: nat, skipped: nat, store: nat)
    requires |a.queue| <= a.capacity && 0 < 2 * pairs <= a.capacity && Store(a, skipped, store)
    ensures var plays := Plays(a, pairs, store);
            Plan(a, pairs)
            == (a.(queue := a.queue[skipped..], primed := plays,
                   underruns := a.underruns + if Running(a) && store < 2 * pairs then 1 else 0,
                   observedGeneration := a.generation, observedPreroll := a.preroll,
                   callbackSamples := Max(a.callbackSamples, 2 * pairs)),
                if plays then 2 * pairs else 0)
  {
    Discarded(a, skipped, store);
  }

  /** What a callback takes and what it leaves, for a buffer the ring can hold. */
  lemma CallbackExact(a: Audio, pairs: nat, skipped: nat, store: nat)
    requires |a.queue| <= a.capacity && 0 < 2 * pairs <= a.capacity && Store(a, skipped, store)
    ensures Played(a, pairs) == if Plays(a, pairs, store) then a.queue[skipped..skipped + 2 * pairs] else []
    ensures var b, n := Callback(a, pairs), if Plays(a, pairs, store) then 2 * pairs else 0;
            && b.queue == a.queue[skipped + n..] && b.primed == Plays(a, pairs, store)
            && b.underruns == a.underruns + (if Running(a) && store < 2 * pairs then 1 else 0)
            && b.observedGeneration == a.generation && b.observedPreroll == a.preroll
            && b.callbackSamples == (if a.callbackSamples > 2 * pairs then a.callbackSamples else 2 * pairs)
            && b.capacity == a.capacity && b.generation == a.generation && b.preroll == a.preroll
  {
    PlanExact(a, pairs, skipped, store);
    Rest(a.queue, skipped, if Plays(a, pairs, store) then 2 * pairs else 0);
  }

  lemma PlanOversized(a: Audio, pairs: nat, skipped: nat, store: nat)
    requires |a.queue| <= a.capacity < 2 * pairs && Store(a, skipped, store)
    ensures Plan(a, pairs)
            == (a.(queue := a.queue[skipped..], primed := false, underruns := a.underruns + 1,
                   observedGeneration := a.generation, callbackSamples := Max(a.callbackSamples, 2 * pairs)),
                store - store % 2)
  {
    Discarded(a, skipped, store);
  }

  /** A device buffer larger than the ring takes the whole pairs there are, and counts as an interruption. */
  lemma OversizedCallback(a: Audio, pairs: nat, skipped: nat, store: nat)
    requires |a.queue| <= a.capacity < 2 * pairs && Store(a, skipped, store)
    ensures var n := store - store % 2;
            && Played(a, pairs) == a.queue[skipped..skipped + n]
            && Callback(a, pairs).queue == a.queue[skipped + n..]
            && !Callback(a, pairs).primed && Callback(a, pairs).underruns == a.underruns + 1
            && Callback(a, pairs).observedGeneration == a.generation
            && Callback(a, pairs).callbackSamples
               == (if a.callbackSamples > 2 * pairs then a.callbackSamples else 2 * pairs)
  {
    PlanOversized(a, pairs, skipped, store);
    Rest(a.queue, skipped, store - store % 2);
  }

  /** A buffer of no frames only discards. */
  lemma EmptyCallback(a: Audio, skipped: nat, store: nat)
    requires |a.queue| <= a.capacity && Store(a, skipped, store)
    ensures Played(a, 0) == [] && Callback(a, 0).queue == a.queue[skipped..]
    ensures Callback(a, 0).primed == (a.primed && a.generation == a.observedGeneration)
    ensures Callback(a, 0).underruns == a.underruns
  {
    Discarded(a, skipped, store);
    Rest(a.queue, skipped, 0);
  }
}
