/**
 The native playback side: a ring of generation-tagged stereo samples, the preroll and underrun state
 of the callback, and what it writes to the device buffer. Samples are real numbers.
 */
module AudioPlayback {
  import opened Common

  datatype Sample = Sample(generation: nat, value: real)

  /** Everything a callback reads or changes; the last four fields are its private state and counters. */
  datatype Audio = Audio(queue: seq<Sample>, capacity: nat, generation: nat, preroll: nat,
                         observedGeneration: nat, observedPreroll: nat, primed: bool, underruns: nat,
                         callbackSamples: nat)

  // ---------------------------------------------------------------- one callback, as a value

  /** How many samples at the front of the queue are of another generation. */
  function StaleCount(queue: seq<Sample>, generation: nat): (n: nat)
    ensures n <= |queue|
    ensures forall i :: 0 <= i < n ==> queue[i].generation != generation
    ensures n < |queue| ==> queue[n].generation == generation
  {
    if queue == [] || queue[0].generation == generation then 0 else 1 + StaleCount(queue[1..], generation)
  }

  function DiscardStale(a: Audio): Audio {
    a.(queue := a.queue[StaleCount(a.queue, a.generation)..],
       observedGeneration := a.generation,
       primed := a.primed && a.generation == a.observedGeneration)
  }

  /** `ready`: hysteresis between playing and waiting for the preroll. */
  function Ready(a: Audio, available: nat, needed: nat): (Audio, bool) {
    var primed := a.primed && a.preroll <= a.observedPreroll;
    var b := a.(observedPreroll := a.preroll, primed := primed);
    if primed && available >= needed then (b, true)
    else
      var c := if primed then b.(underruns := b.underruns + 1) else b;
      if available >= Max(a.preroll, needed) then (c.(primed := true), true) else (c.(primed := false), false)
  }

  /** Stereo frames a device buffer of `length` slots takes; none when the device has no channels. */
  function Pairs(length: nat, channels: nat): nat {
    if channels == 0 then 0 else length / channels
  }

  /** The state before reading, and how many samples will be read, for a buffer of `pairs` stereo frames. */
  function Plan(a: Audio, pairs: nat): (r: (Audio, nat))
    requires |a.queue| <= a.capacity
    ensures r.0.queue == DiscardStale(a).queue && r.1 <= |r.0.queue| && r.1 % 2 == 0 && r.1 <= 2 * pairs
    ensures r.0.capacity == a.capacity && r.0.generation == a.generation
  {
    var needed := 2 * pairs;
    var b := DiscardStale(a).(callbackSamples := Max(a.callbackSamples, needed));
    if needed == 0 then (b, 0)
    else if needed > b.capacity then
      (b.(primed := false, underruns := b.underruns + 1), |b.queue| - |b.queue| % 2)
    else
      var (c, ready) := Ready(b, |b.queue|, needed);
      (c, if ready then needed else 0)
  }

  function Callback(a: Audio, pairs: nat): Audio
    requires |a.queue| <= a.capacity
  {
    var (b, n) := Plan(a, pairs);
    b.(queue := b.queue[n..])
  }

  /** The samples one callback plays. */
  function Played(a: Audio, pairs: nat): seq<Sample>
    requires |a.queue| <= a.capacity
  {
    var (b, n) := Plan(a, pairs);
    b.queue[..n]
  }

  /** One device frame: mono mixes, two channels are left and right, further channels carry the mix. */
  function FrameOut(left: real, right: real, channels: nat): (frame: seq<real>)
    requires channels > 0
    ensures |frame| == channels
  {
    seq(channels, c => if channels == 1 || c >= 2 then (left + right) * 0.5 else if c == 0 then left else right)
  }

  function Rendered(samples: seq<Sample>, channels: nat): seq<real>
    requires channels > 0 && |samples| % 2 == 0
  {
    if samples == [] then []
    else
      var n := |samples| - 2;
      Rendered(samples[..n], channels) + FrameOut(samples[n].value, samples[n + 1].value, channels)
  }

  function Silence(n: nat): seq<real> {
    seq(n, _ => 0.0)
  }

  /** The device buffer after a callback that played `samples`. */
  function Output(samples: seq<Sample>, length: nat, channels: nat): seq<real>
    requires |samples| % 2 == 0
  {
    if channels == 0 then Silence(length)
    else
      var frames := Rendered(samples, channels);
      frames + Silence(Max(0, length - |frames|))
  }

  // ---------------------------------------------------------------- the object

  lemma RoomForFrame(frame: nat, frames: nat, length: nat, channels: nat)
    requires channels > 0 && frame < frames && frames <= length / channels
    ensures (frame + 1) * channels == frame * channels + channels <= length
  {
    var q := length / channels;
    assert (frame + 1) * channels == frame * channels + channels;
    MulMonotone(frame + 1, q, channels);
    assert q * channels <= length;
  }

  lemma MulMonotone(a: nat, b: nat, c: nat)
    requires a <= b
    ensures a * c <= b * c
  {
    assert b * c == a * c + (b - a) * c;
  }

  lemma {:induction false} RenderedStep(samples: seq<Sample>, channels: nat, f: nat)
    requires channels > 0 && |samples| % 2 == 0 && 2 * f + 2 <= |samples|
    ensures Rendered(samples[..2 * f + 2], channels)
            == Rendered(samples[..2 * f], channels) + FrameOut(samples[2 * f].value, samples[2 * f + 1].value, channels)
  {
    assert samples[..2 * f + 2][..2 * f] == samples[..2 * f];
  }

  /** Frame `f` of the device buffer holds the pair `2f`, `2f + 1` on its channels. */
  lemma {:induction false} RenderedAt(samples: seq<Sample>, channels: nat, f: nat, c: nat)
    requires channels > 0 && |samples| % 2 == 0 && 2 * f + 1 < |samples| && c < channels
    ensures |Rendered(samples, channels)| == |samples| / 2 * channels
    ensures f * channels + c < |samples| / 2 * channels
    ensures Rendered(samples, channels)[f * channels + c]
            == var l, r := samples[2 * f].value, samples[2 * f + 1].value;
               if channels == 1 || c >= 2 then (l + r) * 0.5 else if c == 0 then l else r
  {
    var n := |samples| - 2;
    var frames := n / 2;
    RenderedLength(samples, channels);
    RenderedLength(samples[..n], channels);
    if f == frames {
      MulMonotone(frames + 1, |samples| / 2, channels);
      assert f * channels + channels == (frames + 1) * channels;
    } else {
      RenderedAt(samples[..n], channels, f, c);
      MulMonotone(frames, |samples| / 2, channels);
    }
  }

  /** How many stereo frames a device buffer of `length` slots holds: as many whole ones as fit. */
  lemma PairsFit(length: nat, channels: nat)
    requires channels > 0
    ensures Pairs(length, channels) * channels <= length < (Pairs(length, channels) + 1) * channels
    ensures Pairs(length, 0) == 0
  {
    assert length == length / channels * channels + length % channels;
  }

  /** The device buffer slot by slot: the played pairs on their channels, and silence in every other slot. */
  lemma OutputAt(samples: seq<Sample>, length: nat, channels: nat, f: nat, c: nat)
    requires channels > 0 && |samples| % 2 == 0 && c < channels && |samples| / 2 * channels <= length
    requires f * channels + c < length
    ensures |Output(samples, length, channels)| == length
    ensures Output(samples, length, channels)[f * channels + c]
            == if 2 * f + 1 < |samples| then
                 var l, r := samples[2 * f].value, samples[2 * f + 1].value;
                 if channels == 1 || c >= 2 then (l + r) * 0.5 else if c == 0 then l else r
               else 0.0
  {
    RenderedLength(samples, channels);
    if 2 * f + 1 < |samples| {
      RenderedAt(samples, channels, f, c);
    } else {
      MulMonotone(|samples| / 2, f, channels);
    }
  }

  lemma {:induction false} RenderedLength(samples: seq<Sample>, channels: nat)
    requires channels > 0 && |samples| % 2 == 0
    ensures |Rendered(samples, channels)| == |samples| / 2 * channels
  {
    if samples != [] {
      var n := |samples| - 2;
      RenderedLength(samples[..n], channels);
      assert |samples| / 2 == n / 2 + 1;
      assert (n / 2 + 1) * channels == n / 2 * channels + channels;
    }
  }


  class PlaybackState {
    var queue: seq<Sample>
    var capacity: nat
    var generation: nat
    var preroll: nat
    var observedGeneration: nat
    var observedPreroll: nat
    var primed: bool
    var underruns: nat
    var callbackSamples: nat

    ghost function View(): Audio
      reads this
    {
      Audio(queue, capacity, generation, preroll, observedGeneration, observedPreroll, primed, underruns,
      callbackSamples)
    }

    constructor (capacity: nat, preroll: nat, generation: nat)
      ensures View() == Audio([], capacity, generation, preroll, generation, preroll, false, 0, 0)
    {
      this.queue, this.capacity, this.generation, this.preroll := [], capacity, generation, preroll;
      observedGeneration, observedPreroll := generation, preroll;
      primed, underruns, callbackSamples := false, 0, 0;
    }

    method DiscardStaleSamples()
      modifies this
      ensures View() == DiscardStale(old(View()))
    {
      if generation != observedGeneration {
        observedGeneration := generation;
        primed := false;
      }
      ghost var n, settled := 0, View();
      while queue != [] && queue[0].generation != generation
        invariant View() == settled.(queue := queue)
        invariant n <= |old(queue)| && queue == old(queue)[n..]
        invariant StaleCount(old(queue), generation) == n + StaleCount(queue, generation)
        decreases |queue|
      {
        queue := queue[1..];
        n := n + 1;
      }
      assert StaleCount(queue, generation) == 0;
    }

    method IsReady(available: nat, needed: nat) returns (ready: bool)
      modifies this
      ensures (View(), ready) == Ready(old(View()), available, needed)
    {
      if preroll > observedPreroll {
        primed := false;
      }
      observedPreroll := preroll;
      if primed {
        if available >= needed {
          return true;
        }
        primed := false;
        underruns := underruns + 1;
      }
      ready := available >= Max(preroll, needed);
      if ready {
        primed := true;
      }
    }

    /** `fill_output_f32`: discards, decides, and overwrites the whole device buffer. */
    method FillOutput(data: array<real>, channels: nat)
      requires |queue| <= capacity
      modifies this, data
      ensures View() == Callback(old(View()), Pairs(data.Length, channels))
      ensures data[..] == Output(Played(old(View()), Pairs(data.Length, channels)), data.Length, channels)
    {
      var count := Decide(data.Length, channels);
      var chunk := queue[..count];
      queue := queue[count..];
      Render(chunk, data, channels);
    }

    /** How many samples the callback will read, with the state it leaves. */
    method Decide(length: nat, channels: nat) returns (count: nat)
      requires |queue| <= capacity
      modifies this
      ensures (View(), count) == Plan(old(View()), Pairs(length, channels))
    {
      DiscardStaleSamples();
      if channels == 0 {
        return 0;
      }
      count := DecideFor(length / channels);
    }

    method DecideFor(pairs: nat) returns (count: nat)
      requires |queue| <= capacity && (queue == [] || queue[0].generation == generation)
      requires observedGeneration == generation
      modifies this
      ensures (View(), count) == Plan(old(View()), pairs)
    {
      var needed := 2 * pairs;
      callbackSamples := Max(callbackSamples, needed);
      if needed == 0 {
        return 0;
      }
      if needed > capacity {
        primed := false;
        underruns := underruns + 1;
        return |queue| - |queue| % 2;
      }
      var ready := IsReady(|queue|, needed);
      count := if ready then needed else 0;
    }
  }

  /** Writes the frames of `chunk` to the front of the buffer and silence to the rest. */
  method Render(chunk: seq<Sample>, data: array<real>, channels: nat)
    requires |chunk| % 2 == 0 && (channels == 0 ==> chunk == [])
    requires |chunk| <= 2 * Pairs(data.Length, channels)
    modifies data
    ensures data[..] == Output(chunk, data.Length, channels)
  {
    var at := 0;
    if channels > 0 {
      at := RenderFrames(chunk, data, channels);
    }
    ghost var front := data[..at];
    for i := at to data.Length
      invariant data[..at] == front
      invariant forall k :: at <= k < i ==> data[k] == 0.0
    {
      data[i] := 0.0;
    }
    assert data[..] == data[..at] + data[at..];
    assert data[at..] == Silence(data.Length - at);
  }

  method RenderFrames(chunk: seq<Sample>, data: array<real>, channels: nat) returns (at: nat)
    requires |chunk| % 2 == 0 && channels > 0 && |chunk| <= 2 * Pairs(data.Length, channels)
    modifies data
    ensures at <= data.Length && data[..at] == Rendered(chunk, channels)
  {
    at := 0;
    var frames := |chunk| / 2;
    for f := 0 to frames
      invariant at == f * channels <= data.Length
      invariant data[..at] == Rendered(chunk[..2 * f], channels)
    {
      RoomForFrame(f, frames, data.Length, channels);
      RenderedStep(chunk, channels, f);
      WriteFrame(data, at, chunk[2 * f].value, chunk[2 * f + 1].value, channels);
      assert data[..at + channels] == data[..at] + data[at..at + channels];
      at := at + channels;
    }
    assert chunk[..2 * frames] == chunk;
  }

  method WriteFrame(data: array<real>, at: nat, left: real, right: real, channels: nat)
    requires channels > 0 && at + channels <= data.Length
    modifies data
    ensures data[..at] == old(data[..at])
    ensures data[at..at + channels] == FrameOut(left, right, channels)
  {
    if channels == 1 {
      data[at] := (left + right) * 0.5;
    } else {
      data[at] := left;
      data[at + 1] := right;
      for c := 2 to channels
        invariant data[..at] == old(data[..at]) && data[at] == left && data[at + 1] == right
        invariant forall k :: at + 2 <= k < at + c ==> data[k] == (left + right) * 0.5
      {
        data[at + c] := (left + right) * 0.5;
      }
    }
  }
}
