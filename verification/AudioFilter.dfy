/** The stereo low-pass filter and the ring write that feeds it in two slices, over the reals. */
module AudioFilter {
  import opened Common

  /** The filter's memory, one value per channel. */
  datatype Memory = Memory(left: real, right: real)

  datatype Config = Config(gain: real, lowPass: bool, alpha: real)

  /** One pole: the memory moves the fraction `alpha` of the way to the input. */
  function Toward(y: real, x: real, alpha: real): real {
    y + alpha * (x - y)
  }

  /** One sample through the filter: the channel alternates with the index, left first. */
  function Step(m: Memory, src: real, index: nat, c: Config): (Memory, real) {
    var x := src * c.gain;
    if !c.lowPass then (m, x)
    else if index % 2 == 0 then
      var y := Toward(m.left, x, c.alpha);
      (m.(left := y), y)
    else
      var y := Toward(m.right, x, c.alpha);
      (m.(right := y), y)
  }

  /** The contiguous pass: the memory and the outputs after `samples`, indices counted from 0. */
  function Pass(m: Memory, samples: seq<real>, c: Config): (r: (Memory, seq<real>))
    ensures |r.1| == |samples|
  {
    if samples == [] then (m, [])
    else
      var n := |samples| - 1;
      var (m', out) := Pass(m, samples[..n], c);
      var (m'', y) := Step(m', samples[n], n, c);
      (m'', out + [y])
  }

  /** The producer side: a ring of written samples with room for `capacity`, and the filter object. */
  class Producer {
    var written: seq<real>
    var capacity: nat
    var left: real
    var right: real

    ghost function Filter(): Memory
      reads this
    {
      Memory(left, right)
    }

    constructor (capacity: nat)
      ensures written == [] && this.capacity == capacity && Filter() == Memory(0.0, 0.0)
    {
      written, this.capacity, left, right := [], capacity, 0.0, 0.0;
    }

    /** `apply_sample`, or plain gain when the filter is off. */
    method Process(src: real, index: nat, c: Config) returns (out: real)
      modifies this`left, this`right
      ensures Filter() == Step(old(Filter()), src, index, c).0 && out == Step(old(Filter()), src, index, c).1
    {
      out := src * c.gain;
      if c.lowPass {
        if index % 2 == 0 {
          left := Toward(left, out, c.alpha);
          out := left;
        } else {
          right := Toward(right, out, c.alpha);
          out := right;
        }
      }
    }

    /**
     `write_processed_samples`: the ring hands out two slices, the first `room` slots before the wrap. The
     second loop continues the index, so where the ring wraps cannot be heard.
     */
    method WriteProcessed(samples: seq<real>, room: nat, c: Config)
      requires room <= |samples|
      modifies this
      ensures capacity == old(capacity)
      ensures if |old(written)| + |samples| <= capacity
              then written == old(written) + Pass(old(Filter()), samples, c).1
                  && Filter() == Pass(old(Filter()), samples, c).0
              else written == old(written) && Filter() == old(Filter())
    {
      if |written| + |samples| > capacity {
        return;
      }
      ghost var start := Filter();
      var first, second := [], [];
      for index := 0 to room
        invariant written == old(written) && capacity == old(capacity)
        invariant Pass(start, samples[..index], c) == (Filter(), first)
      {
        assert samples[..index + 1][..index] == samples[..index];
        var out := Process(samples[index], index, c);
        first := first + [out];
      }
      assert samples[..room + 0] == samples[..room] && first + [] == first;
      for offset := 0 to |samples| - room
        invariant written == old(written) && capacity == old(capacity)
        invariant Pass(start, samples[..room + offset], c) == (Filter(), first + second)
      {
        assert samples[..room + offset + 1][..room + offset] == samples[..room + offset];
        var out := Process(samples[room + offset], room + offset, c);
        assert (first + second) + [out] == first + (second + [out]);
        second := second + [out];
      }
      assert samples[..|samples|] == samples;
      written := written + first + second;
      assert old(written) + first + second == old(written) + (first + second);
    }
  }

  // ---------------------------------------------------------------- laws

  lemma StepParity(m: Memory, src: real, i: nat, j: nat, c: Config)
    requires i % 2 == j % 2
    ensures Step(m, src, i, c) == Step(m, src, j, c)
  {
  }

  lemma OneMore(m: Memory, a: seq<real>, x: real, c: Config)
    ensures Pass(m, a + [x], c) == Stepped(Pass(m, a, c), x, |a|, c)
  {
    var joined := a + [x];
    assert joined[..|joined| - 1] == a && joined[|joined| - 1] == x;
  }

  /** A pass continued by one sample. */
  function Stepped(p: (Memory, seq<real>), x: real, index: nat, c: Config): (Memory, seq<real>) {
    var (m, y) := Step(p.0, x, index, c);
    (m, p.1 + [y])
  }

  lemma SteppedAfter(m: Memory, before: seq<real>, out: seq<real>, x: real, i: nat, j: nat, c: Config)
    requires Step(m, x, i, c) == Step(m, x, j, c)
    ensures Stepped((m, before + out), x, i, c).0 == Stepped((m, out), x, j, c).0
    ensures Stepped((m, before + out), x, i, c).1 == before + Stepped((m, out), x, j, c).1
  {
    var y := Step(m, x, i, c).1;
    assert (before + out) + [y] == before + (out + [y]);
  }

  /** Writing `a` and then `b` is writing `a + b`: same samples, same memory. */
  predicate Composes(m: Memory, a: seq<real>, b: seq<real>, c: Config) {
    var first := Pass(m, a, c);
    var second := Pass(first.0, b, c);
    Pass(m, a + b, c) == (second.0, first.1 + second.1)
  }

  lemma ComposesNothing(m: Memory, a: seq<real>, c: Config)
    ensures Composes(m, a, [], c)
  {
    var first := Pass(m, a, c);
    assert a + [] == a && first.1 + [] == first.1;
  }

  /** If writes compose up to here and the next sample meets the same channel either way, they compose one further. */
  lemma ComposesOneMore(m: Memory, a: seq<real>, b: seq<real>, x: real, c: Config)
    requires Composes(m, a, b, c)
    requires var at := Pass(Pass(m, a, c).0, b, c).0; Step(at, x, |a| + |b|, c) == Step(at, x, |b|, c)
    ensures Composes(m, a, b + [x], c)
  {
    var first := Pass(m, a, c);
    var second := Pass(first.0, b, c);
    assert a + (b + [x]) == (a + b) + [x];
    OneMore(m, a + b, x, c);
    OneMore(first.0, b, x, c);
    SteppedAfter(second.0, first.1, second.1, x, |a| + |b|, |b|, c);
  }

  /** Two whole-pair writes in a row are one write of their concatenation. */
  lemma {:induction false} PassSplits(m: Memory, a: seq<real>, b: seq<real>, c: Config)
    requires |a| % 2 == 0
    ensures Composes(m, a, b, c)
  {
    if b == [] {
      ComposesNothing(m, a, c);
    } else {
      var front, x := b[..|b| - 1], b[|b| - 1];
      PassSplits(m, a, front, c);
      StepParity(Pass(Pass(m, a, c).0, front, c).0, x, |a| + |front|, |front|, c);
      ComposesOneMore(m, a, front, x, c);
      assert front + [x] == b;
    }
  }

  /** The filter cannot move from where it is, and both channels are there. */
  predicate Frozen(m: Memory, c: Config) {
    m.left == m.right && (c.alpha == 0.0 || (c.gain == 0.0 && m.left == 0.0))
  }

  lemma {:induction false} OffOrFrozenPass(m: Memory, a: seq<real>, b: seq<real>, c: Config)
    requires !c.lowPass || Frozen(Pass(m, a, c).0, c)
    ensures Composes(m, a, b, c) && Pass(Pass(m, a, c).0, b, c).0 == Pass(m, a, c).0
  {
    if b == [] {
      ComposesNothing(m, a, c);
    } else {
      var front, x := b[..|b| - 1], b[|b| - 1];
      OffOrFrozenPass(m, a, front, c);
      FrozenStep(Pass(m, a, c).0, x, |a| + |front|, |front|, c);
      ComposesOneMore(m, a, front, x, c);
      OneMore(Pass(m, a, c).0, front, x, c);
      assert front + [x] == b;
    }
  }

  lemma FrozenStep(m: Memory, src: real, i: nat, j: nat, c: Config)
    requires !c.lowPass || Frozen(m, c)
    ensures Step(m, src, i, c) == Step(m, src, j, c) && Step(m, src, j, c).0 == m
  {
    if c.lowPass {
      var x := src * c.gain;
      assert c.gain == 0.0 ==> x == 0.0;
      assert c.alpha == 0.0 ==> c.alpha * (x - m.left) == 0.0;
      assert x == m.left ==> c.alpha * (x - m.left) == 0.0;
      assert Toward(m.left, x, c.alpha) == m.left == Toward(m.right, x, c.alpha);
    }
  }

  /** An input that moves the left channel, or any at all when the channels differ. */
  function Moving(m: Memory, c: Config): real {
    if m.left != m.right || c.gain == 0.0 then 0.0 else (m.left + 1.0) / c.gain
  }

  /** After an odd write one more sample already tells the two apart. */
  lemma OddWriteShows(m: Memory, a: seq<real>, c: Config)
    requires c.lowPass && |a| % 2 == 1 && !Frozen(Pass(m, a, c).0, c)
    ensures !Composes(m, a, [Moving(Pass(m, a, c).0, c)], c)
  {
    var first := Pass(m, a, c);
    var x := Moving(first.0, c);
    OneMore(m, a, x, c);
    OneMore(first.0, [], x, c);
    assert [] + [x] == [x] && Pass(first.0, [x], c).1 == [Step(first.0, x, 0, c).1];
    if first.0.left == first.0.right {
      MovingReaches(first.0, c);
    }
    SwappedStep(first.0, x, |a|, c);
    var joined, separate := Step(first.0, x, |a|, c), Step(first.0, x, 0, c);
    assert (first.1 + [joined.1])[|a|] == joined.1 && (first.1 + [separate.1])[|a|] == separate.1;
  }

  lemma SwappedStep(m: Memory, x: real, odd: nat, c: Config)
    requires c.lowPass && odd % 2 == 1
    requires m.left == m.right ==> c.alpha != 0.0 && x * c.gain != m.left
    ensures Step(m, x, odd, c) != Step(m, x, 0, c)
  {
    if m.left == m.right {
      ProductZero(c.alpha, x * c.gain - m.left);
      assert Step(m, x, odd, c).0.left != Step(m, x, 0, c).0.left;
    }
  }

  lemma MovingReaches(m: Memory, c: Config)
    requires m.left == m.right && !Frozen(m, c)
    ensures c.alpha != 0.0 && Moving(m, c) * c.gain != m.left
  {
    if c.gain != 0.0 {
      var q := (m.left + 1.0) / c.gain;
      assert q * c.gain == m.left + 1.0;
    }
  }

  lemma ProductZero(a: real, b: real)
    requires a != 0.0 && b != 0.0
    ensures a * b != 0.0
  {
  }

  /**
   Exactly when writes compose: whatever follows, a write and the next equal one write of both if and only if the
   first has even length, the filter is off, or the first leaves a filter that cannot move.
   */
  lemma WritesComposeIff(m: Memory, a: seq<real>, c: Config)
    ensures (forall b :: Composes(m, a, b, c)) <==> |a| % 2 == 0 || !c.lowPass || Frozen(Pass(m, a, c).0, c)
  {
    if |a| % 2 == 0 || !c.lowPass || Frozen(Pass(m, a, c).0, c) {
      forall b
        ensures Composes(m, a, b, c)
      {
        if |a| % 2 == 0 {
          PassSplits(m, a, b, c);
        } else {
          OffOrFrozenPass(m, a, b, c);
        }
      }
    } else {
      OddWriteShows(m, a, c);
    }
  }

  predicate Within(x: real, bound: real) {
    -bound <= x <= bound
  }

  predicate InputWithin(src: real, c: Config, bound: real) {
    Within(src * c.gain, bound)
  }

  predicate AllWithin(out: seq<real>, bound: real) {
    forall i :: 0 <= i < |out| ==> Within(out[i], bound)
  }

  /** A filter with alpha in [0, 1] never exceeds what its memory and its scaled input stay within. */
  lemma {:induction false} NeverOvershoots(m: Memory, samples: seq<real>, c: Config, bound: real)
    requires 0.0 <= c.alpha <= 1.0 && Within(m.left, bound) && Within(m.right, bound)
    requires forall i :: 0 <= i < |samples| ==> InputWithin(samples[i], c, bound)
    ensures var (m', out) := Pass(m, samples, c);
            Within(m'.left, bound) && Within(m'.right, bound) && AllWithin(out, bound)
  {
    if samples != [] {
      var n := |samples| - 1;
      NeverOvershoots(m, samples[..n], c, bound);
      var (m', out) := Pass(m, samples[..n], c);
      assert InputWithin(samples[n], c, bound);
      StepWithin(m', samples[n], n, c, bound);
      var (m'', y) := Step(m', samples[n], n, c);
      assert Pass(m, samples, c) == (m'', out + [y]);
    }
  }

  lemma StepWithin(m: Memory, src: real, index: nat, c: Config, bound: real)
    requires 0.0 <= c.alpha <= 1.0 && Within(m.left, bound) && Within(m.right, bound) && Within(src * c.gain, bound)
    ensures var (m', y) := Step(m, src, index, c);
            Within(m'.left, bound) && Within(m'.right, bound) && Within(y, bound)
  {
    TowardWithin(m.left, src * c.gain, c.alpha, bound);
    TowardWithin(m.right, src * c.gain, c.alpha, bound);
  }

  lemma TowardWithin(y: real, x: real, alpha: real, bound: real)
    requires 0.0 <= alpha <= 1.0 && Within(y, bound) && Within(x, bound)
    ensures Within(Toward(y, x, alpha), bound)
  {
    var beta := 1.0 - alpha;
    var p, r := ScaledWithin(beta, y, bound);
    var q, s := ScaledWithin(alpha, x, bound);
    TowardIsBlend(y, x, alpha, beta, p, q);
    WeightsAddUp(alpha, beta, bound, r, s);
  }

  lemma TowardIsBlend(y: real, x: real, alpha: real, beta: real, p: real, q: real)
    requires beta == 1.0 - alpha && p == beta * y && q == alpha * x
    ensures Toward(y, x, alpha) == p + q
  {
    assert alpha * (x - y) == alpha * x - alpha * y;
    assert (1.0 - alpha) * y == y - alpha * y;
  }

  lemma WeightsAddUp(alpha: real, beta: real, bound: real, r: real, s: real)
    requires beta == 1.0 - alpha && r == beta * bound && s == alpha * bound
    ensures r + s == bound
  {
    assert (1.0 - alpha) * bound == bound - alpha * bound;
  }

  /** The products `a * x` and `a * bound`. */
  lemma ScaledWithin(a: real, x: real, bound: real) returns (p: real, r: real)
    requires a >= 0.0 && Within(x, bound)
    ensures p == a * x && r == a * bound && -r <= p <= r
  {
    p, r := a * x, a * bound;
    var below, above := a * (bound - x), a * (bound + x);
    NonNegativeProduct(a, bound - x, below);
    NonNegativeProduct(a, bound + x, above);
    assert below == r - p && above == r + p;
  }

  lemma NonNegativeProduct(a: real, b: real, product: real)
    requires a >= 0.0 && b >= 0.0 && product == a * b
    ensures product >= 0.0
  {
  }

  // ---------------------------------------------------------------- what the filter computes

  /** With the filter off every sample is scaled and nothing else, and the memory is left alone. */
  lemma {:induction false} OffScales(m: Memory, samples: seq<real>, c: Config)
    requires !c.lowPass
    ensures Pass(m, samples, c).0 == m
    ensures forall i :: 0 <= i < |samples| ==> Pass(m, samples, c).1[i] == samples[i] * c.gain
  {
    if samples != [] {
      OffScales(m, samples[..|samples| - 1], c);
    }
  }

  function Power(a: real, n: nat): real {
    if n == 0 then 1.0 else a * Power(a, n - 1)
  }

  /** `n` stereo pairs of one left and one right input. */
  function Steady(left: real, right: real, n: nat): seq<real> {
    if n == 0 then [] else Steady(left, right, n - 1) + [left, right]
  }

  lemma {:induction false} SteadyLength(left: real, right: real, n: nat)
    ensures |Steady(left, right, n)| == 2 * n
  {
    if n > 0 {
      SteadyLength(left, right, n - 1);
    }
  }

  /** What is missing to `x` has shrunk to the fraction `p`. */
  predicate Approached(start: real, x: real, p: real, at: real) {
    at == x + p * (start - x)
  }

  lemma OneApproach(start: real, x: real, alpha: real, p: real, at: real)
    requires Approached(start, x, p, at)
    ensures Approached(start, x, (1.0 - alpha) * p, Toward(at, x, alpha))
  {
    var d := p * (start - x);
    assert alpha * (x - at) == -(alpha * d);
    assert (1.0 - alpha) * p * (start - x) == (1.0 - alpha) * d == d - alpha * d;
  }

  /** One pair, each sample on its own channel. */
  lemma PairStep(at: Memory, left: real, right: real, i: nat, c: Config)
    requires c.lowPass && i % 2 == 0
    ensures Step(Step(at, left, i, c).0, right, i + 1, c).0
            == Memory(Toward(at.left, left * c.gain, c.alpha), Toward(at.right, right * c.gain, c.alpha))
  {
  }

  lemma TwoMore(m: Memory, before: seq<real>, left: real, right: real, c: Config)
    ensures var at := Pass(m, before, c).0;
            Pass(m, before + [left, right], c).0
            == Step(Step(at, left, |before|, c).0, right, |before| + 1, c).0
  {
    assert before + [left, right] == (before + [left]) + [right];
    OneMore(m, before, left, c);
    OneMore(m, before + [left], right, c);
  }

  /** One channel after `n` frames of the scaled input `x`. */
  function Approach(start: real, x: real, alpha: real, n: nat): real {
    if n == 0 then start else Toward(Approach(start, x, alpha, n - 1), x, alpha)
  }

  lemma {:induction false} SteadyPass(m: Memory, left: real, right: real, n: nat, c: Config)
    requires c.lowPass
    ensures Pass(m, Steady(left, right, n), c).0
            == Memory(Approach(m.left, left * c.gain, c.alpha, n), Approach(m.right, right * c.gain, c.alpha, n))
  {
    if n > 0 {
      SteadyPass(m, left, right, n - 1, c);
      SteadyLength(left, right, n - 1);
      TwoMore(m, Steady(left, right, n - 1), left, right, c);
      PairStep(Pass(m, Steady(left, right, n - 1), c).0, left, right, 2 * (n - 1), c);
    }
  }

  lemma {:induction false} ApproachIsGeometric(start: real, x: real, alpha: real, n: nat)
    ensures Approached(start, x, Power(1.0 - alpha, n), Approach(start, x, alpha, n))
  {
    if n == 0 {
      assert 1.0 * (start - x) == start - x;
    } else {
      ApproachIsGeometric(start, x, alpha, n - 1);
      OneApproach(start, x, alpha, Power(1.0 - alpha, n - 1), Approach(start, x, alpha, n - 1));
    }
  }

  /** Each channel alone approaches its scaled input geometrically: what is missing shrinks by `1 - alpha` a frame. */
  lemma StepResponse(m: Memory, left: real, right: real, n: nat, c: Config, x: real, y: real)
    requires c.lowPass && x == left * c.gain && y == right * c.gain
    ensures var end, p := Pass(m, Steady(left, right, n), c).0, Power(1.0 - c.alpha, n);
            Approached(m.left, x, p, end.left) && Approached(m.right, y, p, end.right)
  {
    SteadyPass(m, left, right, n, c);
    ApproachIsGeometric(m.left, x, c.alpha, n);
    ApproachIsGeometric(m.right, y, c.alpha, n);
  }
}
