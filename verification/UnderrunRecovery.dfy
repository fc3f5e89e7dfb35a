/** The low-latency underrun detector: a deque of at most two instants that answers for the whole history. */
module UnderrunRecovery {
  import opened Common

  const WINDOW: nat := 5_000_000_000
  const REPORTS_BEFORE_FALLBACK: nat := 3

  /** One observation: underruns since the last one, at `elapsed` nanoseconds on the output's clock. */
  datatype Observation = Observation(lowLatency: bool, underruns: nat, elapsed: nat)

  predicate InWindow(at: nat, now: nat) {
    now - at <= WINDOW
  }

  function Repeated(at: nat, n: nat): seq<nat> {
    seq(n, _ => at)
  }

  // ---------------------------------------------------------------- the code

  /** Dropping expired instants from the front. */
  function Pruned(incidents: seq<nat>, now: nat): seq<nat> {
    if incidents != [] && !InWindow(incidents[0], now) then Pruned(incidents[1..], now) else incidents
  }

  /** Bytes, as the code counts them: a truncating cast and a saturating sum. */
  function Reports(kept: nat, underruns: nat): nat {
    Min(U8_MAX, kept % 256 + Min(underruns, U8_MAX))
  }

  /** The new deque, and the number of reports when a fallback is asked for. */
  function Observed(incidents: seq<nat>, o: Observation): (seq<nat>, Option<nat>) {
    if !o.lowLatency then ([], None)
    else
      var kept := Pruned(incidents, o.elapsed);
      if o.underruns == 0 then (kept, None)
      else
        var reports := Reports(|kept|, o.underruns);
        if reports >= REPORTS_BEFORE_FALLBACK then ([], Some(reports))
        else (kept + Repeated(o.elapsed, o.underruns), None)
  }

  class Detector {
    var incidents: seq<nat>

    constructor ()
      ensures incidents == []
    {
      incidents := [];
    }

    method Observe(o: Observation) returns (fallback: Option<nat>)
      modifies this
      ensures (incidents, fallback) == Observed(old(incidents), o)
    {
      fallback := None;
      if !o.lowLatency {
        incidents := [];
        return;
      }
      while incidents != [] && !InWindow(incidents[0], o.elapsed)
        invariant Pruned(incidents, o.elapsed) == Pruned(old(incidents), o.elapsed)
        decreases |incidents|
      {
        incidents := incidents[1..];
      }
      if o.underruns == 0 {
        return;
      }
      var reports := Reports(|incidents|, o.underruns);
      if reports >= REPORTS_BEFORE_FALLBACK {
        incidents := [];
        fallback := Some(reports);
      } else {
        incidents := incidents + Repeated(o.elapsed, o.underruns);
      }
    }
  }

  // ---------------------------------------------------------------- the specification

  /** The instants of the last five seconds. */
  function Recent(history: seq<nat>, now: nat): seq<nat> {
    if history == [] then []
    else if InWindow(history[0], now) then [history[0]] + Recent(history[1..], now)
    else Recent(history[1..], now)
  }

  /** The whole history since the last reset, and whether this observation asks for a fallback. */
  function Judged(history: seq<nat>, o: Observation): (seq<nat>, bool) {
    if !o.lowLatency then ([], false)
    else
      var all := history + Repeated(o.elapsed, o.underruns);
      if |Recent(all, o.elapsed)| >= REPORTS_BEFORE_FALLBACK then ([], true) else (all, false)
  }

  function Deque(os: seq<Observation>): seq<nat> {
    if os == [] then [] else Observed(Deque(os[..|os| - 1]), os[|os| - 1]).0
  }

  function History(os: seq<Observation>): seq<nat> {
    if os == [] then [] else Judged(History(os[..|os| - 1]), os[|os| - 1]).0
  }

  /** The clock never runs backwards. */
  predicate Monotone(os: seq<Observation>) {
    forall i, j :: 0 <= i < j < |os| ==> os[i].elapsed <= os[j].elapsed
  }

  // ---------------------------------------------------------------- refinement

  predicate Ascending(s: seq<nat>) {
    forall i, j :: 0 <= i < j < |s| ==> s[i] <= s[j]
  }

  predicate NotAfter(s: seq<nat>, now: nat) {
    forall i :: 0 <= i < |s| ==> s[i] <= now
  }

  lemma {:induction false} RecentNarrows(history: seq<nat>, before: nat, now: nat)
    requires before <= now
    ensures Recent(Recent(history, before), now) == Recent(history, now)
  {
    if history != [] {
      RecentNarrows(history[1..], before, now);
      if InWindow(history[0], before) {
        assert ([history[0]] + Recent(history[1..], before))[1..] == Recent(history[1..], before);
      }
    }
  }

  lemma {:induction false} PrunedIsRecent(s: seq<nat>, now: nat)
    requires Ascending(s)
    ensures Pruned(s, now) == Recent(s, now)
  {
    if s != [] {
      PrunedIsRecent(s[1..], now);
      if InWindow(s[0], now) {
        AllRecent(s, now);
      }
    }
  }

  lemma {:induction false} AllRecent(s: seq<nat>, now: nat)
    requires forall i :: 0 <= i < |s| ==> InWindow(s[i], now)
    ensures Recent(s, now) == s
  {
    if s != [] {
      AllRecent(s[1..], now);
    }
  }

  lemma {:induction false} RecentConcat(a: seq<nat>, b: seq<nat>, now: nat)
    ensures Recent(a + b, now) == Recent(a, now) + Recent(b, now)
  {
    if a == [] {
      assert a + b == b;
    } else {
      RecentConcat(a[1..], b, now);
      assert (a + b)[1..] == a[1..] + b;
    }
  }

  lemma {:induction false} RecentKeepsOrder(s: seq<nat>, now: nat, least: nat)
    requires Ascending(s) && forall i :: 0 <= i < |s| ==> least <= s[i]
    ensures Ascending(Recent(s, now)) && forall i :: 0 <= i < |Recent(s, now)| ==> least <= Recent(s, now)[i]
  {
    if s != [] {
      RecentKeepsOrder(s[1..], now, s[0]);
    }
  }

  /** The deque holds the recent part of the history, and never more than two instants. */
  ghost predicate Refines(incidents: seq<nat>, history: seq<nat>, now: nat) {
    && Ascending(history) && NotAfter(history, now)
    && incidents == Recent(history, now) && |incidents| < REPORTS_BEFORE_FALLBACK
  }

  lemma ObservationRefines(incidents: seq<nat>, history: seq<nat>, before: nat, o: Observation)
    requires Refines(incidents, history, before) && before <= o.elapsed
    ensures Refines(Observed(incidents, o).0, Judged(history, o).0, o.elapsed)
    ensures Observed(incidents, o).1.Some? <==> Judged(history, o).1
    ensures Observed(incidents, o).1.Some? ==>
              Observed(incidents, o).1.value
                  == Min(U8_MAX, |Recent(history + Repeated(o.elapsed, o.underruns), o.elapsed)|)
  {
    if o.lowLatency {
      var kept, added := Pruned(incidents, o.elapsed), Repeated(o.elapsed, o.underruns);
      RecentKeepsOrder(history, before, 0);
      PrunedIsRecent(incidents, o.elapsed);
      RecentNarrows(history, before, o.elapsed);
      RecentConcat(history, added, o.elapsed);
      AllRecent(added, o.elapsed);
      RecentNoLonger(incidents, o.elapsed);
      if o.underruns == 0 {
        assert history + added == history && kept + added == kept;
      }
    }
  }

  lemma {:induction false} RecentNoLonger(s: seq<nat>, now: nat)
    ensures |Recent(s, now)| <= |s|
  {
    if s != [] {
      RecentNoLonger(s[1..], now);
    }
  }

  lemma {:induction false} RunRefines(os: seq<Observation>)
    requires Monotone(os)
    ensures Refines(Deque(os), History(os), if os == [] then 0 else os[|os| - 1].elapsed)
  {
    if os != [] {
      var n := |os| - 1;
      RunRefines(os[..n]);
      ObservationRefines(Deque(os[..n]), History(os[..n]), if n == 0 then 0 else os[n - 1].elapsed, os[n]);
    }
  }

  /**
   In every run on a monotone clock, the deque of at most two instants answers for the whole history: a
   fallback is asked for exactly when, under the low-latency policy, at least three underruns since the
   last reset lie within the last five seconds.
   */
  lemma DequeAnswersForHistory(os: seq<Observation>, o: Observation)
    requires Monotone(os + [o])
    ensures |Deque(os)| <= 2
    ensures Observed(Deque(os), o).1.Some?
            <==> o.lowLatency
                 && |Recent(History(os) + Repeated(o.elapsed, o.underruns), o.elapsed)| >= REPORTS_BEFORE_FALLBACK
  {
    var all := os + [o];
    assert Monotone(os) by {
      forall i, j | 0 <= i < j < |os|
        ensures os[i].elapsed <= os[j].elapsed
      {
        assert all[i].elapsed <= all[j].elapsed;
      }
    }
    RunRefines(os);
    if os != [] {
      assert all[|os| - 1].elapsed <= all[|os|].elapsed;
    }
    ObservationRefines(Deque(os), History(os), if os == [] then 0 else os[|os| - 1].elapsed, o);
  }

  // ---------------------------------------------------------------- the same, read off the observations

  /** The underruns observed from the `from`-th observation on that lie in the last five seconds. */
  function Counted(os: seq<Observation>, from: nat, now: nat): nat
    requires from <= |os|
  {
    if |os| == from then 0
    else
      var last := os[|os| - 1];
      Counted(os[..|os| - 1], from, now) + if now - last.elapsed <= 5_000_000_000 then last.underruns else 0
  }

  /** The last observation asks for a fallback: low latency, and three underruns in its window since the last reset. */
  predicate Asks(os: seq<Observation>)
    requires os != []
    decreases |os|, 0
  {
    var now := os[|os| - 1];
    now.lowLatency && Counted(os, LastReset(os[..|os| - 1]), now.elapsed) >= 3
  }

  /** How many observations there were up to the last reset: a fallback, or a moment of another latency. */
  function LastReset(os: seq<Observation>): (n: nat)
    ensures n <= |os|
    decreases |os|, 1
  {
    if os == [] then 0
    else if !os[|os| - 1].lowLatency || Asks(os) then |os|
    else LastReset(os[..|os| - 1])
  }

  lemma RecentRepeated(at: nat, n: nat, now: nat)
    ensures |Recent(Repeated(at, n), now)| == if now - at <= 5_000_000_000 then n else 0
  {
    if now - at <= 5_000_000_000 {
      AllRecent(Repeated(at, n), now);
    } else {
      NoneRecent(Repeated(at, n), now);
    }
  }

  lemma {:induction false} NoneRecent(s: seq<nat>, now: nat)
    requires forall i :: 0 <= i < |s| ==> !InWindow(s[i], now)
    ensures Recent(s, now) == []
  {
    if s != [] {
      NoneRecent(s[1..], now);
    }
  }

  lemma {:induction false} HistoryCounts(os: seq<Observation>, now: nat)
    ensures |Recent(History(os), now)| == Counted(os, LastReset(os), now)
    decreases |os|, 0
  {
    if os != [] {
      var front, last := os[..|os| - 1], os[|os| - 1];
      WithOneMore(front, last, last.elapsed);
      WithOneMore(front, last, now);
    }
  }

  lemma WithOneMore(front: seq<Observation>, last: Observation, now: nat)
    ensures |Recent(History(front) + Repeated(last.elapsed, last.underruns), now)|
            == Counted(front, LastReset(front), now)
               + if now - last.elapsed <= 5_000_000_000 then last.underruns else 0
    decreases |front|, 1
  {
    HistoryCounts(front, now);
    RecentConcat(History(front), Repeated(last.elapsed, last.underruns), now);
    RecentRepeated(last.elapsed, last.underruns, now);
  }

  /**
   On a monotone clock a fallback is asked for exactly when the observations say so, and it then reports how many
   underruns there were, up to 255.
   */
  lemma FallbackIff(os: seq<Observation>, o: Observation)
    requires Monotone(os + [o])
    ensures var all := os + [o];
            && (Observed(Deque(os), o).1.Some? <==> Asks(all))
            && (Asks(all) ==> Observed(Deque(os), o).1.value
                              == Min(255, Counted(all, LastReset(os), o.elapsed)))
  {
    var all := os + [o];
    assert all[..|os|] == os && all[|os|] == o;
    WithOneMore(os, o, o.elapsed);
    DequeAnswersForHistory(os, o);
    ReportsAll(os, o);
  }

  lemma ReportsAll(os: seq<Observation>, o: Observation)
    requires Monotone(os + [o])
    ensures Observed(Deque(os), o).1.Some? ==>
              Observed(Deque(os), o).1.value
              == Min(255, |Recent(History(os) + Repeated(o.elapsed, o.underruns), o.elapsed)|)
  {
    var all := os + [o];
    forall i, j | 0 <= i < j < |os|
      ensures os[i].elapsed <= os[j].elapsed
    {
      assert all[i].elapsed <= all[j].elapsed;
    }
    RunRefines(os);
    if os != [] {
      assert all[|os| - 1].elapsed <= all[|os|].elapsed;
    }
    ObservationRefines(Deque(os), History(os), if os == [] then 0 else os[|os| - 1].elapsed, o);
  }
}
