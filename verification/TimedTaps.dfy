/** Remote button taps: the list of pending releases, the frame limit, and why a tap lasts exactly as asked. */
module TimedTaps {
  import opened Common

  datatype System = PcEngine | ColecoVision | OtherSystem

  datatype Input = Button(key: nat) | Keypad(key: nat)

  /** A line of the remote pad: players are 1 to 5 once a request is parsed. */
  datatype Target = Target(player: nat, input: Input)

  datatype Release = Release(target: Target, framesRemaining: nat)

  datatype Command = SetTo(target: Target, pressed: bool) | Tap(target: Target, frames: nat)

  /** A tap request without a frame count lasts four frames; any other is brought into 1 to 60. */
  function ParsedFrames(requested: Option<nat>): nat {
    var frames := if requested.Some? then requested.value else 4;
    Min(Max(frames, 1), 60)
  }

  predicate Accepts(system: System, target: Target) {
    match target.input
    case Button(_) => target.player > 2 ==> system == PcEngine
    case Keypad(_) => system == ColecoVision && target.player <= 2
  }

  // ---------------------------------------------------------------- what the operations do

  function Without(releases: seq<Release>, target: Target): seq<Release> {
    if releases == [] then []
    else
      var kept := Without(releases[..|releases| - 1], target);
      var r := releases[|releases| - 1];
      if r.target == target then kept else kept + [r]
  }

  function CountedDown(release: Release, frames: nat): Release {
    release.(framesRemaining := if release.framesRemaining >= frames then release.framesRemaining - frames else 0)
  }

  function AllCounted(releases: seq<Release>, frames: nat): seq<Release> {
    if releases == [] then []
    else AllCounted(releases[..|releases| - 1], frames) + [CountedDown(releases[|releases| - 1], frames)]
  }

  function StillRunning(releases: seq<Release>): seq<Release> {
    if releases == [] then []
    else
      var kept := StillRunning(releases[..|releases| - 1]);
      var r := releases[|releases| - 1];
      if r.framesRemaining > 0 then kept + [r] else kept
  }

  /** The targets whose time is up within `frames`, in list order. */
  function Due(releases: seq<Release>, frames: nat): seq<Target> {
    if releases == [] then []
    else
      var due := Due(releases[..|releases| - 1], frames);
      var r := releases[|releases| - 1];
      if r.framesRemaining <= frames then due + [r.target] else due
  }

  lemma CountOneMore(releases: seq<Release>, i: nat, frames: nat)
    requires i < |releases|
    ensures AllCounted(releases[..i + 1], frames)
            == AllCounted(releases[..i], frames) + [CountedDown(releases[i], frames)]
    ensures Due(releases[..i + 1], frames)
         == var due := Due(releases[..i], frames);
            if releases[i].framesRemaining <= frames then due + [releases[i].target] else due
  {
    assert releases[..i + 1][..i] == releases[..i];
  }

  function Lifted(held: set<Target>, targets: seq<Target>): set<Target> {
    set t | t in held && t !in targets
  }

  /** The remote lines held down and the releases still to come. */
  datatype Lines = Lines(held: set<Target>, releases: seq<Release>)

  function Obeyed(lines: Lines, command: Command): Lines {
    match command
    case SetTo(t, pressed) =>
      if pressed then lines.(held := lines.held + {t}) else Lines(lines.held - {t}, Without(lines.releases, t))
    case Tap(t, frames) => Lines(lines.held + {t}, Without(lines.releases, t) + [Release(t, frames)])
  }

  function Advanced(lines: Lines, frames: nat): Lines {
    Lines(Lifted(lines.held, Due(lines.releases, frames)), StillRunning(AllCounted(lines.releases, frames)))
  }

  /** No release would be late: nobody is due before `frames` frames have gone by. */
  predicate WithinLimit(releases: seq<Release>, frames: nat) {
    forall i :: 0 <= i < |releases| ==> frames <= releases[i].framesRemaining
  }

  class Remote {
    var held: set<Target>
    var releases: seq<Release>

    constructor ()
      ensures Now() == Lines({}, [])
    {
      held, releases := {}, [];
    }

    ghost function Now(): Lines
      reads this
    {
      Lines(held, releases)
    }

    method RetainOthers(target: Target)
      modifies this`releases
      ensures releases == Without(old(releases), target)
    {
      var kept: seq<Release> := [];
      var i := 0;
      while i < |releases|
        invariant 0 <= i <= |releases| && releases == old(releases)
        invariant kept == Without(releases[..i], target)
      {
        assert releases[..i + 1][..i] == releases[..i];
        if releases[i].target != target {
          kept := kept + [releases[i]];
        }
        i := i + 1;
      }
      assert releases[..|releases|] == releases;
      releases := kept;
    }

    /** A press or a tap leaves at most the new release on its line; a request for a missing line changes nothing. */
    method Obey(system: System, command: Command) returns (accepted: bool)
      modifies this
      ensures accepted == Accepts(system, command.target)
      ensures Now() == if accepted then Obeyed(old(Now()), command) else old(Now())
    {
      var target := command.target;
      if target.input.Button? && target.player > 2 && system != PcEngine {
        return false;
      }
      if target.input.Keypad? && (system != ColecoVision || target.player > 2) {
        return false;
      }
      accepted := true;
      match command
      case SetTo(_, pressed) =>
        held := if pressed then held + {target} else held - {target};
        if !pressed {
          RetainOthers(target);
        }
      case Tap(_, frames) =>
        held := held + {target};
        RetainOthers(target);
        releases := releases + [Release(target, frames)];
    }

    /** The most frames, up to those wanted, that make no release late. */
    method FrameLimit(frames: nat) returns (limit: nat)
      ensures limit <= frames && WithinLimit(releases, limit)
      ensures forall more: nat | limit < more <= frames :: !WithinLimit(releases, more)
    {
      limit := frames;
      var i := 0;
      while i < |releases|
        invariant 0 <= i <= |releases| && limit <= frames
        invariant forall j :: 0 <= j < i ==> limit <= releases[j].framesRemaining
        invariant limit == frames || exists j :: 0 <= j < i && releases[j].framesRemaining == limit
      {
        if releases[i].framesRemaining < limit {
          limit := releases[i].framesRemaining;
        }
        i := i + 1;
      }
    }

    method RetainRunning()
      modifies this`releases
      ensures releases == StillRunning(old(releases))
    {
      var kept: seq<Release> := [];
      var i := 0;
      while i < |releases|
        invariant 0 <= i <= |releases| && releases == old(releases)
        invariant kept == StillRunning(releases[..i])
      {
        assert releases[..i + 1][..i] == releases[..i];
        if releases[i].framesRemaining > 0 {
          kept := kept + [releases[i]];
        }
        i := i + 1;
      }
      assert releases[..|releases|] == releases;
      releases := kept;
    }

    /** Counts every release down and drops those whose time is up, in order. */
    method CountDown(frames: nat) returns (expired: seq<Target>)
      modifies this`releases
      ensures expired == Due(old(releases), frames)
      ensures releases == StillRunning(AllCounted(old(releases), frames))
    {
      ghost var was := releases;
      expired := [];
      var i := 0;
      while i < |releases|
        invariant 0 <= i <= |releases| == |was|
        invariant releases[..i] == AllCounted(was[..i], frames) && releases[i..] == was[i..]
        invariant expired == Due(was[..i], frames)
      {
        ghost var done, left := releases[..i], releases[i..];
        assert releases[i] == left[0] == was[i];
        CountOneMore(was, i, frames);
        var r := CountedDown(releases[i], frames);
        releases := releases[i := r];
        assert releases[..i + 1] == done + [r] && releases[i + 1..] == left[1..] == was[i + 1..];
        if r.framesRemaining == 0 {
          expired := expired + [r.target];
        }
        i := i + 1;
      }
      assert was[..|was|] == was && releases[..i] == releases;
      RetainRunning();
    }

    /** One tick: count down, then let go of every line whose time is up. */
    method Advance(frames: nat)
      modifies this
      ensures Now() == Advanced(old(Now()), frames)
    {
      var expired := CountDown(frames);
      var i := 0;
      while i < |expired|
        invariant 0 <= i <= |expired| && releases == StillRunning(AllCounted(old(releases), frames))
        invariant held == Lifted(old(held), expired[..i])
      {
        held := held - {expired[i]};
        i := i + 1;
      }
      assert expired[..|expired|] == expired;
    }
  }

  // ---------------------------------------------------------------- one line of the pad

  /** The frames left on each release pending for one line. */
  function Slots(releases: seq<Release>, target: Target): seq<nat> {
    if releases == [] then []
    else
      var slots := Slots(releases[..|releases| - 1], target);
      var r := releases[|releases| - 1];
      if r.target == target then slots + [r.framesRemaining] else slots
  }

  ghost predicate Single(releases: seq<Release>) {
    forall t :: |Slots(releases, t)| <= 1
  }

  lemma SlotsOfLast(releases: seq<Release>, r: Release, target: Target)
    ensures Slots(releases + [r], target)
         == var slots := Slots(releases, target); if r.target == target then slots + [r.framesRemaining] else slots
  {
    assert (releases + [r])[..|releases|] == releases;
  }

  lemma {:induction false} SlotsWithout(releases: seq<Release>, gone: Target, target: Target)
    ensures Slots(Without(releases, gone), target) == if target == gone then [] else Slots(releases, target)
  {
    if releases != [] {
      var front := releases[..|releases| - 1];
      var r := releases[|releases| - 1];
      SlotsWithout(front, gone, target);
      if r.target != gone {
        SlotsOfLast(Without(front, gone), r, target);
      }
    }
  }

  /** What counting down leaves of one line's releases. */
  function SlotsLeft(slots: seq<nat>, frames: nat): seq<nat> {
    if slots == [] then []
    else
      var left := SlotsLeft(slots[..|slots| - 1], frames);
      var n := slots[|slots| - 1];
      if n > frames then left + [n - frames] else left
  }

  lemma SlotsLeftOfLast(slots: seq<nat>, n: nat, frames: nat)
    ensures SlotsLeft(slots + [n], frames)
         == var left := SlotsLeft(slots, frames); if n > frames then left + [n - frames] else left
  {
    assert (slots + [n])[..|slots|] == slots;
  }

  lemma StillRunningOfLast(releases: seq<Release>, r: Release)
    ensures StillRunning(releases + [r])
         == var kept := StillRunning(releases); if r.framesRemaining > 0 then kept + [r] else kept
  {
    assert (releases + [r])[..|releases|] == releases;
  }

  lemma {:induction false} SlotsCounted(releases: seq<Release>, frames: nat, target: Target)
    ensures Slots(StillRunning(AllCounted(releases, frames)), target) == SlotsLeft(Slots(releases, target), frames)
  {
    if releases != [] {
      var front := releases[..|releases| - 1];
      var r := releases[|releases| - 1];
      var c := CountedDown(r, frames);
      SlotsCounted(front, frames, target);
      StillRunningOfLast(AllCounted(front, frames), c);
      SlotsOfLast(StillRunning(AllCounted(front, frames)), c, target);
      SlotsLeftOfLast(Slots(front, target), r.framesRemaining, frames);
    }
  }

  predicate AtLeast(slots: seq<nat>, frames: nat) {
    forall i :: 0 <= i < |slots| ==> frames <= slots[i]
  }

  lemma {:induction false} SlotsWithinLimit(releases: seq<Release>, frames: nat, target: Target)
    requires WithinLimit(releases, frames)
    ensures AtLeast(Slots(releases, target), frames)
  {
    if releases != [] {
      SlotsWithinLimit(releases[..|releases| - 1], frames, target);
    }
  }

  lemma {:induction false} DueInOrder(a: seq<Release>, b: seq<Release>, frames: nat)
    ensures Due(a + b, frames) == Due(a, frames) + Due(b, frames)
  {
    if b == [] {
      assert a + b == a;
    } else {
      DueInOrder(a, b[..|b| - 1], frames);
      assert (a + b)[..|a + b| - 1] == a + b[..|b| - 1];
    }
  }

  lemma {:induction false} CountedInOrder(a: seq<Release>, b: seq<Release>, frames: nat)
    ensures AllCounted(a + b, frames) == AllCounted(a, frames) + AllCounted(b, frames)
  {
    if b == [] {
      assert a + b == a;
    } else {
      CountedInOrder(a, b[..|b| - 1], frames);
      assert (a + b)[..|a + b| - 1] == a + b[..|b| - 1];
    }
  }

  lemma {:induction false} RunningInOrder(a: seq<Release>, b: seq<Release>)
    ensures StillRunning(a + b) == StillRunning(a) + StillRunning(b)
  {
    if b == [] {
      assert a + b == a;
    } else {
      RunningInOrder(a, b[..|b| - 1]);
      assert (a + b)[..|a + b| - 1] == a + b[..|b| - 1];
    }
  }

  /** The expired targets come in the order of the list, and so do the releases that are left. */
  lemma InListOrder(a: seq<Release>, b: seq<Release>, frames: nat)
    ensures Due(a + b, frames) == Due(a, frames) + Due(b, frames)
    ensures StillRunning(AllCounted(a + b, frames))
            == StillRunning(AllCounted(a, frames)) + StillRunning(AllCounted(b, frames))
  {
    DueInOrder(a, b, frames);
    CountedInOrder(a, b, frames);
    RunningInOrder(AllCounted(a, frames), AllCounted(b, frames));
  }

  lemma OneRelease(r: Release, frames: nat)
    ensures Due([r], frames) == if r.framesRemaining <= frames then [r.target] else []
    ensures StillRunning(AllCounted([r], frames))
            == if r.framesRemaining > frames then [Release(r.target, r.framesRemaining - frames)] else []
  {
    assert [r][..0] == [];
    StillRunningOfLast([], CountedDown(r, frames));
  }

  // ---------------------------------------------------------------- runs

  /** A release that fired, and how many frames had been stepped when it did. */
  datatype Expiry = Expiry(target: Target, at: nat)

  /** The lines, the frames stepped so far, and every release fired so far. */
  datatype Run = Run(lines: Lines, clock: nat, log: seq<Expiry>)

  datatype Event = Request(system: System, command: Command) | Tick(frames: nat)

  function Logged(targets: seq<Target>, at: nat): seq<Expiry> {
    if targets == [] then [] else Logged(targets[..|targets| - 1], at) + [Expiry(targets[|targets| - 1], at)]
  }

  function Next(r: Run, e: Event): Run {
    match e
    case Request(system, command) =>
      if Accepts(system, command.target) then r.(lines := Obeyed(r.lines, command)) else r
    case Tick(frames) =>
      Run(Advanced(r.lines, frames), r.clock + frames,
          r.log + Logged(Due(r.lines.releases, frames), r.clock + frames))
  }

  function After(r: Run, es: seq<Event>): Run {
    if es == [] then r else Next(After(r, es[..|es| - 1]), es[|es| - 1])
  }

  /** Every tick steps at least one frame and no more than the limit. */
  predicate Timely(r: Run, e: Event) {
    e.Tick? ==> e.frames >= 1 && WithinLimit(r.lines.releases, e.frames)
  }

  predicate AllTimely(r: Run, es: seq<Event>) {
    es == [] || (AllTimely(r, es[..|es| - 1]) && Timely(After(r, es[..|es| - 1]), es[|es| - 1]))
  }

  lemma StepKeepsSingle(r: Run, e: Event)
    requires Single(r.lines.releases)
    ensures Single(Next(r, e).lines.releases)
  {
    var rs := r.lines.releases;
    forall t ensures |Slots(Next(r, e).lines.releases, t)| <= 1 {
      assert |Slots(rs, t)| <= 1;
      match e
      case Tick(frames) =>
        SlotsCounted(rs, frames, t);
        if Slots(rs, t) != [] {
          assert Slots(rs, t) == [Slots(rs, t)[0]];
          OneSlot(Slots(rs, t)[0], frames, 0);
        }
      case Request(_, command) =>
        SlotsWithout(rs, command.target, t);
        if command.Tap? {
          SlotsOfLast(Without(rs, command.target), Release(command.target, command.frames), t);
        }
    }
  }

  /** At most one release is ever pending per player and input, in every run from an empty pad, timely or not. */
  lemma {:induction false} AtMostOnePending(es: seq<Event>)
    ensures Single(After(Run(Lines({}, []), 0, []), es).lines.releases)
  {
    if es != [] {
      AtMostOnePending(es[..|es| - 1]);
      StepKeepsSingle(After(Run(Lines({}, []), 0, []), es[..|es| - 1]), es[|es| - 1]);
    }
  }

  /** When a line's releases fired. */
  function Times(log: seq<Expiry>, target: Target): seq<nat> {
    if log == [] then []
    else
      var times := Times(log[..|log| - 1], target);
      var e := log[|log| - 1];
      if e.target == target then times + [e.at] else times
  }

  lemma {:induction false} TimesJoin(a: seq<Expiry>, b: seq<Expiry>, target: Target)
    ensures Times(a + b, target) == Times(a, target) + Times(b, target)
  {
    if b == [] {
      assert a + b == a;
    } else {
      TimesJoin(a, b[..|b| - 1], target);
      assert (a + b)[..|a + b| - 1] == a + b[..|b| - 1];
    }
  }

  /** The firing times one tick adds to a line. */
  function SlotTimes(slots: seq<nat>, frames: nat, at: nat): seq<nat> {
    if slots == [] then []
    else
      var times := SlotTimes(slots[..|slots| - 1], frames, at);
      if slots[|slots| - 1] <= frames then times + [at] else times
  }

  lemma SlotTimesOfLast(slots: seq<nat>, n: nat, frames: nat, at: nat)
    ensures SlotTimes(slots + [n], frames, at)
         == var times := SlotTimes(slots, frames, at); if n <= frames then times + [at] else times
  {
    assert (slots + [n])[..|slots|] == slots;
  }

  lemma TimesOfLast(targets: seq<Target>, t: Target, at: nat, target: Target)
    ensures Times(Logged(targets + [t], at), target)
         == var times := Times(Logged(targets, at), target); if t == target then times + [at] else times
  {
    assert (targets + [t])[..|targets|] == targets;
    var front := Logged(targets, at);
    assert (front + [Expiry(t, at)])[..|front|] == front;
  }

  lemma {:induction false} TimesOfDue(releases: seq<Release>, frames: nat, at: nat, target: Target)
    ensures Times(Logged(Due(releases, frames), at), target) == SlotTimes(Slots(releases, target), frames, at)
    ensures target in Due(releases, frames) <==> SlotTimes(Slots(releases, target), frames, at) != []
  {
    if releases != [] {
      var front := releases[..|releases| - 1];
      var r := releases[|releases| - 1];
      TimesOfDue(front, frames, at, target);
      if r.framesRemaining <= frames {
        TimesOfLast(Due(front, frames), r.target, at, target);
      }
      SlotTimesOfLast(Slots(front, target), r.framesRemaining, frames, at);
    }
  }

  // ---------------------------------------------------------------- requests

  /** A count that is missing is four, one below 1 or above 60 the nearest of the two, and any other itself. */
  lemma ParsedIs(requested: Option<nat>)
    ensures match requested
            case None => ParsedFrames(requested) == 4
            case Some(n) => ParsedFrames(requested) == if n == 0 then 1 else if n > 60 then 60 else n
  {
  }

  /** Two players have buttons everywhere and keypads on the ColecoVision; the others have buttons on the PC Engine. */
  lemma LinesOf(system: System, player: nat, key: nat)
    ensures Accepts(system, Target(player, Button(key))) <==> player <= 2 || system == PcEngine
    ensures Accepts(system, Target(player, Keypad(key))) <==> player <= 2 && system == ColecoVision
  {
  }

  /** What an accepted request does to its own line and to every other; a missing line changes nothing. */
  lemma RequestMeans(r: Run, system: System, command: Command, target: Target)
    ensures var n := Next(r, Request(system, command));
            var slots, after := Slots(r.lines.releases, target), Slots(n.lines.releases, target);
            && n.clock == r.clock && n.log == r.log
            && if !Accepts(system, command.target) || command.target != target then
                 after == slots && (target in n.lines.held <==> target in r.lines.held)
               else match command
                 case Tap(_, frames) => after == [frames] && target in n.lines.held
                 case SetTo(_, true) => after == slots && target in n.lines.held
                 case SetTo(_, false) => after == [] && target !in n.lines.held
  {
    SlotsWithout(r.lines.releases, command.target, target);
    if command.Tap? {
      SlotsOfLast(Without(r.lines.releases, command.target), Release(command.target, command.frames), target);
    }
  }

  // ---------------------------------------------------------------- a tap is exact

  /** No accepted request lets go of the line or taps it again; if `alone`, none touches it at all. */
  predicate LeavesAlone(e: Event, target: Target, alone: bool) {
    e.Request? && Accepts(e.system, e.command.target) && e.command.target == target ==>
      !alone && e.command.SetTo? && e.command.pressed
  }

  predicate AllLeaveAlone(es: seq<Event>, target: Target, alone: bool) {
    forall i :: 0 <= i < |es| ==> LeavesAlone(es[i], target, alone)
  }

  /**
   A tap due at frame `due`, its line having fired at `earlier` before: until then the line is held with one
   release counting down to exactly that frame; from then on the release is gone, having fired once, on that frame.
   */
  predicate OnSchedule(r: Run, target: Target, due: nat, earlier: seq<nat>, alone: bool) {
    LineOnSchedule(r.clock, target in r.lines.held, Slots(r.lines.releases, target), Times(r.log, target),
                   due, earlier, alone)
  }

  predicate LineOnSchedule(clock: nat, held: bool, slots: seq<nat>, times: seq<nat>,
                           due: nat, earlier: seq<nat>, alone: bool)
  {
    if clock < due then held && slots == [due - clock] && times == earlier
    else !(alone && held) && slots == [] && times == earlier + [due]
  }

  lemma TapStarts(r: Run, system: System, target: Target, frames: nat, alone: bool)
    requires Accepts(system, target) && frames >= 1
    ensures OnSchedule(Next(r, Request(system, Tap(target, frames))), target, r.clock + frames, Times(r.log, target),
            alone)
  {
    RequestMeans(r, system, Tap(target, frames), target);
  }

  lemma OneSlot(n: nat, frames: nat, at: nat)
    ensures SlotsLeft([n], frames) == if n > frames then [n - frames] else []
    ensures SlotTimes([n], frames, at) == if n > frames then [] else [at]
  {
    assert [n][..0] == [];
  }

  /** What a tick does to one line. */
  lemma TickOnLine(r: Run, frames: nat, target: Target)
    ensures var n := Next(r, Tick(frames));
            var fired := SlotTimes(Slots(r.lines.releases, target), frames, r.clock + frames);
            && n.clock == r.clock + frames
            && Slots(n.lines.releases, target) == SlotsLeft(Slots(r.lines.releases, target), frames)
            && Times(n.log, target) == Times(r.log, target) + fired
            && (target in n.lines.held <==> target in r.lines.held && fired == [])
  {
    var rs := r.lines.releases;
    SlotsCounted(rs, frames, target);
    TickTimes(r.log, rs, frames, r.clock + frames, target);
    TimesOfDue(rs, frames, r.clock + frames, target);
  }

  lemma TickTimes(log: seq<Expiry>, releases: seq<Release>, frames: nat, at: nat, target: Target)
    ensures Times(log + Logged(Due(releases, frames), at), target)
         == Times(log, target) + SlotTimes(Slots(releases, target), frames, at)
  {
    TimesOfDue(releases, frames, at, target);
    TimesJoin(log, Logged(Due(releases, frames), at), target);
  }

  lemma TickOnLineSchedule(clock: nat, held: bool, slots: seq<nat>, times: seq<nat>,
                           due: nat, earlier: seq<nat>, alone: bool, frames: nat)
    requires LineOnSchedule(clock, held, slots, times, due, earlier, alone)
    requires AtLeast(slots, frames)
    ensures var fired := SlotTimes(slots, frames, clock + frames);
            LineOnSchedule(clock + frames, held && fired == [], SlotsLeft(slots, frames), times + fired,
                           due, earlier, alone)
  {
    if clock < due {
      assert frames <= slots[0];
      OneSlot(due - clock, frames, clock + frames);
    }
  }

  lemma TickOnSchedule(r: Run, frames: nat, target: Target, due: nat, earlier: seq<nat>, alone: bool)
    requires OnSchedule(r, target, due, earlier, alone) && Timely(r, Tick(frames))
    ensures OnSchedule(Next(r, Tick(frames)), target, due, earlier, alone)
  {
    var slots, times := Slots(r.lines.releases, target), Times(r.log, target);
    TickOnLine(r, frames, target);
    SlotsWithinLimit(r.lines.releases, frames, target);
    TickOnLineSchedule(r.clock, target in r.lines.held, slots, times, due, earlier, alone, frames);
  }

  /** A request that leaves the line alone changes nothing on it but may press it. */
  lemma RequestOnLine(r: Run, e: Event, target: Target, alone: bool)
    requires e.Request? && LeavesAlone(e, target, alone)
    ensures var n := Next(r, e);
            && n.clock == r.clock && n.log == r.log
            && Slots(n.lines.releases, target) == Slots(r.lines.releases, target)
            && (target in r.lines.held ==> target in n.lines.held)
            && (alone && target in n.lines.held ==> target in r.lines.held)
  {
    var command := e.command;
    if command.target != target {
      SlotsWithout(r.lines.releases, command.target, target);
      if command.Tap? {
        SlotsOfLast(Without(r.lines.releases, command.target), Release(command.target, command.frames), target);
      }
    }
  }

  lemma RequestOnSchedule(r: Run, e: Event, target: Target, due: nat, earlier: seq<nat>, alone: bool)
    requires OnSchedule(r, target, due, earlier, alone) && e.Request? && LeavesAlone(e, target, alone)
    ensures OnSchedule(Next(r, e), target, due, earlier, alone)
  {
    RequestOnLine(r, e, target, alone);
  }

  lemma {:induction false} StaysOnSchedule(r: Run, es: seq<Event>, target: Target, due: nat, earlier: seq<nat>,
                                           alone: bool)
    requires OnSchedule(r, target, due, earlier, alone) && AllTimely(r, es) && AllLeaveAlone(es, target, alone)
    ensures OnSchedule(After(r, es), target, due, earlier, alone)
  {
    if es != [] {
      var before := es[..|es| - 1];
      var e := es[|es| - 1];
      StaysOnSchedule(r, before, target, due, earlier, alone);
      assert LeavesAlone(e, target, alone);
      if e.Tick? {
        TickOnSchedule(After(r, before), e.frames, target, due, earlier, alone);
      } else {
        RequestOnSchedule(After(r, before), e, target, due, earlier, alone);
      }
    }
  }

  /**
   A tap of n frames lasts exactly n: whatever was pending before and whatever happens on other lines, its
   release fires once, when exactly n more frames have been stepped, and the line is held until then.
   Pressing the tapped line again does not change that.
   */
  lemma TapIsExact(r: Run, system: System, target: Target, frames: nat, tapped: Run, es: seq<Event>, alone: bool)
    requires Accepts(system, target) && frames >= 1
    requires tapped == Next(r, Request(system, Tap(target, frames)))
    requires AllTimely(tapped, es) && AllLeaveAlone(es, target, alone)
    ensures OnSchedule(After(tapped, es), target, r.clock + frames, Times(r.log, target), alone)
  {
    TapStarts(r, system, target, frames, alone);
    StaysOnSchedule(tapped, es, target, r.clock + frames, Times(r.log, target), alone);
  }

  // ---------------------------------------------------------------- the limit never stalls the emulator

  predicate AllRunning(releases: seq<Release>) {
    forall i :: 0 <= i < |releases| ==> releases[i].framesRemaining >= 1
  }

  ghost predicate ParsedRequest(e: Event) {
    e.Request? && e.command.Tap? ==> exists asked :: e.command.frames == ParsedFrames(asked)
  }

  lemma {:induction false} WithoutKeepsRunning(releases: seq<Release>, target: Target)
    requires AllRunning(releases)
    ensures AllRunning(Without(releases, target))
  {
    if releases != [] {
      WithoutKeepsRunning(releases[..|releases| - 1], target);
    }
  }

  lemma {:induction false} StillRunningRun(releases: seq<Release>)
    ensures AllRunning(StillRunning(releases))
  {
    if releases != [] {
      StillRunningRun(releases[..|releases| - 1]);
    }
  }

  /**
   In every run of parsed requests a tick may always step at least one frame: a parsed tap is never for zero
   frames, and a release that has run out never stays in the list.
   */
  lemma {:induction false} NeverStalls(es: seq<Event>)
    requires forall i :: 0 <= i < |es| ==> ParsedRequest(es[i])
    ensures AllRunning(After(Run(Lines({}, []), 0, []), es).lines.releases)
    ensures WithinLimit(After(Run(Lines({}, []), 0, []), es).lines.releases, 1)
  {
    if es != [] {
      var r := After(Run(Lines({}, []), 0, []), es[..|es| - 1]);
      NeverStalls(es[..|es| - 1]);
      match es[|es| - 1]
      case Tick(frames) => StillRunningRun(AllCounted(r.lines.releases, frames));
      case Request(_, command) =>
        assert ParsedRequest(es[|es| - 1]);
        WithoutKeepsRunning(r.lines.releases, command.target);
    }
  }

  /** A release with no frames left is pending for the line. */
  predicate Stuck(releases: seq<Release>, target: Target) {
    exists i :: 0 <= i < |releases| && releases[i] == Release(target, 0)
  }

  lemma {:induction false} WithoutKeepsStuck(releases: seq<Release>, gone: Target, target: Target)
    requires Stuck(releases, target) && gone != target
    ensures Stuck(Without(releases, gone), target)
  {
    var n := |releases| - 1;
    var front := releases[..n];
    var kept := Without(front, gone);
    if releases[n] == Release(target, 0) {
      assert Without(releases, gone)[|kept|] == releases[n];
    } else {
      var i :| 0 <= i < |releases| && releases[i] == Release(target, 0);
      assert front[i] == Release(target, 0);
      WithoutKeepsStuck(front, gone, target);
      var j :| 0 <= j < |kept| && kept[j] == Release(target, 0);
      assert Without(releases, gone)[j] == Release(target, 0);
    }
  }

  lemma StuckStep(r: Run, e: Event, target: Target)
    requires Stuck(r.lines.releases, target) && Timely(r, e) && LeavesAlone(e, target, false)
    ensures Stuck(Next(r, e).lines.releases, target)
  {
    var i :| 0 <= i < |r.lines.releases| && r.lines.releases[i] == Release(target, 0);
    assert e.Request?;
    if Accepts(e.system, e.command.target) && e.command.target != target {
      WithoutKeepsStuck(r.lines.releases, e.command.target, target);
      if e.command.Tap? {
        var kept := Without(r.lines.releases, e.command.target);
        var j :| 0 <= j < |kept| && kept[j] == Release(target, 0);
        assert (kept + [Release(e.command.target, e.command.frames)])[j] == Release(target, 0);
      }
    }
  }

  lemma {:induction false} StaysStuck(r: Run, es: seq<Event>, target: Target)
    requires Stuck(r.lines.releases, target) && AllTimely(r, es) && AllLeaveAlone(es, target, false)
    ensures Stuck(After(r, es).lines.releases, target)
  {
    if es != [] {
      StaysStuck(r, es[..|es| - 1], target);
      assert LeavesAlone(es[|es| - 1], target, false);
      StuckStep(After(r, es[..|es| - 1]), es[|es| - 1], target);
    }
  }

  /**
   A tap of zero frames, which only the parser rules out, would hold up every later tick until its line is
   let go or tapped again: the limit stays at zero frames whatever happens on other lines.
   */
  lemma ZeroTapStalls(r: Run, system: System, target: Target, stuck: Run, es: seq<Event>, frames: nat)
    requires Accepts(system, target) && stuck == Next(r, Request(system, Tap(target, 0)))
    requires AllTimely(stuck, es) && AllLeaveAlone(es, target, false)
    ensures WithinLimit(After(stuck, es).lines.releases, frames) <==> frames == 0
  {
    var rs := stuck.lines.releases;
    assert rs[|rs| - 1] == Release(target, 0);
    StaysStuck(stuck, es, target);
  }
}
