/**
  What the boost manager brings about: the size asked for follows from the hints, and enough ticks of both timers bring
  the number of connections to it.
 */
module BoostProgress {
  import opened Boost

  // ---------- What is asked for ----------

  /** The hints to boost since boosting last ended. */
  function HintsInARow(events: seq<Event>): nat {
    if events == [] then 0
    else
      var n := HintsInARow(events[..|events| - 1]);
      match events[|events| - 1]
      case Hint(enable) => if enable then n + 1 else 0
      case BoostEnds => 0
      case _ => n
  }

  function Min(a: int, b: int): int {
    if a < b then a else b
  }

  /** An eighth of the limit and one connection more for every hint, up to the limit; none without a hint. */
  function Wanted(s: Setup, events: seq<Event>): int {
    var n := HintsInARow(events);
    if n == 0 then 0 else Min(s.max, s.max / 8 + n)
  }

  /** The size that was requested last; the manager starts from none. */
  function LastOf(sizes: seq<nat>): nat {
    if sizes == [] then 0 else sizes[|sizes| - 1]
  }

  ghost predicate WorkerFollows(s: Setup, x: Scaler, events: seq<Event>) {
    && (x.boosting <==> HintsInARow(events) > 0) && LastOf(x.requested) == Wanted(s, events)
    && (x.boosting ==> x.current == Wanted(s, events))
  }

  /** The sizes on their way are the newest ones; the manager goes by the one before them. */
  ghost predicate SizesInOrder(x: Scaler) {
    |x.pending| <= |x.requested| && var taken := |x.requested| - |x.pending|;
    x.pending == x.requested[taken..] && x.expected == LastOf(x.requested[..taken])
  }

  lemma RequestsInOrder(x: Scaler, size: nat, boosting: bool, current: nat)
    requires SizesInOrder(x)
    ensures SizesInOrder(Request(x.(boosting := boosting, current := current), size))
  {
    var taken := |x.requested| - |x.pending|;
    assert (x.requested + [size])[..taken] == x.requested[..taken];
  }

  lemma {:induction false} HintInOrder(s: Setup, x: Scaler, enable: bool)
    requires SizesInOrder(x)
    ensures SizesInOrder(OnHint(s, x, enable))
  {
    hide SizesInOrder;
    if !enable {
      RequestsInOrder(x, 0, false, x.current);
    } else {
      var y := x;
      if !x.boosting {
        y := Request(x.(boosting := true, current := s.max / 8), s.max / 8);
        RequestsInOrder(x, s.max / 8, true, s.max / 8);
      }
      if s.max > y.current {
        RequestsInOrder(y, y.current + 1, y.boosting, y.current + 1);
      }
    }
  }

  lemma ArrivalInOrder(x: Scaler)
    requires SizesInOrder(x) && x.pending != []
    ensures SizesInOrder(x.(expected := x.pending[0], pending := x.pending[1..]))
  {
    var taken := |x.requested| - |x.pending|;
    assert x.requested[..taken + 1] == x.requested[..taken] + [x.pending[0]];
    assert x.pending[1..] == x.requested[taken + 1..];
  }

  lemma {:induction false} StepInOrder(s: Setup, x: Scaler, e: Event)
    requires SizesInOrder(x)
    ensures SizesInOrder(Step(s, x, e))
  {
    hide OnHint;
    match e
    case Hint(enable) => HintInOrder(s, x, enable);
    case BoostEnds => RequestsInOrder(x, 0, false, x.current);
    case SizeArrives => if x.pending != [] { ArrivalInOrder(x); }
    case DownscaleTick =>
    case UpscaleTick =>
  }

  lemma {:induction false} HintFollows(s: Setup, x: Scaler, events: seq<Event>, e: Event)
    requires WorkerFollows(s, x, events)
    ensures WorkerFollows(s, Step(s, x, e), events + [e])
  {
    assert (events + [e])[..|events|] == events;
    if !e.Hint? && !e.BoostEnds? {
      ManagerLeavesTheWorker(s, x, e);
    }
  }

  /** The worker requests what the hints ask for, and 0 when boosting ends; the manager takes the sizes in order. */
  lemma {:induction false} RequestsFollowHints(s: Setup, events: seq<Event>)
    ensures WorkerFollows(s, Run(s, NEW, events), events) && SizesInOrder(Run(s, NEW, events))
  {
    if events != [] {
      hide WorkerFollows, SizesInOrder, Step;
      var n := |events| - 1;
      assert events == events[..n] + [events[n]];
      RequestsFollowHints(s, events[..n]);
      StepInOrder(s, Run(s, NEW, events[..n]), events[n]);
      HintFollows(s, Run(s, NEW, events[..n]), events[..n], events[n]);
    }
  }

  // ---------- Ticks ----------

  /** How many of `n` downscale ticks are spared. */
  function Grace(s: Setup, x: Scaler, n: nat): int {
    if s.isTx || |x.queue| <= x.expected || x.grace < 0 then 0 else Min(n, x.grace)
  }

  /** How many of them cancel a connection: those after the grace, as long as there are too many. */
  function Dropped(s: Setup, x: Scaler, n: nat): int {
    if |x.queue| <= x.expected then 0 else Min(n - Grace(s, x, n), |x.queue| - x.expected)
  }

  /** What `n` downscale ticks make of `x`. */
  ghost predicate Lowered(s: Setup, x: Scaler, y: Scaler, n: nat) {
    && 0 <= Dropped(s, x, n) <= |x.queue| && y.queue == x.queue[Dropped(s, x, n)..]
    && y.grace == x.grace - Grace(s, x, n)
    && (y.expected, y.pending, y.dialed, y.stuck) == (x.expected, x.pending, x.dialed, x.stuck)
  }

  lemma LowerOnce(s: Setup, x: Scaler, y: Scaler, n: nat)
    requires Lowered(s, x, y, n) && !x.stuck
    ensures Lowered(s, x, OnDownscale(s, y), n + 1)
  {
    if |y.queue| > y.expected && (y.grace <= 0 || s.isTx) {
      assert y.queue[1..] == x.queue[Dropped(s, x, n) + 1..];
    }
  }

  /** Downscale ticks cancel the oldest connections, one each once the grace is used up, down to the expected size. */
  lemma {:induction false} DownscaleTicks(s: Setup, x: Scaler, n: nat)
    requires !x.stuck
    ensures Lowered(s, x, Run(s, x, Times(DownscaleTick, n)), n)
  {
    hide OnDownscale, Lowered;
    if n == 0 {
      NotLowered(s, x);
    } else {
      RunTimes(s, x, DownscaleTick, n);
      DownscaleTicks(s, x, n - 1);
      var y := Run(s, x, Times(DownscaleTick, n - 1));
      LowerOnce(s, x, y, n - 1);
      LoweredIsFree(s, x, y, n - 1);
    }
  }

  lemma NotLowered(s: Setup, x: Scaler)
    ensures Lowered(s, x, x, 0)
  {
    assert x.queue[0..] == x.queue;
  }

  lemma LoweredIsFree(s: Setup, x: Scaler, y: Scaler, n: nat)
    requires Lowered(s, x, y, n)
    ensures y.stuck == x.stuck
  {
  }

  function Numbers(first: nat, n: nat): (r: seq<nat>)
    ensures |r| == n && forall i :: 0 <= i < n ==> r[i] == first + i
  {
    seq(n, i => first + i)
  }

  /** How many of `n` upscale ticks open a connection. */
  function Added(x: Scaler, n: nat): nat {
    if x.expected <= |x.queue| then 0 else Min(n, x.expected - |x.queue|)
  }

  /** What `n` upscale ticks make of `x`. */
  ghost predicate Raised(x: Scaler, y: Scaler, n: nat) {
    && y.queue == x.queue + Numbers(x.dialed, Added(x, n)) && y.dialed == x.dialed + Added(x, n)
    && (y.expected, y.pending, y.stuck) == (x.expected, x.pending, x.stuck)
  }

  lemma RaiseOnce(s: Setup, x: Scaler, y: Scaler, n: nat)
    requires Raised(x, y, n) && !x.stuck && x.expected <= s.capacity
    ensures Raised(x, OnUpscale(s, y), n + 1)
  {
    if y.expected > |y.queue| {
      assert Numbers(x.dialed, Added(x, n + 1)) == Numbers(x.dialed, Added(x, n)) + [y.dialed];
    }
  }

  /** Upscale ticks open new connections, one each, up to the expected size. */
  lemma {:induction false} UpscaleTicks(s: Setup, x: Scaler, n: nat)
    requires !x.stuck && x.expected <= s.capacity
    ensures Raised(x, Run(s, x, Times(UpscaleTick, n)), n)
  {
    if n > 0 {
      hide OnUpscale, Raised;
      RunTimes(s, x, UpscaleTick, n);
      UpscaleTicks(s, x, n - 1);
      var y := Run(s, x, Times(UpscaleTick, n - 1));
      RaiseOnce(s, x, y, n - 1);
      RaisedIsFree(x, y, n - 1);
    }
  }

  lemma RaisedIsFree(x: Scaler, y: Scaler, n: nat)
    requires Raised(x, y, n)
    ensures y.stuck == x.stuck
  {
  }

  // ---------- Settling ----------

  /** A manager that does not wait takes all the sizes that are on their way. */
  lemma {:induction false} ArrivalsCatchUp(s: Setup, x: Scaler, n: nat)
    requires !x.stuck && n <= |x.pending|
    ensures var y := Run(s, x, Times(SizeArrives, n));
            && y.pending == x.pending[n..] && y.expected == (if n == 0 then x.expected else x.pending[n - 1])
            && (y.queue, y.grace, y.stuck, y.dialed, y.requested) == (x.queue, x.grace, x.stuck, x.dialed, x.requested)
  {
    if n > 0 {
      RunTimes(s, x, SizeArrives, n);
      ArrivalsCatchUp(s, x, n - 1);
      hide Run;
    }
  }

  lemma {:induction false} TakesTheNewest(s: Setup, x: Scaler)
    requires !x.stuck && SizesInOrder(x)
    ensures var y := Run(s, x, Times(SizeArrives, |x.pending|));
            y.expected == LastOf(x.requested) && y.queue == x.queue && y.grace == x.grace && !y.stuck
  {
    ArrivalsCatchUp(s, x, |x.pending|);
    hide Run, Times;
    if x.pending == [] {
      assert x.requested[..|x.requested|] == x.requested;
    }
  }

  /**
    From every reachable state in which the manager does not wait, as many downscale ticks as there are connections, and
    four more for a receiving manager, leave no more connections than expected and cancel none of those.
   */
  lemma {:induction false} DownscalingSettles(s: Setup, events: seq<Event>, n: nat)
    requires !Run(s, NEW, events).stuck
    requires n >= |Run(s, NEW, events).queue| + if s.isTx then 0 else GRACE_CHARGES
    ensures var x, y := Run(s, NEW, events), Run(s, NEW, events + Times(DownscaleTick, n));
            |y.queue| == Min(|x.queue|, x.expected) && y.expected == x.expected && !y.stuck
  {
    hide Run, Times;
    var x := Run(s, NEW, events);
    GraceIsShort(s, events);
    RunOfConcat(s, NEW, events, Times(DownscaleTick, n));
    DownscaleTicks(s, x, n);
  }

  lemma GraceIsShort(s: Setup, events: seq<Event>)
    ensures var x := Run(s, NEW, events); 0 <= x.grace && (!x.stuck ==> x.grace <= GRACE_CHARGES)
  {
    RunKeeps(s, events);
  }

  /** Enough upscale ticks open connections up to the expected size, if the ring has room for that. */
  lemma {:induction false} UpscalingSettles(s: Setup, events: seq<Event>, n: nat)
    requires !Run(s, NEW, events).stuck && Run(s, NEW, events).expected <= s.capacity
    requires n >= Run(s, NEW, events).expected
    ensures var x, y := Run(s, NEW, events), Run(s, NEW, events + Times(UpscaleTick, n));
            |y.queue| == (if x.expected < |x.queue| then |x.queue| else x.expected) && !y.stuck
  {
    hide Run, Times;
    RunOfConcat(s, NEW, events, Times(UpscaleTick, n));
    UpscaleTicks(s, Run(s, NEW, events), n);
  }

  /** The sizes on their way arrive, and both timers tick often enough. */
  function Settle(s: Setup, events: seq<Event>, down: nat, up: nat): seq<Event> {
    events + Times(SizeArrives, |Run(s, NEW, events).pending|) + Times(DownscaleTick, down) + Times(UpscaleTick, up)
  }

  /**
    Whatever happened before, once the requested sizes have arrived and the timers have ticked often enough, there are
    exactly as many connections as the hints asked for: none if boosting has ended.
   */
  lemma {:induction false} ConnectionsSettleAtTheWantedSize(s: Setup, events: seq<Event>, down: nat, up: nat)
    requires !Run(s, NEW, events).stuck && Wanted(s, events) <= s.capacity
    requires down >= |Run(s, NEW, events).queue| + (if s.isTx then 0 else GRACE_CHARGES) && up >= Wanted(s, events)
    ensures |Run(s, NEW, Settle(s, events, down, up)).queue| == Wanted(s, events)
  {
    var x := Run(s, NEW, events);
    RequestsFollowHints(s, events);
    GraceIsShort(s, events);
    hide Run, Times, Wanted, SizesInOrder;
    var a, b := Times(SizeArrives, |x.pending|), Times(DownscaleTick, down);
    RunOfConcat(s, NEW, events, a);
    RunOfConcat(s, NEW, events + a, b);
    RunOfConcat(s, NEW, events + a + b, Times(UpscaleTick, up));
    TakesTheNewest(s, x);
    var y := Run(s, x, a);
    DownscaleTicks(s, y, down);
    UpscaleTicks(s, Run(s, y, b), up);
  }

  /** When boosting has ended, by hint or by its timer, every boost connection is cancelled in the end. */
  lemma {:induction false} EndedBoostLeavesNothing(s: Setup, events: seq<Event>, e: Event, down: nat)
    requires e == Hint(false) || e == BoostEnds
    requires var x := Run(s, NEW, events + [e]);
             !x.stuck && down >= |x.queue| + if s.isTx then 0 else GRACE_CHARGES
    ensures Run(s, NEW, Settle(s, events + [e], down, 0)).queue == []
  {
    assert (events + [e])[..|events|] == events;
    hide Run;
    ConnectionsSettleAtTheWantedSize(s, events + [e], down, 0);
  }
}
