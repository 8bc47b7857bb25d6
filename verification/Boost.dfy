/**
  Boost connections of the HTTP client in one direction: a worker that turns hints into requested sizes, and a
  manager that opens and cancels connections one tick at a time until it has as many as requested.
 */
module Boost {
  import RingBuffer

  const GRACE_CHARGES := 4

  /** What a manager did at a tick. */
  datatype Mark = Opened | Spared | Cancelled(connection: nat)

  /**
    `pending` is the channel of sizes between worker and manager, `queue` the ring buffer of connections to cancel.
    `requested` and `marks` are history. `stuck` says that the manager waits in Put on a full ring, for which a ring
    without nodes panics instead, or in Get on an empty one.
   */
  datatype Scaler = Scaler(
    boosting: bool, current: nat, pending: seq<nat>,
    expected: nat, queue: seq<nat>, grace: int, stuck: bool,
    dialed: nat, requested: seq<nat>, marks: seq<Mark>)

  const NEW := Scaler(false, 0, [], 0, [], GRACE_CHARGES, false, 0, [], [])

  /** `max` connections at most in this direction; the ring has room for `capacity`. */
  datatype Setup = Setup(max: nat, capacity: nat, isTx: bool)

  datatype Event = Hint(enable: bool) | BoostEnds | SizeArrives | DownscaleTick | UpscaleTick

  // ---------- Worker ----------

  function Request(x: Scaler, size: nat): Scaler {
    x.(pending := x.pending + [size], requested := x.requested + [size])
  }

  function OnHint(s: Setup, x: Scaler, enable: bool): Scaler {
    if !enable then Request(x.(boosting := false), 0)
    else
      var y := if x.boosting then x else Request(x.(boosting := true, current := s.max / 8), s.max / 8);
      if s.max > y.current then Request(y.(current := y.current + 1), y.current + 1) else y
  }

  // ---------- Manager ----------

  function OnDownscale(s: Setup, x: Scaler): Scaler {
    if |x.queue| <= x.expected then x
    else if x.grace <= 0 || s.isTx then
      if x.queue == [] then x.(stuck := true)
      else x.(queue := x.queue[1..], marks := x.marks + [Cancelled(x.queue[0])])
    else x.(grace := x.grace - 1, marks := x.marks + [Spared])
  }

  function OnUpscale(s: Setup, x: Scaler): Scaler {
    if x.expected <= |x.queue| then x
    else if |x.queue| >= s.capacity then x.(grace := GRACE_CHARGES, stuck := true)
    else x.(grace := GRACE_CHARGES, queue := x.queue + [x.dialed], dialed := x.dialed + 1, marks := x.marks + [Opened])
  }

  function Step(s: Setup, x: Scaler, e: Event): Scaler {
    match e
    case Hint(enable) => OnHint(s, x, enable)
    case BoostEnds => Request(x.(boosting := false), 0)
    case SizeArrives =>
      if x.stuck || x.pending == [] then x else x.(expected := x.pending[0], pending := x.pending[1..])
    case DownscaleTick => if x.stuck then x else OnDownscale(s, x)
    case UpscaleTick => if x.stuck then x else OnUpscale(s, x)
  }

  function Run(s: Setup, x: Scaler, events: seq<Event>): Scaler {
    if events == [] then x else Step(s, Run(s, x, events[..|events| - 1]), events[|events| - 1])
  }

  // ---------- What every event keeps ----------

  function Largest(sizes: seq<nat>): (m: nat)
    ensures forall i :: 0 <= i < |sizes| ==> sizes[i] <= m
    ensures m == 0 || m in sizes
  {
    if sizes == [] then 0
    else
      var m := Largest(sizes[..|sizes| - 1]);
      if sizes[|sizes| - 1] > m then sizes[|sizes| - 1] else m
  }

  /** How many cancellations were spared since the last connection was opened. */
  function SparedSinceOpened(marks: seq<Mark>): nat {
    if marks == [] then 0
    else
      var n := |marks| - 1;
      match marks[n]
      case Opened => 0
      case Spared => SparedSinceOpened(marks[..n]) + 1
      case Cancelled(_) => SparedSinceOpened(marks[..n])
  }

  /** Connections are cancelled in the order in which they were opened. */
  function Cancels(marks: seq<Mark>): seq<nat> {
    if marks == [] then []
    else
      var n := |marks| - 1;
      Cancels(marks[..n]) + if marks[n].Cancelled? then [marks[n].connection] else []
  }

  ghost predicate Upto(sizes: seq<nat>, m: nat) {
    forall i :: 0 <= i < |sizes| ==> sizes[i] <= m
  }

  ghost predicate WorkerInv(s: Setup, x: Scaler) {
    && x.current <= s.max && Upto(x.requested, s.max)
    && Upto(x.pending, Largest(x.requested))
  }

  ghost predicate ManagerInv(s: Setup, x: Scaler) {
    && x.expected <= Largest(x.requested) && |x.queue| <= Largest(x.requested)
    && |x.queue| <= s.capacity
    && 0 <= x.grace && (x.stuck ==> s.capacity < s.max)
    && (!x.stuck ==> x.grace + SparedSinceOpened(x.marks) == GRACE_CHARGES)
    && (!s.isTx ==> GraceOk(x.marks))
  }

  ghost predicate GraceOk(marks: seq<Mark>) {
    forall j :: 0 <= j < |marks| && marks[j].Cancelled? ==> SparedSinceOpened(marks[..j]) == GRACE_CHARGES
  }

  ghost predicate Inv(s: Setup, x: Scaler) {
    WorkerInv(s, x) && ManagerInv(s, x) && OrderInv(x)
  }

  /** Cancelled and open connections together are all connections ever opened, in order. */
  ghost predicate OrderInv(x: Scaler) {
    var done := Cancels(x.marks) + x.queue;
    |done| == x.dialed && forall i :: 0 <= i < |done| ==> done[i] == i
  }

  lemma LargestGrows(sizes: seq<nat>, size: nat)
    ensures Largest(sizes + [size]) == if size > Largest(sizes) then size else Largest(sizes)
  {
    assert (sizes + [size])[..|sizes|] == sizes;
  }

  lemma RequestKeeps(s: Setup, x: Scaler, size: nat)
    requires Inv(s, x) && size <= s.max
    ensures Inv(s, Request(x, size))
  {
    hide SparedSinceOpened, Cancels, GraceOk, Largest, OrderInv;
    LargestGrows(x.requested, size);
    assert OrderInv(Request(x, size)) by {
      OrderIgnoresRequests(x, size);
    }
  }

  lemma OrderIgnoresRequests(x: Scaler, size: nat)
    requires OrderInv(x)
    ensures OrderInv(Request(x, size))
  {
    hide Cancels;
  }

  lemma CurrentIsWithin(s: Setup, x: Scaler)
    requires Inv(s, x)
    ensures x.current <= s.max
  {
  }

  /** What the manager does not look at. */
  lemma WorkerMoves(s: Setup, x: Scaler, boosting: bool, current: nat)
    requires Inv(s, x) && current <= s.max
    ensures Inv(s, x.(boosting := boosting, current := current))
  {
    hide SparedSinceOpened, Cancels, Largest;
  }

  lemma {:induction false} HintKeeps(s: Setup, x: Scaler, enable: bool)
    requires Inv(s, x)
    ensures Inv(s, OnHint(s, x, enable))
  {
    hide Inv;
    CurrentIsWithin(s, x);
    if !enable {
      WorkerMoves(s, x, false, x.current);
      RequestKeeps(s, x.(boosting := false), 0);
    } else {
      var y := x;
      if !x.boosting {
        WorkerMoves(s, x, true, s.max / 8);
        RequestKeeps(s, x.(boosting := true, current := s.max / 8), s.max / 8);
        y := Request(x.(boosting := true, current := s.max / 8), s.max / 8);
      }
      if s.max > y.current {
        WorkerMoves(s, y, y.boosting, y.current + 1);
        RequestKeeps(s, y.(current := y.current + 1), y.current + 1);
      }
    }
  }

  lemma SizeArrivesKeeps(s: Setup, x: Scaler)
    requires Inv(s, x) && x.pending != []
    ensures Inv(s, x.(expected := x.pending[0], pending := x.pending[1..]))
  {
    hide SparedSinceOpened, Cancels, Largest;
  }

  lemma MarkAdded(marks: seq<Mark>, m: Mark)
    ensures SparedSinceOpened(marks + [m]) == (match m case Opened => 0 case Spared => SparedSinceOpened(marks) + 1
                                               case Cancelled(_) => SparedSinceOpened(marks))
    ensures Cancels(marks + [m]) == if m.Cancelled? then Cancels(marks) + [m.connection] else Cancels(marks)
  {
    assert (marks + [m])[..|marks|] == marks;
  }

  lemma GraceGrows(marks: seq<Mark>, m: Mark)
    requires GraceOk(marks) && (m.Cancelled? ==> SparedSinceOpened(marks) == GRACE_CHARGES)
    ensures GraceOk(marks + [m])
  {
    hide SparedSinceOpened;
    var ms := marks + [m];
    forall j | 0 <= j < |ms| && ms[j].Cancelled? ensures SparedSinceOpened(ms[..j]) == GRACE_CHARGES {
      assert ms[..j] == marks[..j];
      assert marks[..|marks|] == marks;
    }
  }

  lemma DownscaleKeeps(s: Setup, x: Scaler)
    requires Inv(s, x) && !x.stuck
    ensures Inv(s, OnDownscale(s, x))
  {
    hide SparedSinceOpened, Cancels, Largest, GraceOk;
    if |x.queue| > x.expected {
      var m := if x.grace <= 0 || s.isTx then Cancelled(x.queue[0]) else Spared;
      MarkAdded(x.marks, m);
      if !s.isTx {
        GraceGrows(x.marks, m);
      }
      if m.Cancelled? {
        assert Cancels(x.marks) + [x.queue[0]] + x.queue[1..] == Cancels(x.marks) + x.queue;
      }
    }
  }

  lemma UpscaleKeeps(s: Setup, x: Scaler)
    requires Inv(s, x) && !x.stuck
    ensures Inv(s, OnUpscale(s, x))
  {
    hide SparedSinceOpened, Cancels, GraceOk;
    assert Largest(x.requested) <= s.max;
    hide Largest;
    MarkAdded(x.marks, Opened);
    if !s.isTx {
      GraceGrows(x.marks, Opened);
    }
    assert Cancels(x.marks) + (x.queue + [x.dialed]) == Cancels(x.marks) + x.queue + [x.dialed];
  }

  lemma {:induction false} StepKeeps(s: Setup, x: Scaler, e: Event)
    requires Inv(s, x)
    ensures Inv(s, Step(s, x, e))
  {
    hide Inv, OnHint, OnDownscale, OnUpscale;
    CurrentIsWithin(s, x);
    match e
    case Hint(enable) => HintKeeps(s, x, enable);
    case BoostEnds =>
      WorkerMoves(s, x, false, x.current);
      RequestKeeps(s, x.(boosting := false), 0);
    case SizeArrives => if x.pending != [] { SizeArrivesKeeps(s, x); }
    case DownscaleTick => if !x.stuck { DownscaleKeeps(s, x); }
    case UpscaleTick => if !x.stuck { UpscaleKeeps(s, x); }
  }

  lemma {:induction false} RunKeeps(s: Setup, events: seq<Event>)
    ensures Inv(s, Run(s, NEW, events))
  {
    if events != [] {
      hide Inv, Step;
      RunKeeps(s, events[..|events| - 1]);
      StepKeeps(s, Run(s, NEW, events[..|events| - 1]), events[|events| - 1]);
    }
  }

  // ---------- Theorems ----------

  /** Requested sizes stay within the limit, and there are never more connections than the largest size requested. */
  lemma {:induction false} ConnectionsStayWithinRequests(s: Setup, events: seq<Event>)
    ensures var x := Run(s, NEW, events);
            && (forall i :: 0 <= i < |x.requested| ==> x.requested[i] <= s.max)
            && |x.queue| <= Largest(x.requested) <= s.max
  {
    RunKeeps(s, events);
  }

  /**
    Connections are cancelled oldest first: those cancelled and those still open are all that were ever opened, in
    order.
   */
  lemma {:induction false} OldestGoesFirst(s: Setup, events: seq<Event>, i: nat)
    requires i < Run(s, NEW, events).dialed
    ensures var x := Run(s, NEW, events);
            |Cancels(x.marks)| + |x.queue| == x.dialed && (Cancels(x.marks) + x.queue)[i] == i
  {
    RunKeeps(s, events);
  }

  /** No receiving connection is cancelled unless four cancellations were spared since a connection was last opened. */
  lemma GracePrecedesCancellation(s: Setup, events: seq<Event>, j: nat)
    requires !s.isTx && j < |Run(s, NEW, events).marks| && Run(s, NEW, events).marks[j].Cancelled?
    ensures SparedSinceOpened(Run(s, NEW, events).marks[..j]) == GRACE_CHARGES
  {
    RunKeeps(s, events);
  }

  ghost predicate NeverStuck(s: Setup) {
    forall events :: !Run(s, NEW, events).stuck
  }

  lemma RunOfConcat(s: Setup, x: Scaler, a: seq<Event>, b: seq<Event>)
    ensures Run(s, x, a + b) == Run(s, Run(s, x, a), b)
    decreases |b|
  {
    if b == [] {
      assert a + b == a;
    } else {
      var n := |b| - 1;
      assert (a + b)[..|a + b| - 1] == a + b[..n];
      RunOfConcat(s, x, a, b[..n]);
    }
  }

  function Times(e: Event, n: nat): (r: seq<Event>)
    ensures |r| == n
  {
    if n == 0 then [] else Times(e, n - 1) + [e]
  }

  lemma RunTimes(s: Setup, x: Scaler, e: Event, n: nat)
    requires n > 0
    ensures Run(s, x, Times(e, n)) == Step(s, Run(s, x, Times(e, n - 1)), e)
  {
    assert Times(e, n)[..n - 1] == Times(e, n - 1);
  }

  ghost predicate Growing(s: Setup, x: Scaler) {
    x.boosting && x.pending != [] && x.pending[|x.pending| - 1] == x.current && x.queue == [] && !x.stuck
  }

  /** Enough hints bring the requested size up to the limit. */
  lemma {:induction false} HintsReachTheLimit(s: Setup, n: nat)
    requires n > 0
    ensures var x := Run(s, NEW, Times(Hint(true), n));
            Growing(s, x) && x.current == if s.max / 8 + n < s.max then s.max / 8 + n else s.max
  {
    RunTimes(s, NEW, Hint(true), n);
    if n > 1 {
      HintsReachTheLimit(s, n - 1);
    } else {
      assert Run(s, NEW, []) == NEW;
    }
  }

  /** The manager gets to the newest size. */
  lemma {:induction false} SizesArrive(s: Setup, x: Scaler, n: nat)
    requires !x.stuck && x.queue == [] && 0 < n <= |x.pending|
    ensures var y := Run(s, x, Times(SizeArrives, n));
            y.expected == x.pending[n - 1] && y.pending == x.pending[n..] && y.queue == [] && !y.stuck
  {
    RunTimes(s, x, SizeArrives, n);
    if n > 1 {
      SizesArrive(s, x, n - 1);
    } else {
      assert Run(s, x, []) == x;
    }
  }

  lemma {:induction false} TicksFillTheRing(s: Setup, x: Scaler, n: nat)
    requires !x.stuck && x.queue == [] && n <= s.capacity < x.expected
    ensures var y := Run(s, x, Times(UpscaleTick, n)); |y.queue| == n && !y.stuck && y.expected == x.expected
  {
    hide Times;
    if n > 0 {
      RunTimes(s, x, UpscaleTick, n);
      TicksFillTheRing(s, x, n - 1);
      hide Run;
    }
  }

  /** A limit above the ring's capacity can be reached, and then the manager waits for room that never comes. */
  lemma LimitAboveCapacityGetsStuck(s: Setup) returns (events: seq<Event>)
    requires s.capacity < s.max
    ensures Run(s, NEW, events).stuck
  {
    var hints := Times(Hint(true), s.max);
    HintsReachTheLimit(s, s.max);
    var x := Run(s, NEW, hints);
    var sizes := Times(SizeArrives, |x.pending|);
    SizesArrive(s, x, |x.pending|);
    var y := Run(s, x, sizes);
    var ticks := Times(UpscaleTick, s.capacity + 1);
    TicksFillTheRing(s, y, s.capacity);
    RunTimes(s, y, UpscaleTick, s.capacity + 1);
    RunOfConcat(s, NEW, hints, sizes);
    RunOfConcat(s, NEW, hints + sizes, ticks);
    events := hints + sizes + ticks;
  }

  /** Put never meets a full ring and Get never an empty one, in any run, exactly when the limit fits the ring. */
  lemma NeverStuckExactlyWhenItFits(s: Setup)
    ensures NeverStuck(s) <==> s.max <= s.capacity
  {
    if s.capacity < s.max {
      var events := LimitAboveCapacityGetsStuck(s);
    } else {
      forall events ensures !Run(s, NEW, events).stuck {
        RunKeeps(s, events);
      }
    }
  }

  // ---------- The program's rings ----------

  /** The ring of either manager has the size that `NewRingBuffer` gives it. */
  function RingCapacity(maxBoostRx: nat, maxTx: nat): nat {
    RingBuffer.RoundUp((maxBoostRx + maxTx + 10) % 0x1_0000_0000)
  }

  /**
    With the rings as the program makes them: the receiving manager never waits, as long as the sizes fit 31 bits, and
    the sending manager can come to wait exactly when its limit exceeds the ring, which is made for the other limit.
   */
  lemma ProgramRingsFit(maxBoostRx: nat, maxBoostTx: nat, maxTx: nat)
    ensures var asked, c := maxBoostRx + maxTx + 10, RingCapacity(maxBoostRx, maxTx);
            && (asked <= 0x8000_0000 ==> asked <= c < 2 * asked && NeverStuck(Setup(maxBoostRx, c, false)))
            && (NeverStuck(Setup(maxBoostTx, c, true)) <==> maxBoostTx <= c)
  {
    hide NeverStuck, RingBuffer.RoundUp;
    var asked, c := maxBoostRx + maxTx + 10, RingCapacity(maxBoostRx, maxTx);
    RingBuffer.RoundUpIsTheNextPower(asked % 0x1_0000_0000);
    NeverStuckExactlyWhenItFits(Setup(maxBoostRx, c, false));
    NeverStuckExactlyWhenItFits(Setup(maxBoostTx, c, true));
  }

  // ---------- The program ----------

  lemma RequestsAreWithin(s: Setup, x: Scaler)
    requires Inv(s, x)
    ensures Upto(x.requested, s.max)
  {
  }

  lemma QueueIsWithin(s: Setup, x: Scaler)
    requires Inv(s, x)
    ensures |x.queue| <= s.max && (x.stuck ==> s.capacity < s.max)
  {
  }

  class BoostWorker {
    const max: nat
    var currentlyBoosting: bool
    var boostCurrentSize: nat
    /** The sizes sent to the manager so far. */
    var boostExpectedSize: seq<nat>

    constructor (max: nat)
      ensures this.max == max && Mirrors(NEW)
    {
      this.max := max;
      currentlyBoosting, boostCurrentSize, boostExpectedSize := false, 0, [];
    }

    ghost predicate Mirrors(x: Scaler)
      reads this
    {
      x.boosting == currentlyBoosting && x.current == boostCurrentSize && x.requested == boostExpectedSize
    }

    method OnInfo(enable: bool, ghost s: Setup, ghost x: Scaler)
      requires Mirrors(x) && s.max == max && Inv(s, x)
      modifies this
      ensures Mirrors(OnHint(s, x, enable)) && Upto(boostExpectedSize, max)
    {
      hide Inv;
      HintKeeps(s, x, enable);
      RequestsAreWithin(s, OnHint(s, x, enable));
      if enable {
        if !currentlyBoosting {
          currentlyBoosting := true;
          boostExpectedSize := boostExpectedSize + [max / 8];
          boostCurrentSize := max / 8;
        }
        if max > boostCurrentSize {
          boostCurrentSize := boostCurrentSize + 1;
          boostExpectedSize := boostExpectedSize + [boostCurrentSize];
        }
      } else {
        currentlyBoosting := false;
        boostExpectedSize := boostExpectedSize + [0];
      }
    }

    method OnBoostEnd(ghost s: Setup, ghost x: Scaler)
      requires Mirrors(x) && s.max == max && Inv(s, x)
      modifies this
      ensures Mirrors(Step(s, x, BoostEnds)) && Upto(boostExpectedSize, max)
    {
      hide Inv;
      StepKeeps(s, x, BoostEnds);
      RequestsAreWithin(s, Step(s, x, BoostEnds));
      currentlyBoosting := false;
      boostExpectedSize := boostExpectedSize + [0];
    }
  }

  class ScaleManager {
    const isTx: bool
    const capacity: nat
    var cancelQueue: seq<nat>
    var expectedSizeLast: nat
    var rxGracePeriodCharges: int
    var nextConnection: nat

    constructor (isTx: bool, capacity: nat)
      ensures this.isTx == isTx && this.capacity == capacity && Mirrors(NEW)
    {
      this.isTx, this.capacity := isTx, capacity;
      cancelQueue, expectedSizeLast, rxGracePeriodCharges, nextConnection := [], 0, GRACE_CHARGES, 0;
    }

    ghost predicate Mirrors(x: Scaler)
      reads this
    {
      && x.queue == cancelQueue && x.expected == expectedSizeLast && x.grace == rxGracePeriodCharges
      && x.dialed == nextConnection
    }

    method OnExpectedSize(size: nat, ghost s: Setup, ghost x: Scaler)
      requires Mirrors(x) && Inv(s, x) && !x.stuck && x.pending != [] && x.pending[0] == size
      modifies this`expectedSizeLast
      ensures Mirrors(Step(s, x, SizeArrives)) && expectedSizeLast <= Largest(x.requested) <= s.max
    {
      expectedSizeLast := size;
    }

    /**
      A tick of the downscale timer. A queue that is longer than the expected size is not empty, so Get does not
      wait.
     */
    method OnDownscaleTick(ghost s: Setup, ghost x: Scaler)
      requires Mirrors(x) && s.isTx == isTx && Inv(s, x) && !x.stuck
      modifies this
      ensures Mirrors(OnDownscale(s, x)) && !OnDownscale(s, x).stuck && |cancelQueue| <= s.max
    {
      hide Inv;
      DownscaleKeeps(s, x);
      QueueIsWithin(s, x);
      QueueIsWithin(s, OnDownscale(s, x));
      if |cancelQueue| > expectedSizeLast {
        if rxGracePeriodCharges <= 0 || isTx {
          cancelQueue := cancelQueue[1..];
        } else {
          rxGracePeriodCharges := rxGracePeriodCharges - 1;
        }
      }
    }

    /** A tick of the upscale timer. On a full ring, Put waits for room that only this manager could make. */
    method OnUpscaleTick(ghost s: Setup, ghost x: Scaler) returns (waiting: bool)
      requires Mirrors(x) && s.capacity == capacity && Inv(s, x) && !x.stuck
      modifies this
      ensures Mirrors(OnUpscale(s, x)) && waiting == OnUpscale(s, x).stuck && |cancelQueue| <= s.max
      ensures waiting ==> s.capacity < s.max
    {
      hide Inv;
      UpscaleKeeps(s, x);
      QueueIsWithin(s, OnUpscale(s, x));
      waiting := false;
      if expectedSizeLast > |cancelQueue| {
        rxGracePeriodCharges := GRACE_CHARGES;
        if |cancelQueue| >= capacity {
          return true;
        }
        cancelQueue := cancelQueue + [nextConnection];
        nextConnection := nextConnection + 1;
      }
    }
  }

  lemma RequestsArePending(s: Setup, x: Scaler, e: Event)
    requires e.Hint? || e.BoostEnds?
    ensures var y := Step(s, x, e);
            && x.requested <= y.requested && y.pending == x.pending + y.requested[|x.requested|..]
            && (y.expected, y.queue, y.grace, y.stuck, y.dialed) == (x.expected, x.queue, x.grace, x.stuck, x.dialed)
  {
    var y := Step(s, x, e);
    assert x.requested <= y.requested;
    var d := y.requested[|x.requested|..];
    assert y.requested == x.requested + d;
    assert y.pending == x.pending + d;
  }

  lemma ManagerLeavesTheWorker(s: Setup, x: Scaler, e: Event)
    requires !e.Hint? && !e.BoostEnds?
    ensures var y := Step(s, x, e); (y.boosting, y.current, y.requested) == (x.boosting, x.current, x.requested)
    ensures !e.SizeArrives? ==> Step(s, x, e).pending == x.pending
  {
  }

  lemma RunStep(s: Setup, events: seq<Event>, i: nat)
    requires i < |events|
    ensures Run(s, NEW, events[..i + 1]) == Step(s, Run(s, NEW, events[..i]), events[i])
  {
    assert events[..i + 1][..i] == events[..i];
  }

  /** Both loops, with their events in any order: they end in the specified state, waiting exactly when it says so. */
  method Drive(s: Setup, events: seq<Event>)
    returns (worker: BoostWorker, manager: ScaleManager, pending: seq<nat>, waiting: bool)
    ensures var x := Run(s, NEW, events);
            worker.Mirrors(x) && manager.Mirrors(x) && pending == x.pending && waiting == x.stuck
    ensures s.max <= s.capacity ==> !waiting
    ensures |manager.cancelQueue| <= s.max && Upto(worker.boostExpectedSize, s.max)
  {
    hide Inv, Run, Step;
    worker := new BoostWorker(s.max);
    manager := new ScaleManager(s.isTx, s.capacity);
    pending, waiting := [], false;
    StartIsRun(s);
    for i := 0 to |events|
      invariant worker.max == s.max && manager.isTx == s.isTx && manager.capacity == s.capacity
      invariant fresh(worker) && fresh(manager)
      invariant var x := Run(s, NEW, events[..i]);
                Inv(s, x) && worker.Mirrors(x) && manager.Mirrors(x) && pending == x.pending && waiting == x.stuck
    {
      ghost var x := Run(s, NEW, events[..i]);
      RunStep(s, events, i);
      StepKeeps(s, x, events[i]);
      pending, waiting := Serve(worker, manager, events[i], pending, waiting, s, x);
    }
    assert events[..|events|] == events;
    RequestsAreWithin(s, Run(s, NEW, events));
    QueueIsWithin(s, Run(s, NEW, events));
  }

  lemma StartIsRun(s: Setup)
    ensures Run(s, NEW, []) == NEW && Inv(s, NEW)
  {
    RunKeeps(s, []);
  }

  /** One event. */
  method Serve(
    worker: BoostWorker, manager: ScaleManager, e: Event, pending: seq<nat>, waiting: bool,
    ghost s: Setup, ghost x: Scaler)
    returns (left: seq<nat>, stuck: bool)
    requires worker.max == s.max && manager.isTx == s.isTx && manager.capacity == s.capacity && Inv(s, x)
    requires worker.Mirrors(x) && manager.Mirrors(x) && pending == x.pending && waiting == x.stuck
    modifies worker, manager
    ensures var y := Step(s, x, e);
            worker.Mirrors(y) && manager.Mirrors(y) && left == y.pending && stuck == y.stuck
  {
    hide Inv, OnHint, OnDownscale, OnUpscale, Request;
    left, stuck := pending, waiting;
    match e
    case Hint(enable) =>
      var n := |worker.boostExpectedSize|;
      RequestsArePending(s, x, e);
      worker.OnInfo(enable, s, x);
      left := pending + worker.boostExpectedSize[n..];
    case BoostEnds =>
      var n := |worker.boostExpectedSize|;
      RequestsArePending(s, x, e);
      worker.OnBoostEnd(s, x);
      left := pending + worker.boostExpectedSize[n..];
    case SizeArrives =>
      if !waiting && pending != [] {
        manager.OnExpectedSize(pending[0], s, x);
        left := pending[1..];
      }
    case DownscaleTick =>
      ManagerLeavesTheWorker(s, x, e);
      if !waiting {
        manager.OnDownscaleTick(s, x);
      }
    case UpscaleTick =>
      ManagerLeavesTheWorker(s, x, e);
      if !waiting {
        stuck := manager.OnUpscaleTick(s, x);
      }
  }
}
