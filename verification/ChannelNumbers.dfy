/**
  The channel number allocator: it sweeps up and down through the numbers below a mask and reorganises at
  the end of each sweep.
 */
module ChannelNumbers {
  import opened Bits

  type uint16 = x: int | 0 <= x < 0x1_0000

  const ONES := 0xFFFF

  datatype Finder = Finder(last: uint16, descending: bool, mask: uint16, outMask: uint16)
  {
    /** The complement of the mask. */
    function Top(): uint16 {
      ONES - mask
    }

    /** The largest number that `Organise` scans. */
    function ScanEnd(): uint16 {
      if Top() == 0 then ONES else Top() - 1
    }

    /** The end of an upward sweep. */
    predicate AtTop() {
      BitOr(last, mask) == ONES
    }
  }

  /** Whether raw number `v` belongs to a channel in use. */
  predicate InUse(used: set<nat>, outMask: nat, v: nat) {
    BitOr(v, outMask) in used
  }

  /** The largest number in use among 1 .. n, or 0. */
  function Highest(f: Finder, used: set<nat>, n: nat): (r: nat)
    ensures r <= n && (r != 0 ==> InUse(used, f.outMask, r))
    ensures forall v :: r < v <= n ==> !InUse(used, f.outMask, v)
  {
    if n == 0 then 0 else if InUse(used, f.outMask, n) then n else Highest(f, used, n - 1)
  }

  /** The smallest number in use among 1 .. n that is below the top, or the top. */
  function Lowest(f: Finder, used: set<nat>, n: nat): (r: nat)
    ensures r <= f.Top() && (r != f.Top() ==> 1 <= r <= n && InUse(used, f.outMask, r))
    ensures forall v :: 1 <= v <= n && v < r ==> !InUse(used, f.outMask, v)
  {
    if n == 0 then f.Top()
    else
      var r := Lowest(f, used, n - 1);
      if InUse(used, f.outMask, n) && n < r then n else r
  }

  function Organise(f: Finder, used: set<nat>): Finder {
    var descending := !f.descending;
    f.(descending := descending,
       last := if descending then Lowest(f, used, f.ScanEnd()) else Highest(f, used, f.ScanEnd()))
  }

  predicate MustOrganise(f: Finder) {
    if f.descending then f.last == 2 else f.AtTop()
  }

  /** An upper bound on the reorganisations that the next allocation needs. */
  function Rank(f: Finder): nat {
    if !MustOrganise(f) then 0
    else if f.Top() == 0 then (if f.descending then 2 else 1)
    else (if f.descending then 1 else 2)
  }

  lemma OrganiseLowersRank(f: Finder, used: set<nat>)
    requires MustOrganise(f)
    ensures Rank(Organise(f, used)) < Rank(f)
  {
    if f.descending && f.Top() != 0 {
      OrComplement(Organise(f, used).last, f.Top(), ONES);
    }
  }

  /** The next raw number and the allocator after it. */
  function FindNextRaw(f: Finder, used: set<nat>): (Finder, uint16)
    decreases Rank(f)
  {
    if MustOrganise(f) then
      OrganiseLowersRank(f, used);
      FindNextRaw(Organise(f, used), used)
    else
      var next := if f.descending then (f.last + ONES) % (ONES + 1) else (f.last + 1) % (ONES + 1);
      (f.(last := next), next)
  }

  function FindNext(f: Finder, used: set<nat>): (Finder, nat) {
    var (g, raw) := FindNextRaw(f, used);
    (g, BitOr(raw, f.outMask))
  }

  /** How often the next allocation reorganises. */
  function Reorganisations(f: Finder, used: set<nat>): nat
    decreases Rank(f)
  {
    if MustOrganise(f) then
      OrganiseLowersRank(f, used);
      1 + Reorganisations(Organise(f, used), used)
    else 0
  }

  // ---------- Bits ----------

  ghost predicate AllOnes(n: nat) {
    n == 0 || (n % 2 == 1 && AllOnes(n / 2))
  }

  lemma OnesAreOnes()
    ensures AllOnes(ONES)
  {
    assert AllOnes(1) && AllOnes(3) && AllOnes(7) && AllOnes(15);
    assert AllOnes(31) && AllOnes(63) && AllOnes(127) && AllOnes(255);
    assert AllOnes(511) && AllOnes(1023) && AllOnes(2047) && AllOnes(4095);
    assert AllOnes(8191) && AllOnes(16383) && AllOnes(32767) && AllOnes(65535);
  }

  /** A number up to `top` fills the complement of `top` to all ones only if it is `top`. */
  lemma {:induction false} OrComplementAux(x: nat, top: nat, ones: nat)
    requires AllOnes(ones) && x <= top <= ones
    ensures BitOr(x, ones - top) == ones <==> x == top
  {
    if ones != 0 {
      assert (ones - top) / 2 == ones / 2 - top / 2;
      OrComplementAux(x / 2, top / 2, ones / 2);
    }
  }

  lemma OrComplement(x: nat, top: nat, ones: nat)
    requires ones == ONES && x <= top <= ones
    ensures BitOr(x, ones - top) == ones <==> x == top
  {
    OnesAreOnes();
    OrComplementAux(x, top, ones);
  }

  // ---------- Properties ----------

  /** Whatever channels are in use and whatever the masks are, an allocation reorganises at most twice. */
  lemma AtMostTwoReorganisations(f: Finder, used: set<nat>)
    ensures Reorganisations(f, used) <= Rank(f) <= 2
    decreases Rank(f)
  {
    if MustOrganise(f) {
      OrganiseLowersRank(f, used);
      AtMostTwoReorganisations(Organise(f, used), used);
    }
  }

  /** The number that a sweep comes from when it hands out `raw`. */
  function ComesFrom(raw: uint16, descending: bool): uint16 {
    if descending then (raw + 1) % (ONES + 1) else (raw + ONES) % (ONES + 1)
  }

  /** A sweep that has just turned: it starts right behind the numbers in use, with none of them ahead. */
  ghost predicate TurnedAt(f: Finder, used: set<nat>, descending: bool, last: nat) {
    if descending then
      && (last == f.Top() || InUse(used, f.outMask, last))
      && forall v :: 1 <= v < last && v <= f.ScanEnd() ==> !InUse(used, f.outMask, v)
    else
      && (last == 0 || InUse(used, f.outMask, last))
      && forall v :: last < v <= f.ScanEnd() ==> !InUse(used, f.outMask, v)
  }

  lemma OrganiseTurns(f: Finder, used: set<nat>)
    ensures var g := Organise(f, used);
            g.mask == f.mask && g.outMask == f.outMask && g.descending == !f.descending
            && TurnedAt(f, used, g.descending, g.last)
  {
    hide InUse;
  }

  lemma SameMasksTurn(f: Finder, g: Finder, used: set<nat>, descending: bool, last: nat)
    requires g.mask == f.mask && g.outMask == f.outMask
    ensures TurnedAt(f, used, descending, last) == TurnedAt(g, used, descending, last)
  {
  }

  lemma OneStep(f: Finder, used: set<nat>)
    requires !MustOrganise(f)
    ensures var (g, raw) := FindNextRaw(f, used);
            g == f.(last := raw) && ComesFrom(raw, f.descending) == f.last && Reorganisations(f, used) == 0
  {
    hide MustOrganise;
  }

  /** Within a sweep the numbers follow each other; at a turn the next one lies right behind the numbers in use. */
  lemma {:induction false} AnswerIsNext(f: Finder, used: set<nat>)
    ensures var (g, raw) := FindNextRaw(f, used);
            var n := Reorganisations(f, used);
            && g == f.(last := raw, descending := g.descending) && (g.descending == f.descending <==> n % 2 == 0)
            && if n == 0 then ComesFrom(raw, f.descending) == f.last
               else TurnedAt(f, used, g.descending, ComesFrom(raw, g.descending))
    decreases Rank(f)
  {
    hide Organise, MustOrganise, Rank, TurnedAt, ComesFrom;
    if MustOrganise(f) {
      OrganiseLowersRank(f, used);
      var h := Organise(f, used);
      OrganiseTurns(f, used);
      AnswerIsNext(h, used);
      var (g, raw) := FindNextRaw(h, used);
      SameMasksTurn(f, h, used, g.descending, ComesFrom(raw, g.descending));
    } else {
      OneStep(f, used);
    }
  }

  const NEW_FINDER := Finder(0, false, 0, 0)

  /** The allocator and its answers after one call per usage set. */
  function Allocate(f: Finder, usages: seq<set<nat>>): (Finder, seq<nat>) {
    if usages == [] then (f, [])
    else
      var n := |usages| - 1;
      var (g, results) := Allocate(f, usages[..n]);
      var (h, r) := FindNext(g, usages[n]);
      (h, results + [r])
  }

  lemma BitOrZero(a: nat)
    ensures BitOr(a, 0) == a
  {
  }

  lemma CountsUp(n: nat, used: set<nat>)
    requires n < ONES
    ensures FindNext(NEW_FINDER.(last := n), used) == (NEW_FINDER.(last := n + 1), n + 1)
  {
    BitOrZero(n);
    BitOrZero(n + 1);
  }

  /** As the server sets it up, the first 65535 answers are 1, 2, 3, ... whatever is in use meanwhile. */
  lemma {:induction false} FirstAnswersCountUp(usages: seq<set<nat>>)
    requires |usages| <= ONES
    ensures var (g, results) := Allocate(NEW_FINDER, usages);
            && g == NEW_FINDER.(last := |usages|)
            && |results| == |usages|
            && forall i :: 0 <= i < |results| ==> results[i] == i + 1
  {
    if usages != [] {
      var n := |usages| - 1;
      FirstAnswersCountUp(usages[..n]);
      CountsUp(n, usages[n]);
    }
  }

  /** What a sweep relies on: upwards, everything in use is behind it, except perhaps the top; downwards likewise. */
  ghost predicate SweepOk(f: Finder, used: set<nat>) {
    && f.last <= f.Top() && 3 <= f.Top()
    && if f.descending then
         2 <= f.last && forall v :: 1 <= v < f.last ==> !InUse(used, f.outMask, v)
       else
         forall v :: f.last < v < f.Top() ==> !InUse(used, f.outMask, v)
  }

  lemma FreeingKeepsSweep(f: Finder, used: set<nat>, fewer: set<nat>)
    requires SweepOk(f, used) && fewer <= used
    ensures SweepOk(f, fewer)
  {
    assert forall v: nat :: InUse(fewer, f.outMask, v) ==> InUse(used, f.outMask, v);
  }

  lemma FreshSweep()
    ensures SweepOk(NEW_FINDER, {})
  {
  }

  /** An upward turn always finds the sweep in order. */
  lemma TurnUp(f: Finder, used: set<nat>)
    requires SweepOk(f, used) && f.descending
    ensures SweepOk(Organise(f, used), used) && !MustOrganise(Organise(f, used))
  {
    OrComplement(Organise(f, used).last, f.Top(), ONES);
  }

  /** A number just handed out is marked used. */
  ghost predicate Marks(f: Finder, used: set<nat>, more: set<nat>, raw: nat) {
    forall v :: 1 <= v <= f.Top() && InUse(more, f.outMask, v) ==> InUse(used, f.outMask, v) || v == raw
  }

  lemma RawStep(f: Finder, used: set<nat>)
    requires !MustOrganise(f)
    ensures FindNextRaw(f, used).1 == if f.descending then (if f.last == 0 then ONES else f.last - 1)
                                      else (if f.last == ONES then 0 else f.last + 1)
  {
  }

  lemma RawTurn(f: Finder, used: set<nat>)
    requires MustOrganise(f)
    ensures FindNextRaw(f, used) == FindNextRaw(Organise(f, used), used)
  {
  }

  lemma TurnsAtTheEnd(f: Finder)
    requires f.last <= f.Top()
    ensures MustOrganise(f) <==> f.last == if f.descending then 2 else f.Top()
  {
    OrComplement(f.last, f.Top(), ONES);
  }

  lemma RawStepState(f: Finder, used: set<nat>)
    requires !MustOrganise(f)
    ensures FindNextRaw(f, used).0 == f.(last := FindNextRaw(f, used).1)
  {
  }

  lemma StepInSweep(f: Finder, used: set<nat>, more: set<nat>)
    requires SweepOk(f, used) && !MustOrganise(f) && Marks(f, used, more, FindNextRaw(f, used).1)
    ensures var (g, raw) := FindNextRaw(f, used);
            && 1 <= raw <= f.Top() && (InUse(used, f.outMask, raw) ==> raw == f.Top())
            && SweepOk(g, more)
  {
    hide FindNextRaw, MustOrganise, InUse;
    TurnsAtTheEnd(f);
    RawStep(f, used);
    RawStepState(f, used);
  }

  /** The one bad turn: an upward sweep has reached the top while channel 1 is in use. */
  ghost predicate BadTurn(f: Finder, used: set<nat>) {
    !f.descending && f.last == f.Top() && InUse(used, f.outMask, 1)
  }

  /**
    In a run of sweeps, an allocation answers raw number 0 exactly at a bad turn. Every other answer lies between 1 and
    the top, is not in use unless it is the top itself, and leaves the sweep in order once it is marked used.
   */
  lemma AllocationIsFree(f: Finder, used: set<nat>, more: set<nat>)
    requires SweepOk(f, used) && Marks(f, used, more, FindNextRaw(f, used).1)
    ensures var (g, raw) := FindNextRaw(f, used);
            && (raw == 0 <==> BadTurn(f, used))
            && (raw != 0 ==> raw <= f.Top() && (InUse(used, f.outMask, raw) ==> raw == f.Top()) && SweepOk(g, more))
  {
    hide FindNextRaw, MustOrganise, Highest, Lowest, InUse, Marks;
    TurnsAtTheEnd(f);
    if !MustOrganise(f) {
      StepInSweep(f, used, more);
    } else if f.descending {
      TurnUp(f, used);
      RawTurn(f, used);
      MarksAlike(f, Organise(f, used), used, more, FindNextRaw(f, used).1);
      StepInSweep(Organise(f, used), used, more);
    } else {
      var g := Organise(f, used);
      RawTurn(f, used);
      TurnsAtTheEnd(g);
      MarksAlike(f, g, used, more, FindNextRaw(f, used).1);
      if g.last == 2 {
        TurnUp(g, used);
        RawTurn(g, used);
        MarksAlike(f, Organise(g, used), used, more, FindNextRaw(f, used).1);
        StepInSweep(Organise(g, used), used, more);
      } else if g.last > 2 {
        StepInSweep(g, used, more);
      } else {
        RawStep(g, used);
      }
    }
  }

  lemma MarksAlike(f: Finder, g: Finder, used: set<nat>, more: set<nat>, raw: nat)
    requires Marks(f, used, more, raw) && g.mask == f.mask && g.outMask == f.outMask
    ensures Marks(g, used, more, raw)
  {
  }

  // ---------- Whole runs ----------

  /** The top consists of ones only, and the output mask has no bit below it. */
  ghost predicate LowMask(f: Finder) {
    AllOnes(f.Top()) && Clear(f.outMask, f.Top())
  }

  ghost predicate Clear(out: nat, top: nat) {
    top == 0 || (out % 2 == 0 && Clear(out / 2, top / 2))
  }

  lemma {:induction false} OrInjective(v: nat, w: nat, out: nat, top: nat)
    requires AllOnes(top) && Clear(out, top) && v <= top && w <= top && BitOr(v, out) == BitOr(w, out)
    ensures v == w
  {
    if top != 0 {
      OrParts(v, out);
      OrParts(w, out);
      OrInjective(v / 2, w / 2, out / 2, top / 2);
    }
  }

  lemma OrParts(v: nat, out: nat)
    requires out % 2 == 0
    ensures BitOr(v, out) / 2 == BitOr(v / 2, out / 2) && BitOr(v, out) % 2 == v % 2
  {
  }

  /** The allocator's environment takes a number and marks it used, or releases channels. */
  datatype Use = Take | Release(channels: set<nat>)

  function MarkUsed(f: Finder, used: set<nat>): set<nat> {
    used + {FindNext(f, used).1}
  }

  /**
    The top comes next: an upward sweep is one below it, or turns up where the number below it is the highest in
    use.
   */
  ghost predicate TopIsNext(f: Finder, used: set<nat>) {
    || (!f.descending && f.last == f.Top() - 1)
    || (Highest(f, used, f.ScanEnd()) == f.Top() - 1
        && (if f.descending then f.last == 2 else f.last == f.Top() && Lowest(f, used, f.ScanEnd()) == 2))
  }

  lemma TopIsNextExactly(f: Finder, used: set<nat>)
    requires SweepOk(f, used)
    ensures FindNextRaw(f, used).1 == f.Top() <==> TopIsNext(f, used)
  {
    hide FindNextRaw, MustOrganise, Highest, Lowest, InUse;
    TurnsAtTheEnd(f);
    if !MustOrganise(f) {
      RawStep(f, used);
    } else {
      RawTurn(f, used);
      var g := Organise(f, used);
      TurnsAtTheEnd(g);
      if !MustOrganise(g) {
        RawStep(g, used);
      } else {
        RawTurn(g, used);
        var h := Organise(g, used);
        TurnsAtTheEnd(h);
        RawStep(h, used);
        HighestIsTheSame(f, g, used, f.ScanEnd());
      }
    }
  }

  lemma HighestIsTheSame(f: Finder, g: Finder, used: set<nat>, n: nat)
    requires f.outMask == g.outMask
    ensures Highest(f, used, n) == Highest(g, used, n)
  {
  }

  /** No number is taken at a bad turn, nor when the top comes next and is in use. */
  ghost predicate Careful(f: Finder, used: set<nat>, uses: seq<Use>)
    decreases |uses|
  {
    uses == [] ||
    match uses[0]
    case Take =>
      && !BadTurn(f, used) && !(TopIsNext(f, used) && InUse(used, f.outMask, f.Top()))
      && Careful(FindNext(f, used).0, MarkUsed(f, used), uses[1..])
    case Release(channels) => Careful(f, used - channels, uses[1..])
  }

  /** Every number taken was free at that moment and is not the reserved number of the control channel. */
  ghost predicate Clean(f: Finder, used: set<nat>, uses: seq<Use>)
    decreases |uses|
  {
    uses == [] ||
    match uses[0]
    case Take =>
      && FindNextRaw(f, used).1 != 0 && FindNext(f, used).1 !in used
      && Clean(FindNext(f, used).0, MarkUsed(f, used), uses[1..])
    case Release(channels) => Clean(f, used - channels, uses[1..])
  }

  lemma {:induction false} MasksStay(f: Finder, used: set<nat>)
    ensures var g := FindNextRaw(f, used).0; g.mask == f.mask && g.outMask == f.outMask
    decreases Rank(f)
  {
    if MustOrganise(f) {
      OrganiseLowersRank(f, used);
      MasksStay(Organise(f, used), used);
    }
  }

  /** In every run of sweeps, all numbers taken are free and not reserved exactly when the run is careful. */
  lemma {:induction false} RunsAreCleanExactlyWhenCareful(f: Finder, used: set<nat>, uses: seq<Use>)
    requires SweepOk(f, used) && LowMask(f)
    ensures Clean(f, used, uses) <==> Careful(f, used, uses)
    decreases |uses|
  {
    hide TopIsNext, BadTurn, FindNextRaw;
    if uses != [] {
      match uses[0]
      case Take =>
        var (g, raw) := FindNextRaw(f, used);
        var more := MarkUsed(f, used);
        MasksStay(f, used);
        TakeMarks(f, used);
        AllocationIsFree(f, used, more);
        TopIsNextExactly(f, used);
        if raw != 0 {
          RunsAreCleanExactlyWhenCareful(g, more, uses[1..]);
        }
      case Release(channels) =>
        FreeingKeepsSweep(f, used, used - channels);
        RunsAreCleanExactlyWhenCareful(f, used - channels, uses[1..]);
    }
  }

  lemma TakeMarks(f: Finder, used: set<nat>)
    requires SweepOk(f, used) && LowMask(f)
    ensures Marks(f, used, MarkUsed(f, used), FindNextRaw(f, used).1)
  {
    var raw := FindNextRaw(f, used).1;
    AllocationIsFree(f, used, used);
    forall v | 1 <= v <= f.Top() && InUse(MarkUsed(f, used), f.outMask, v)
      ensures InUse(used, f.outMask, v) || v == raw
    {
      if !InUse(used, f.outMask, v) && raw <= f.Top() {
        OrInjective(v, raw, f.outMask, f.Top());
      }
    }
  }

  // ---------- The server's allocator ----------

  lemma {:induction false} NothingBlocks(top: nat)
    ensures Clear(0, top)
  {
    if top != 0 {
      NothingBlocks(top / 2);
    }
  }

  lemma ServerMasks()
    ensures LowMask(NEW_FINDER)
  {
    OnesAreOnes();
    NothingBlocks(ONES);
  }

  /** As the server sets the allocator up, with nothing in use. */
  lemma ServerRunsAreCleanExactlyWhenCareful(uses: seq<Use>)
    ensures Clean(NEW_FINDER, {}, uses) <==> Careful(NEW_FINDER, {}, uses)
  {
    FreshSweep();
    ServerMasks();
    RunsAreCleanExactlyWhenCareful(NEW_FINDER, {}, uses);
  }

  /** The numbers handed out by a run, in order. */
  function Handed(f: Finder, used: set<nat>, uses: seq<Use>): seq<nat>
    decreases |uses|
  {
    if uses == [] then []
    else match uses[0]
      case Take => [FindNext(f, used).1] + Handed(FindNext(f, used).0, MarkUsed(f, used), uses[1..])
      case Release(channels) => Handed(f, used - channels, uses[1..])
  }

  function Takes(n: nat): (uses: seq<Use>)
    ensures |uses| == n && forall i :: 0 <= i < n ==> uses[i] == Take
  {
    seq(n, _ => Take)
  }

  function NumbersUpTo(k: nat): (r: set<nat>)
    ensures forall v :: v in r <==> 1 <= v <= k
  {
    if k == 0 then {} else NumbersUpTo(k - 1) + {k}
  }

  /** k + 1, ..., 65535. */
  function CountFrom(k: nat): (r: seq<nat>)
    requires k <= ONES
    ensures |r| == ONES - k && forall i :: 0 <= i < |r| ==> r[i] == k + 1 + i
  {
    seq(ONES - k, i => k + 1 + i)
  }

  /** From any point of the first sweep: taking on hands out the rest of the numbers in order. */
  lemma {:induction false} TakesThen(k: nat, tail: seq<Use>)
    requires k <= ONES
    ensures Handed(NEW_FINDER.(last := k), NumbersUpTo(k), Takes(ONES - k) + tail)
         == CountFrom(k) + Handed(NEW_FINDER.(last := ONES), NumbersUpTo(ONES), tail)
    decreases ONES - k
  {
    hide FindNext, NumbersUpTo;
    if k == ONES {
      assert Takes(0) + tail == tail;
      assert CountFrom(k) == [];
    } else {
      CountsUp(k, NumbersUpTo(k));
      assert MarkUsed(NEW_FINDER.(last := k), NumbersUpTo(k)) == NumbersUpTo(k + 1);
      assert (Takes(ONES - k) + tail)[1..] == Takes(ONES - k - 1) + tail;
      TakesThen(k + 1, tail);
      assert CountFrom(k) == [k + 1] + CountFrom(k + 1);
    }
  }

  lemma TurnHandsOutZero()
    ensures FindNext(NEW_FINDER.(last := ONES), NumbersUpTo(ONES)).1 == 0
  {
    var f, used := NEW_FINDER.(last := ONES), NumbersUpTo(ONES);
    BitOrZero(1);
    BitOrZero(0);
    AllocationIsFree(f, used, used);
  }

  /** Taking 65536 numbers and releasing none: after 1, 2, ..., 65535 the server's allocator hands out 0. */
  lemma {:induction false} FullSweepHandsOutZero()
    ensures Handed(NEW_FINDER, {}, Takes(ONES + 1)) == CountFrom(0) + [0]
    ensures !Clean(NEW_FINDER, {}, Takes(ONES + 1))
  {
    hide FindNext, Clean;
    TakesThen(0, [Take]);
    assert Takes(ONES) + [Take] == Takes(ONES + 1);
    assert NumbersUpTo(0) == {};
    TurnHandsOutZero();
    SingleTake(NEW_FINDER.(last := ONES), NumbersUpTo(ONES));
    if Clean(NEW_FINDER, {}, Takes(ONES + 1)) {
      CleanHandsOutNoZero(NEW_FINDER, {}, Takes(ONES + 1), ONES);
    }
  }

  lemma SingleTake(f: Finder, used: set<nat>)
    ensures Handed(f, used, [Take]) == [FindNext(f, used).1]
  {
    assert Handed(FindNext(f, used).0, MarkUsed(f, used), [Take][1..]) == [];
  }

  /** With an output mask of zero a clean run never hands out 0. */
  lemma {:induction false} CleanHandsOutNoZero(f: Finder, used: set<nat>, uses: seq<Use>, i: nat)
    requires f.outMask == 0 && Clean(f, used, uses) && i < |Handed(f, used, uses)|
    ensures Handed(f, used, uses)[i] != 0
    decreases |uses|
  {
    hide FindNextRaw;
    match uses[0]
    case Take =>
      MasksStay(f, used);
      BitOrZero(FindNextRaw(f, used).1);
      if i > 0 {
        CleanHandsOutNoZero(FindNext(f, used).0, MarkUsed(f, used), uses[1..], i - 1);
      }
    case Release(channels) => CleanHandsOutNoZero(f, used - channels, uses[1..], i);
  }

  /** All channels but 2, 65534 and 65535 are released. */
  function MostChannels(): (r: set<nat>)
    ensures forall v :: v in r <==> 1 <= v <= ONES && v != 2 && v != ONES - 1 && v != ONES
  {
    NumbersUpTo(ONES) - {2, ONES - 1, ONES}
  }

  lemma TurnHandsOutTheTop()
    ensures FindNext(NEW_FINDER.(last := ONES), {2, ONES - 1, ONES}).1 == ONES
  {
    var f, used: set<nat> := NEW_FINDER.(last := ONES), {2, ONES - 1, ONES};
    forall v: nat ensures InUse(used, 0, v) <==> v in used {
      BitOrZero(v);
    }
    BitOrZero(ONES);
    hide FindNextRaw, InUse, Highest, Lowest;
    TopIsNextExactly(f, used);
  }

  /** A run that hands out 65535 a second time although it was never released. */
  lemma {:induction false} TopIsHandedOutTwice()
    ensures Handed(NEW_FINDER, {}, Takes(ONES) + [Release(MostChannels()), Take]) == CountFrom(0) + [ONES]
    ensures CountFrom(0)[ONES - 1] == ONES && ONES !in MostChannels()
  {
    hide FindNext;
    TakesThen(0, [Release(MostChannels()), Take]);
    assert NumbersUpTo(0) == {};
    var f, used := NEW_FINDER.(last := ONES), NumbersUpTo(ONES);
    var tail := [Release(MostChannels()), Take];
    assert tail[1..] == [Take];
    assert used - MostChannels() == {2, ONES - 1, ONES};
    SingleTake(f, {2, ONES - 1, ONES});
    TurnHandsOutTheTop();
  }
}
