/**
  The arithmetic of an epoch: rounding, scaling to the traffic quota, and the round-robin order.
 */
module EpochBudget {
  import opened ErasureCode
  import opened Sender

  lemma MulMonotone(c: int, x: int, y: int)
    requires c >= 0 && x <= y
    ensures c * x <= c * y
  {
  }

  lemma {:induction false} MulCancel(c: int, x: int, y: int)
    requires c > 0 && c * x < c * y + c
    ensures x <= y
  {
    if x > y {
      MulMonotone(c, y + 1, x);
    }
  }

  lemma DivBounds(a: int, b: int)
    requires b > 0
    ensures b * (a / b) <= a < b * (a / b) + b
  {
  }

  /** Rounding to nearest: twice the result is within one divisor of twice the argument. */
  lemma RoundDivBounds(a: int, b: nat)
    requires a >= 0 && b > 0
    ensures 0 <= RoundDiv(a, b)
    ensures 2 * a - b < 2 * b * RoundDiv(a, b) <= 2 * a + b
  {
    DivBounds(2 * a + b, 2 * b);
  }

  lemma {:induction false} RoundDivShrinks(a: int, b: nat)
    requires a >= 0 && b > 0
    ensures RoundDiv(a, b) <= a
  {
    RoundDivBounds(a, b);
    MulMonotone(a, 1, b);
    assert 2 * b * a == 2 * (a * b);
    MulCancel(2 * b, RoundDiv(a, b), a);
  }

  lemma RoundDivMonotone(a: int, c: int)
    requires 0 <= a <= c
    ensures RoundDiv(a, RING) <= RoundDiv(c, RING)
  {
  }

  /** A schedule releases the nearest whole number to as many thirtieths as epochs have passed, and never shrinks. */
  lemma ScheduleGrows(slot: Slot, epoch: nat)
    requires slot.initialEpoch <= epoch && slot.initialRemain >= 0
    ensures 0 <= Schedule(slot, epoch) <= Schedule(slot, epoch + 1)
    ensures NearestShare((epoch - slot.initialEpoch) * slot.initialRemain, Schedule(slot, epoch), RING)
  {
    var n := epoch - slot.initialEpoch;
    MulMonotone(slot.initialRemain, 0, n);
    MulMonotone(slot.initialRemain, n, n + 1);
    assert n * slot.initialRemain == slot.initialRemain * n;
    assert (n + 1) * slot.initialRemain == slot.initialRemain * (n + 1);
    RoundDivMonotone(0, n * slot.initialRemain);
    RoundDivBounds(n * slot.initialRemain, RING);
    RoundDivMonotone(n * slot.initialRemain, (n + 1) * slot.initialRemain);
  }

  ghost predicate NonNegative(u: seq<int>) {
    forall i :: 0 <= i < |u| ==> 0 <= u[i]
  }

  lemma SumNonNegative(u: seq<int>)
    requires NonNegative(u)
    ensures Sum(u) >= 0
  {
    if u != [] {
      SumNonNegative(u[..|u| - 1]);
    }
  }

  /** Scaling overshoots by at most half a shard per slot. */
  lemma {:induction false} ScaledSum(u: seq<int>, scale: nat)
    requires NonNegative(u) && scale > 0
    ensures 2 * scale * Sum(Scaled(u, scale)) <= 2 * Sum(u) + |u| * scale
  {
    if u != [] {
      var n := |u| - 1;
      var g := Scaled(u, scale);
      assert g[..n] == Scaled(u[..n], scale);
      ScaledSum(u[..n], scale);
      RoundDivBounds(u[n], scale);
      hide Scaled, RoundDiv;
      ScaledStep(scale, Sum(g[..n]), g[n], Sum(u[..n]), u[n], n);
    }
  }

  lemma ScaledStep(scale: nat, a: int, b: int, p: int, q: int, n: nat)
    requires 2 * scale * a <= 2 * p + n * scale && 2 * scale * b <= 2 * q + scale
    ensures 2 * scale * (a + b) <= 2 * (p + q) + (n + 1) * scale
  {
  }

  lemma {:induction false} ScaleArithmetic(total: int, quota: int, scale: int, sum: int, n: nat)
    requires quota > 0 && scale >= 1
    requires total < quota * scale + quota
    requires 2 * scale * sum <= 2 * total + n * scale
    ensures 2 * sum < 4 * quota + n
  {
    MulMonotone(quota, 1, scale);
    var x, y := 2 * sum + 1, 4 * quota + n;
    assert scale * y == 4 * (quota * scale) + n * scale;
    assert scale * x == 2 * scale * sum + scale;
    MulCancel(scale, x, y);
  }

  /** Scaled shares stay below twice the quota plus half a shard per slot. */
  lemma {:induction false} ScaledQuota(u: seq<int>, quota: nat)
    requires NonNegative(u) && quota > 0 && Sum(u) > quota
    ensures Sum(u) / quota >= 1
    ensures 2 * Sum(Scaled(u, Sum(u) / quota)) < 4 * quota + |u|
  {
    var scale := Sum(u) / quota;
    DivBounds(Sum(u), quota);
    MulCancel(quota, 1, scale);
    ScaledSum(u, scale);
    ScaleArithmetic(Sum(u), quota, scale, Sum(Scaled(u, scale)), |u|);
  }

  /** Scaling undershoots by at most half a shard per slot. */
  lemma {:induction false} ScaledSumBelow(u: seq<int>, scale: nat)
    requires NonNegative(u) && scale > 0
    ensures 2 * Sum(u) <= 2 * scale * Sum(Scaled(u, scale)) + |u| * scale
  {
    if u != [] {
      var n := |u| - 1;
      var g := Scaled(u, scale);
      assert g[..n] == Scaled(u[..n], scale);
      ScaledSumBelow(u[..n], scale);
      RoundDivBounds(u[n], scale);
      hide Scaled, RoundDiv;
      ScaledStepBelow(scale, Sum(g[..n]), g[n], Sum(u[..n]), u[n], n);
    }
  }

  lemma ScaledStepBelow(scale: nat, a: int, b: int, p: int, q: int, n: nat)
    requires 2 * p <= 2 * scale * a + n * scale && 2 * q <= 2 * scale * b + scale
    ensures 2 * (p + q) <= 2 * scale * (a + b) + (n + 1) * scale
  {
  }

  lemma {:induction false} ScaleArithmeticBelow(total: int, quota: int, scale: int, sum: int, n: nat)
    requires scale >= 1 && quota * scale <= total && 2 * total <= 2 * scale * sum + n * scale
    ensures 2 * quota <= 2 * sum + n
  {
    assert scale * (2 * quota) == 2 * (quota * scale);
    assert scale * (2 * sum + n) == 2 * scale * sum + n * scale;
    MulCancel(scale, 2 * quota, 2 * sum + n);
  }

  /** Scaled shares still use up the quota but for half a shard per slot. */
  lemma {:induction false} ScaledQuotaBelow(u: seq<int>, quota: nat)
    requires NonNegative(u) && quota > 0 && Sum(u) > quota
    ensures Sum(u) / quota >= 1
    ensures 2 * quota <= 2 * Sum(Scaled(u, Sum(u) / quota)) + |u|
  {
    var scale := Sum(u) / quota;
    DivBounds(Sum(u), quota);
    MulCancel(quota, 1, scale);
    ScaledSumBelow(u, scale);
    ScaleArithmeticBelow(Sum(u), quota, scale, Sum(Scaled(u, scale)), |u|);
  }

  /** A share `g` of an allowance `u`, scaled down and rounded to the nearest. */
  ghost predicate NearestShare(u: int, g: int, scale: nat) {
    2 * u - scale < 2 * scale * g <= 2 * u + scale
  }

  /** What an allowance becomes under a quota: all of it, or shares that use the quota up to half a shard per slot. */
  ghost predicate FairShares(u: seq<int>, g: seq<int>, quota: nat)
    requires quota > 0
  {
    && |g| == |u| && (forall i :: 0 <= i < |u| ==> 0 <= g[i] <= u[i])
    && if Sum(u) <= quota then g == u
       else
         && 2 * quota <= 2 * Sum(g) + |u| && 2 * Sum(g) < 4 * quota + |u|
         && Sum(u) / quota >= 1 && forall i :: 0 <= i < |u| ==> NearestShare(u[i], g[i], Sum(u) / quota)
  }

  /**
    What one epoch may send: every slot all it is allowed if the quota covers that. Otherwise no slot more than that,
    each the nearest whole number of shards to its scaled allowance, and in all the quota within half a shard per slot
    below and less than twice the quota and half a shard per slot above.
   */
  lemma {:induction false} GuidanceIsBounded(s: Scheme, ring: seq<Slot>, epoch: nat, quota: nat)
    requires AllReadable(s, ring) && quota > 0
    requires forall i :: 0 <= i < |ring| ==> Headroom(s, ring[i], epoch) >= 0
    ensures FairShares(Unlocks(s, ring, epoch), Guidance(s, ring, epoch, quota), quota)
  {
    var u := Unlocks(s, ring, epoch);
    hide Headroom, RoundDiv;
    if Sum(u) > quota {
      ScaledQuota(u, quota);
      ScaledQuotaBelow(u, quota);
      forall i | 0 <= i < |ring|
        ensures var g := RoundDiv(u[i], Sum(u) / quota); 0 <= g <= u[i] && NearestShare(u[i], g, Sum(u) / quota)
      {
        RoundDivBounds(u[i], Sum(u) / quota);
        RoundDivShrinks(u[i], Sum(u) / quota);
      }
    }
  }

  // ---------- Round robin ----------

  lemma PositivesOnce(g: seq<int>, i: nat)
    ensures multiset(Positives(g))[i] == if i < |g| && g[i] > 0 then 1 else 0
  {
    if g != [] {
      PositivesOnce(g[..|g| - 1], i);
    }
  }

  /** The loop serves every slot exactly as often as its guidance says. */
  lemma {:induction false} RoundRobinServes(g: seq<int>, i: nat)
    ensures multiset(RoundRobin(g))[i] == if i < |g| && g[i] > 0 then g[i] else 0
    decreases Load(g)
  {
    PositivesOnce(g, i);
    if Positives(g) != [] {
      DecrementLoad(g);
      RoundRobinServes(Decrement(g), i);
    }
  }

  lemma {:induction false} RoundRobinLength(g: seq<int>)
    requires NonNegative(g)
    ensures |RoundRobin(g)| == Load(g) == Sum(g)
    decreases Load(g)
  {
    LoadIsSum(g);
    DecrementLoad(g);
    if Positives(g) != [] {
      RoundRobinLength(Decrement(g));
    } else {
      NothingLeft(g);
    }
  }

  lemma LoadIsSum(g: seq<int>)
    requires NonNegative(g)
    ensures Load(g) == Sum(g)
  {
    if g != [] {
      LoadIsSum(g[..|g| - 1]);
    }
  }

  lemma NothingLeft(g: seq<int>)
    requires Positives(g) == []
    ensures Load(g) == 0
  {
    if g != [] {
      var n := |g| - 1;
      assert Positives(g[..n]) == [] && g[n] <= 0;
      NothingLeft(g[..n]);
    }
  }

  lemma CountSplit(a: seq<nat>, b: seq<nat>, i: nat)
    ensures multiset(a + b)[i] == multiset(a)[i] + multiset(b)[i]
  {
  }

  // ---------- Order of sending ----------

  lemma {:induction false} PositivesAscend(g: seq<int>, a: nat, b: nat)
    requires a < b < |Positives(g)|
    ensures Positives(g)[a] < Positives(g)[b] < |g|
  {
    var n := |g| - 1;
    var init := Positives(g[..n]);
    if b < |init| {
      PositivesAscend(g[..n], a, b);
    } else {
      PositivesBelow(g[..n], a);
    }
  }

  lemma {:induction false} PositivesBelow(g: seq<int>, a: nat)
    requires a < |Positives(g)|
    ensures Positives(g)[a] < |g| && g[Positives(g)[a]] > 0
  {
    var n := |g| - 1;
    if a < |Positives(g[..n])| {
      PositivesBelow(g[..n], a);
    }
  }

  /** How often the slot of send `n` was served before. */
  ghost function Turn(order: seq<nat>, n: nat): nat
    requires n < |order|
  {
    multiset(order[..n])[order[n]]
  }

  lemma {:induction false} FirstTurn(g: seq<int>, a: nat)
    requires a < |Positives(g)|
    ensures Turn(Positives(g), a) == 0
  {
    var p := Positives(g);
    if p[a] in multiset(p[..a]) {
      assert p[a] in p[..a];
      var b :| 0 <= b < a && p[b] == p[a];
      PositivesAscend(g, b, a);
    }
  }

  lemma {:induction false} LaterTurn(g: seq<int>, b: nat)
    requires Positives(g) != [] && |Positives(g)| <= b < |RoundRobin(g)|
    ensures var rest, m := RoundRobin(Decrement(g)), b - |Positives(g)|;
            && m < |rest| && RoundRobin(g)[b] == rest[m] && Turn(RoundRobin(g), b) == Turn(rest, m) + 1
  {
    hide Positives, Decrement, Load, RoundRobin;
    RoundRobinRounds(g);
    var p, rest, m := Positives(g), RoundRobin(Decrement(g)), b - |Positives(g)|;
    var i := rest[m];
    ServedAgain(g, rest, m);
    assert RoundRobin(g)[..b] == p + rest[..m];
    CountSplit(p, rest[..m], i);
  }

  lemma RoundRobinRounds(g: seq<int>)
    requires Positives(g) != []
    ensures RoundRobin(g) == Positives(g) + RoundRobin(Decrement(g))
  {
    DecrementLoad(g);
  }

  lemma {:induction false} ServedAgain(g: seq<int>, rest: seq<nat>, m: nat)
    requires rest == RoundRobin(Decrement(g)) && m < |rest|
    ensures multiset(Positives(g))[rest[m]] == 1
  {
    hide Positives, RoundRobin;
    assert rest[m] in rest && rest[m] in multiset(rest);
    RoundRobinServes(Decrement(g), rest[m]);
    PositivesOnce(g, rest[m]);
  }

  /** The slots take turns, and within a turn they are served in the order of the ring. */
  lemma {:induction false} RoundRobinOrder(g: seq<int>, a: nat, b: nat)
    requires a < b < |RoundRobin(g)|
    ensures var order := RoundRobin(g);
            Turn(order, a) < Turn(order, b) || (Turn(order, a) == Turn(order, b) && order[a] < order[b])
    decreases Load(g)
  {
    var p, order := Positives(g), RoundRobin(g);
    hide Positives, Load;
    DecrementLoad(g);
    if a < |p| {
      FirstTurn(g, a);
      assert order[..a] == p[..a];
    }
    if b < |p| {
      FirstTurn(g, b);
      assert order[..b] == p[..b];
      PositivesAscend(g, a, b);
    } else {
      LaterTurn(g, b);
      if a >= |p| {
        LaterTurn(g, a);
        RoundRobinOrder(Decrement(g), a - |p|, b - |p|);
      }
    }
  }
}
