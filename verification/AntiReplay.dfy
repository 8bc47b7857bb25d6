/**
  The anti-replay window: two pools that are emptied in turn, one each time the window has elapsed.
  A pool never forgets what it took until it is emptied, and may take any value for one that it holds: `clashA` and
  `clashB` say so of a check. `first` and `now` are the two clock readings that a check may take.
 */
module AntiReplay {
  import opened Bytes

  datatype Query = Query(first: int, now: int, sum: bytes, clashA: bool, clashB: bool)

  /** One finished check: whether the first pool took the value, the answer, and how many rotations had happened. */
  datatype Entry = Entry(now: int, sum: bytes, tookA: bool, accepted: bool, rotation: nat)

  /** `rotations` and `log` are history; the rest is what the program keeps. */
  datatype State = State(
    poolA: set<bytes>, poolB: set<bytes>, lastSwapTime: int, poolSwap: bool, rotations: nat, log: seq<Entry>)

  const NEW := State({}, {}, 0, false, 0, [])

  function Started(s: State, first: int): State {
    if s.lastSwapTime == 0 then s.(lastSwapTime := first, poolA := {}, poolB := {}) else s
  }

  function Rotated(s: State, window: int, now: int): State {
    if now - s.lastSwapTime < window then s
    else if s.poolSwap then s.(poolSwap := false, poolA := {}, lastSwapTime := now, rotations := s.rotations + 1)
    else s.(poolSwap := true, poolB := {}, lastSwapTime := now, rotations := s.rotations + 1)
  }

  /** The second pool is only asked when the first one took the value. */
  function Inserted(s: State, c: Query): State {
    var a, b := c.sum !in s.poolA && !c.clashA, c.sum !in s.poolB && !c.clashB;
    s.(poolA := if a then s.poolA + {c.sum} else s.poolA,
       poolB := if a && b then s.poolB + {c.sum} else s.poolB,
       log := s.log + [Entry(c.now, c.sum, a, a && b, s.rotations)])
  }

  function Step(window: int, s: State, c: Query): State {
    Inserted(Rotated(Started(s, c.first), window, c.now), c)
  }

  function Run(window: int, checks: seq<Query>): State {
    if checks == [] then NEW else Step(window, Run(window, checks[..|checks| - 1]), checks[|checks| - 1])
  }

  /** The clock never runs backwards and is past the epoch. */
  ghost predicate Clocked(checks: seq<Query>) {
    && (forall i :: 0 <= i < |checks| ==> 0 < checks[i].first <= checks[i].now)
    && (forall i, j :: 0 <= i < j < |checks| ==> checks[i].now <= checks[j].first)
  }

  // ---------- The program ----------

  class AntiReplayWindow {
    const antiReplayTime: int
    var poolA: set<bytes>
    var poolB: set<bytes>
    var lastSwapTime: int
    var poolSwap: bool
    ghost var rotations: nat
    ghost var log: seq<Entry>

    ghost function View(): State
      reads this
    {
      State(poolA, poolB, lastSwapTime, poolSwap, rotations, log)
    }

    constructor (antiReplayTime: int)
      ensures this.antiReplayTime == antiReplayTime && View() == NEW
    {
      this.antiReplayTime := antiReplayTime;
      poolA, poolB, lastSwapTime, poolSwap, rotations, log := {}, {}, 0, false, 0, [];
    }

    method Check(first: int, now: int, sum: bytes, clashA: bool, clashB: bool) returns (accepted: bool)
      modifies this
      ensures View() == Step(antiReplayTime, old(View()), Query(first, now, sum, clashA, clashB))
      ensures accepted == log[|log| - 1].accepted
    {
      if lastSwapTime == 0 {
        lastSwapTime := first;
        poolA, poolB := {}, {};
      }
      if now - lastSwapTime >= antiReplayTime {
        if poolSwap {
          poolSwap := false;
          poolA := {};
        } else {
          poolSwap := true;
          poolB := {};
        }
        lastSwapTime := now;
        rotations := rotations + 1;
      }
      accepted := false;
      ghost var took := sum !in poolA && !clashA;
      if sum !in poolA && !clashA {
        poolA := poolA + {sum};
        if sum !in poolB && !clashB {
          poolB := poolB + {sum};
          accepted := true;
        }
      }
      log := log + [Entry(now, sum, took, accepted, rotations)];
      assert View().poolB == Step(antiReplayTime, old(View()), Query(first, now, sum, clashA, clashB)).poolB;
    }
  }

  // ---------- What every check keeps ----------

  /** The rotation that emptied the pool last. Rotations 1, 3, 5, ... empty B and rotations 2, 4, 6, ... empty A. */
  function LastResetA(s: State): int {
    if s.poolSwap then s.rotations - 1 else s.rotations
  }

  function LastResetB(s: State): int {
    if s.poolSwap then s.rotations else s.rotations - 1
  }

  /** What was accepted stays in each pool until that pool is emptied. */
  ghost predicate Remembers(s: State, e: Entry) {
    && e.rotation <= s.rotations
    && (e.rotation >= LastResetA(s) && e.accepted ==> e.sum in s.poolA)
    && (e.rotation >= LastResetB(s) && e.accepted ==> e.sum in s.poolB)
  }

  /** Two rotations are a window apart, and the first one after a check comes later than that check. */
  ghost predicate Dated(window: int, s: State, now: int, e: Entry) {
    && e.now <= now
    && (window > 0 ==>
          && (e.rotation == s.rotations ==> e.now < s.lastSwapTime + window)
          && (e.rotation < s.rotations ==> e.now < s.lastSwapTime)
          && (e.rotation + 1 < s.rotations ==> e.now + window < s.lastSwapTime))
  }

  /** A value was asked about since rotation `since`. */
  ghost predicate Seen(s: State, sum: bytes, since: int) {
    exists i :: 0 <= i < |s.log| && s.log[i].sum == sum && s.log[i].rotation >= since
  }

  ghost predicate Inv(window: int, s: State, now: int) {
    && (s.lastSwapTime == 0 ==> s.log == [])
    && 0 <= s.lastSwapTime <= now
    && (forall i :: 0 <= i < |s.log| ==> Remembers(s, s.log[i]) && Dated(window, s, now, s.log[i]))
    && (forall sum :: sum in s.poolA ==> Seen(s, sum, LastResetA(s)))
    && (forall sum :: sum in s.poolB ==> Seen(s, sum, LastResetB(s)))
  }

  lemma RotatedKeeps(window: int, s: State, before: int, now: int)
    requires Inv(window, s, before) && before <= now && 0 < s.lastSwapTime
    ensures Inv(window, Rotated(s, window, now), now)
    ensures window > 0 ==> now < Rotated(s, window, now).lastSwapTime + window
  {
    var t := Rotated(s, window, now);
    forall i | 0 <= i < |t.log| ensures Remembers(t, t.log[i]) && Dated(window, t, now, t.log[i]) {
      assert Remembers(s, s.log[i]) && Dated(window, s, before, s.log[i]);
    }
    forall sum | sum in t.poolA ensures Seen(t, sum, LastResetA(t)) {
      assert Seen(s, sum, LastResetA(s));
    }
    forall sum | sum in t.poolB ensures Seen(t, sum, LastResetB(t)) {
      assert Seen(s, sum, LastResetB(s));
    }
  }

  lemma InsertedKeeps(window: int, s: State, c: Query)
    requires Inv(window, s, c.now) && 0 < s.lastSwapTime && (window > 0 ==> c.now < s.lastSwapTime + window)
    ensures Inv(window, Inserted(s, c), c.now)
  {
    var t, now, sum := Inserted(s, c), c.now, c.sum;
    var n := |s.log|;
    assert t.log[n].sum == sum && t.log[n].rotation == t.rotations;
    forall i | 0 <= i < |t.log| ensures Remembers(t, t.log[i]) && Dated(window, t, now, t.log[i]) {
      assert i < n ==> t.log[i] == s.log[i] && Remembers(s, s.log[i]) && Dated(window, s, now, s.log[i]);
    }
    forall v | v in t.poolA ensures Seen(t, v, LastResetA(t)) {
      if v in s.poolA {
        SeenStays(s, t, v, LastResetA(s));
      }
    }
    forall v | v in t.poolB ensures Seen(t, v, LastResetB(t)) {
      if v in s.poolB {
        SeenStays(s, t, v, LastResetB(s));
      }
    }
  }

  lemma SeenStays(s: State, t: State, sum: bytes, since: int)
    requires Seen(s, sum, since) && s.log <= t.log
    ensures Seen(t, sum, since)
  {
    var i :| 0 <= i < |s.log| && s.log[i].sum == sum && s.log[i].rotation >= since;
    assert t.log[i] == s.log[i];
  }

  lemma StartedKeeps(window: int, s: State, before: int, first: int)
    requires Inv(window, s, before) && before <= first && 0 < first
    ensures Inv(window, Started(s, first), first) && 0 < Started(s, first).lastSwapTime
  {
    var t := Started(s, first);
    forall i | 0 <= i < |t.log| ensures Remembers(t, t.log[i]) && Dated(window, t, first, t.log[i]) {
      assert Remembers(s, s.log[i]) && Dated(window, s, before, s.log[i]);
    }
    if s.lastSwapTime != 0 {
      assert t == s;
    }
  }

  lemma StepKeeps(window: int, s: State, before: int, c: Query)
    requires Inv(window, s, before) && before <= c.first <= c.now && 0 < c.first
    ensures Inv(window, Step(window, s, c), c.now)
  {
    hide Inv, Started, Rotated, Inserted;
    StartedKeeps(window, s, before, c.first);
    RotatedStarted(Started(s, c.first), window, c.now);
    RotatedKeeps(window, Started(s, c.first), c.first, c.now);
    InsertedKeeps(window, Rotated(Started(s, c.first), window, c.now), c);
  }

  lemma RotatedStarted(s: State, window: int, now: int)
    requires 0 < s.lastSwapTime <= now
    ensures 0 < Rotated(s, window, now).lastSwapTime
  {
  }

  /** The first pool takes the value. */
  predicate TakesFirst(s: State, c: Query) {
    c.sum !in s.poolA && !c.clashA
  }

  /** Both pools take the value. */
  predicate Accepts(s: State, c: Query) {
    c.sum !in s.poolA && c.sum !in s.poolB && !c.clashA && !c.clashB
  }

  lemma StepLogs(window: int, s: State, c: Query)
    ensures var t := Rotated(Started(s, c.first), window, c.now);
            && Step(window, s, c).log == s.log + [Entry(c.now, c.sum, TakesFirst(t, c), Accepts(t, c), t.rotations)]
            && t.log == s.log
  {
  }

  /** The log has one entry for each check. */
  ghost predicate Logged(log: seq<Entry>, checks: seq<Query>) {
    |log| == |checks| && forall i :: 0 <= i < |checks| ==> log[i].now == checks[i].now && log[i].sum == checks[i].sum
  }

  function Now(checks: seq<Query>): int {
    if checks == [] then 0 else checks[|checks| - 1].now
  }

  lemma {:induction false} RunKeeps(window: int, checks: seq<Query>)
    requires Clocked(checks)
    ensures Inv(window, Run(window, checks), Now(checks))
  {
    if checks != [] {
      hide Inv, Step;
      var n := |checks| - 1;
      RunKeeps(window, checks[..n]);
      StepKeeps(window, Run(window, checks[..n]), Now(checks[..n]), checks[n]);
    }
  }

  lemma {:induction false} RunLogs(window: int, checks: seq<Query>)
    ensures Logged(Run(window, checks).log, checks)
  {
    if checks != [] {
      hide Step;
      var n := |checks| - 1;
      RunLogs(window, checks[..n]);
      StepLogs(window, Run(window, checks[..n]), checks[n]);
    }
  }

  lemma {:induction false} LogStays(window: int, checks: seq<Query>, n: nat)
    requires n <= |checks|
    ensures Run(window, checks[..n]).log <= Run(window, checks).log
  {
    hide Step;
    if n < |checks| {
      var m := |checks| - 1;
      assert checks[..m][..n] == checks[..n];
      LogStays(window, checks[..m], n);
      StepLogs(window, Run(window, checks[..m]), checks[m]);
    } else {
      assert checks[..n] == checks;
    }
  }

  /** The state in which check `j` looks at the pools. */
  ghost function Asked(window: int, checks: seq<Query>, j: nat): State
    requires j < |checks|
  {
    Rotated(Started(Run(window, checks[..j]), checks[j].first), window, checks[j].now)
  }

  lemma AskedKeeps(window: int, checks: seq<Query>, j: nat)
    requires Clocked(checks) && j < |checks|
    ensures var s := Asked(window, checks, j);
            && Inv(window, s, checks[j].now) && Logged(s.log, checks[..j])
            && s.log <= Run(window, checks).log
            && |Run(window, checks).log| == |checks|
            && Run(window, checks).log[j] ==
               Entry(checks[j].now, checks[j].sum, TakesFirst(s, checks[j]), Accepts(s, checks[j]), s.rotations)
  {
    hide Inv, Step, Started, Rotated;
    RunKeeps(window, checks[..j]);
    RunLogs(window, checks[..j]);
    RunLogs(window, checks);
    var s := Run(window, checks[..j]);
    StartedKeeps(window, s, Now(checks[..j]), checks[j].first);
    RotatedKeeps(window, Started(s, checks[j].first), checks[j].first, checks[j].now);
    StepLogs(window, s, checks[j]);
    assert checks[..j + 1][..j] == checks[..j];
    assert Run(window, checks[..j + 1]) == Step(window, s, checks[j]);
    LogStays(window, checks, j + 1);
  }

  // ---------- Theorems ----------

  /** A value accepted at one time is refused by every later check up to and including one window after it. */
  lemma AcceptedIsRefusedForAWindow(window: int, checks: seq<Query>, i: nat, j: nat)
    requires Clocked(checks) && window > 0 && i < j < |checks| && checks[i].sum == checks[j].sum
    requires |Run(window, checks).log| == |checks| && Run(window, checks).log[i].accepted
    requires checks[j].now <= checks[i].now + window
    ensures !Run(window, checks).log[j].accepted
  {
    AskedKeeps(window, checks, j);
    var s := Asked(window, checks, j);
    var e := s.log[i];
    assert e == Run(window, checks).log[i] && e.now == checks[i].now && e.sum == checks[j].sum;
    assert Remembers(s, e) && Dated(window, s, checks[j].now, e);
  }

  /** A value is refused only through a clash, or if it was asked about before, at most one rotation ago. */
  lemma RefusedWasSeen(window: int, checks: seq<Query>, j: nat)
    requires Clocked(checks) && j < |checks|
    requires |Run(window, checks).log| == |checks| && !Run(window, checks).log[j].accepted
    ensures checks[j].clashA || checks[j].clashB
            || exists i :: 0 <= i < j && checks[i].sum == checks[j].sum
                           && Run(window, checks).log[j].rotation <= Run(window, checks).log[i].rotation + 1
  {
    AskedKeeps(window, checks, j);
    var s := Asked(window, checks, j);
    var sum := checks[j].sum;
    if !checks[j].clashA && !checks[j].clashB {
      var since := if sum in s.poolA then LastResetA(s) else LastResetB(s);
      assert Seen(s, sum, since);
      var i :| 0 <= i < |s.log| && s.log[i].sum == sum && s.log[i].rotation >= since;
      assert checks[..j][i].sum == checks[i].sum && s.log[i] == Run(window, checks).log[i];
    }
  }

  /** A value that is asked about for the first time is accepted exactly when no pool takes it for one it holds. */
  lemma UnseenIsAccepted(window: int, checks: seq<Query>, j: nat)
    requires Clocked(checks) && j < |checks| && forall i :: 0 <= i < j ==> checks[i].sum != checks[j].sum
    ensures |Run(window, checks).log| == |checks|
    ensures Run(window, checks).log[j].accepted <==> !checks[j].clashA && !checks[j].clashB
  {
    AskedKeeps(window, checks, j);
    if !Run(window, checks).log[j].accepted && !checks[j].clashA && !checks[j].clashB {
      RefusedWasSeen(window, checks, j);
    }
  }

  // ---------- Exact acceptance ----------

  /** The clock of the rotations: the time of the last one, or of the start, and how many there were. */
  function Rotation(window: int, checks: seq<Query>): (int, nat) {
    if checks == [] then (0, 0)
    else
      var n := |checks| - 1;
      var (time, count) := Rotation(window, checks[..n]);
      var since := if n == 0 then checks[0].first else time;
      if checks[n].now - since >= window then (checks[n].now, count + 1) else (since, count)
  }

  /** The first pool took the value since rotation `since`. */
  ghost predicate TakenByA(log: seq<Entry>, sum: bytes, since: int) {
    exists i :: 0 <= i < |log| && log[i].sum == sum && log[i].tookA && log[i].rotation >= since
  }

  ghost predicate TakenByB(log: seq<Entry>, sum: bytes, since: int) {
    exists i :: 0 <= i < |log| && log[i].sum == sum && log[i].accepted && log[i].rotation >= since
  }

  /** A pool holds exactly what it took since it was last emptied. */
  ghost predicate Exact(s: State) {
    && (s.poolSwap <==> s.rotations % 2 == 1)
    && (forall i :: 0 <= i < |s.log| ==> s.log[i].rotation <= s.rotations)
    && (forall sum :: sum in s.poolA <==> TakenByA(s.log, sum, LastResetA(s)))
    && (forall sum :: sum in s.poolB <==> TakenByB(s.log, sum, LastResetB(s)))
  }

  lemma RotatedExact(s: State, window: int, now: int)
    requires Exact(s)
    ensures Exact(Rotated(s, window, now))
  {
    var t := Rotated(s, window, now);
    forall sum ensures sum in t.poolA <==> TakenByA(t.log, sum, LastResetA(t)) {
      assert sum in s.poolA <==> TakenByA(s.log, sum, LastResetA(s));
    }
    forall sum ensures sum in t.poolB <==> TakenByB(t.log, sum, LastResetB(t)) {
      assert sum in s.poolB <==> TakenByB(s.log, sum, LastResetB(s));
    }
  }

  lemma TakenGrows(log: seq<Entry>, e: Entry, sum: bytes, since: int)
    ensures TakenByA(log + [e], sum, since)
            <==> TakenByA(log, sum, since) || (e.sum == sum && e.tookA && e.rotation >= since)
    ensures TakenByB(log + [e], sum, since)
            <==> TakenByB(log, sum, since) || (e.sum == sum && e.accepted && e.rotation >= since)
  {
    var more := log + [e];
    assert more[|log|] == e && forall i :: 0 <= i < |log| ==> more[i] == log[i];
  }

  lemma InsertedExact(s: State, c: Query)
    requires Exact(s)
    ensures Exact(Inserted(s, c))
  {
    var t := Inserted(s, c);
    var e := t.log[|s.log|];
    hide TakenByA, TakenByB;
    forall sum ensures sum in t.poolA <==> TakenByA(t.log, sum, LastResetA(t)) {
      TakenGrows(s.log, e, sum, LastResetA(s));
    }
    forall sum ensures sum in t.poolB <==> TakenByB(t.log, sum, LastResetB(t)) {
      TakenGrows(s.log, e, sum, LastResetB(s));
    }
  }

  lemma StartedExact(s: State, first: int)
    requires Exact(s) && (s.lastSwapTime == 0 ==> s.log == [])
    ensures Exact(Started(s, first))
  {
    if s.lastSwapTime == 0 {
      forall sum ensures sum !in s.poolA && sum !in s.poolB {
        assert !TakenByA([], sum, LastResetA(s)) && !TakenByB([], sum, LastResetB(s));
      }
    }
  }

  ghost predicate OnTime(s: State, clock: (int, nat)) {
    s.lastSwapTime == clock.0 && s.rotations == clock.1
  }

  lemma {:induction false} AskedIsExact(window: int, checks: seq<Query>, j: nat)
    requires Clocked(checks) && j < |checks|
    ensures Exact(Asked(window, checks, j)) && OnTime(Asked(window, checks, j), Rotation(window, checks[..j + 1]))
    ensures Asked(window, checks, j).lastSwapTime > 0
    decreases |checks|, 0
  {
    hide Exact, Rotated, Started;
    RunIsExact(window, checks[..j]);
    assert checks[..j + 1][..j] == checks[..j];
    var s := Run(window, checks[..j]);
    assert 0 <= s.lastSwapTime && (s.lastSwapTime == 0 ==> s.log == []) by {
      RunKeeps(window, checks[..j]);
    }
    hide Run;
    AskedIsStarted(window, s, checks[j]);
    StartedExact(s, checks[j].first);
    RotatedExact(Started(s, checks[j].first), window, checks[j].now);
    AskedOnTime(window, s, checks[..j + 1]);
  }

  lemma AskedOnTime(window: int, s: State, checks: seq<Query>)
    requires checks != [] && OnTime(s, Rotation(window, checks[..|checks| - 1]))
    requires s.lastSwapTime == 0 <==> |checks| == 1
    ensures var c := checks[|checks| - 1];
            OnTime(Rotated(Started(s, c.first), window, c.now), Rotation(window, checks))
  {
  }

  lemma {:induction false} RunIsExact(window: int, checks: seq<Query>)
    requires Clocked(checks)
    ensures Exact(Run(window, checks)) && OnTime(Run(window, checks), Rotation(window, checks))
    ensures Run(window, checks).lastSwapTime == 0 <==> checks == []
    decreases |checks|, 1
  {
    if checks != [] {
      hide Exact, Rotation;
      var j := |checks| - 1;
      AskedIsExact(window, checks, j);
      assert checks[..j + 1] == checks && Run(window, checks) == Inserted(Asked(window, checks, j), checks[j]);
      hide Run, Asked;
      InsertedExact(Asked(window, checks, j), checks[j]);
    } else {
      NewIsExact();
    }
  }

  lemma NewIsExact()
    ensures Exact(NEW)
  {
    assert forall sum, since :: !TakenByA([], sum, since) && !TakenByB([], sum, since);
  }

  lemma AskedIsStarted(window: int, s: State, c: Query)
    requires 0 <= s.lastSwapTime && 0 < c.first <= c.now
    ensures Rotated(Started(s, c.first), window, c.now).lastSwapTime > 0
  {
  }

  /**
    Exactly when a value is accepted: the first pool takes it unless it clashes there or that pool took it since it was
    last emptied, by rotation 2, 4, 6, ...; the second pool then accepts it unless it clashes there or was accepted
    since that pool was last emptied, by rotation 1, 3, 5, ...
   */
  lemma {:induction false} AcceptedExactlyWhen(window: int, checks: seq<Query>, j: nat)
    requires Clocked(checks) && j < |checks|
    ensures var log := Run(window, checks).log;
            && |log| == |checks| && log[j].rotation == Rotation(window, checks[..j + 1]).1
            && var r, sum := log[j].rotation, checks[j].sum;
               && (log[j].tookA <==> !checks[j].clashA && !TakenByA(log[..j], sum, r - r % 2))
               && (log[j].accepted <==>
                     log[j].tookA && !checks[j].clashB && !TakenByB(log[..j], sum, r - (r + 1) % 2))
  {
    hide TakenByA, TakenByB, Inv, Rotation, Run;
    AskedKeeps(window, checks, j);
    AskedIsExact(window, checks, j);
    var s := Asked(window, checks, j);
    assert Run(window, checks).log[..j] == s.log;
    hide Asked;
    assert LastResetA(s) == s.rotations - s.rotations % 2 && LastResetB(s) == s.rotations - (s.rotations + 1) % 2;
  }

  /** A run in which a value is accepted, and again one time unit after its window. */
  function TightRun(window: int): seq<Query> {
    [Query(1, 1, [1], false, false),
     Query(window, window, [2], false, false),
     Query(window + 1, window + 1, [3], false, false),
     Query(2 * window + 1, 2 * window + 1, [2], false, false)]
  }

  lemma RunStep(window: int, checks: seq<Query>, n: nat)
    requires n < |checks|
    ensures Run(window, checks[..n + 1]) == Step(window, Run(window, checks[..n]), checks[n])
  {
    assert checks[..n + 1][..n] == checks[..n];
  }

  /** The bound is tight, whatever the window: one time unit later the value can be accepted again. */
  lemma WindowIsTight(window: int)
    requires window > 0
    ensures var checks := TightRun(window);
            var s := Run(window, checks);
            && Clocked(checks) && |s.log| == 4 && s.log[1].accepted && s.log[3].accepted
            && checks[3].sum == checks[1].sum && checks[3].now == checks[1].now + window + 1
  {
    var checks := TightRun(window);
    assert Run(window, checks[..0]) == NEW;
    RunStep(window, checks, 0);
    RunStep(window, checks, 1);
    RunStep(window, checks, 2);
    RunStep(window, checks, 3);
    hide Run;
    assert checks[..4] == checks;
    var s1, s2 := Run(window, checks[..1]), Run(window, checks[..2]);
    var s3, s4 := Run(window, checks[..3]), Run(window, checks);
    var e1 := Entry(1, [1], true, true, 0);
    var e2 := Entry(window, [2], true, true, 0);
    assert s1 == State({[1]}, {[1]}, 1, false, 0, [e1]);
    assert s2 == State({[1], [2]}, {[1], [2]}, 1, false, 0, [e1, e2]);
    assert s3 == State({[1], [2], [3]}, {[3]}, window + 1, true, 1, [e1, e2, Entry(window + 1, [3], true, true, 1)]);
  }
}
