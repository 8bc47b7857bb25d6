/**
  One thread alone: while no other thread moves, the ring buffer is a bounded first-in first-out queue. Put finishes
  exactly when there is room and Get exactly when there is an item; otherwise they wait.
 */
module RingBufferQueue {
  import opened Bytes
  import opened RingBuffer
  import opened RingBufferProof

  /** The ticket of a finished get has left its node. */
  ghost predicate Released<T>(x: State<T>)
    requires Shape(x)
  {
    forall p :: p in x.gets ==> OwnerOf(x, p) > p
  }

  ghost predicate Idling<T>(x: State<T>) {
    forall u :: u in x.threads ==> x.threads[u] == Idle
  }

  /** A reachable buffer in which no call is under way. */
  ghost predicate Quiet<T>(x: State<T>) {
    Inv(x) && Released(x) && !x.disposed && Idling(x)
  }

  function Contents<T>(x: State<T>): seq<T>
    requires x.dequeue <= x.queue <= |x.puts|
  {
    x.puts[x.dequeue..x.queue]
  }

  /** Thread `t` takes `k` steps, and no other thread any. */
  function Alone<T>(x: State<T>, t: nat, k: nat): (y: State<T>)
    requires |x.nodes| > 0 && |x.owner| == |x.nodes|
    ensures |y.nodes| == |x.nodes| && |y.owner| == |x.owner|
  {
    if k == 0 then x else Step(Alone(x, t, k - 1), Move(t, Continue))
  }

  /** Only the release of a get changes what nodes serve and what gets have returned. */
  lemma StepReleases<T>(x: State<T>, m: Move<T>)
    requires |x.nodes| > 0 && |x.owner| == |x.nodes|
    ensures var y, pc := Step(x, m), PcOf(x, m.thread);
            if pc.GetRelease? then
              y.owner == x.owner[At(pc.pos, |x.nodes|) := pc.pos + |x.nodes|] && y.gets == x.gets[pc.pos := pc.data]
            else y.owner == x.owner && y.gets == x.gets
  {
    hide At;
  }

  lemma ReleasedKeeps<T>(x: State<T>, m: Move<T>)
    requires Inv(x) && Released(x)
    ensures Inv(Step(x, m)) && Released(Step(x, m))
  {
    StepKeeps(x, m);
    StepReleases(x, m);
    hide At, Step, Nodes, Held;
    var y, pc := Step(x, m), PcOf(x, m.thread);
    if pc.GetRelease? {
      assert Reading(x, m.thread, pc.pos) by {
        assert ThreadOk(x, m.thread, x.threads[m.thread]);
      }
      hide Threads;
      forall p | p in y.gets ensures OwnerOf(y, p) > p {
        assert p != pc.pos ==> OwnerOf(x, p) > p;
      }
    }
  }

  lemma {:induction false} RunIsReleased<T>(n: nat, moves: seq<Move<T>>)
    requires n >= 2
    ensures Inv(Run(n, moves)) && Released(Run(n, moves))
  {
    if moves == [] {
      InitInv<T>(n);
    } else {
      RunIsReleased(n, moves[..|moves| - 1]);
      ReleasedKeeps(Run(n, moves[..|moves| - 1]), moves[|moves| - 1]);
    }
  }

  // ---------- What the next node looks like ----------

  lemma NextPutNode<T>(x: State<T>)
    requires Quiet(x)
    ensures NodeOf(x, x.queue).position == x.queue <==> x.queue < x.dequeue + |x.nodes|
  {
    hide At;
    var n, q := |x.nodes|, x.queue;
    var o := OwnerOf(x, q);
    assert NodeOk(x, At(q, n)) && PutHeld(x, At(q, n));
    if q == x.dequeue + n {
      AtShift(x.dequeue, n);
      WaitingTicket(x, x.dequeue);
    } else if o > q {
      AtApart(q, o, n);
    } else if o < q {
      AtApart(o, q, n);
      FinishedTicketIsGone(x, o);
    }
  }

  lemma FinishedTicketIsGone<T>(x: State<T>, p: nat)
    requires Quiet(x) && p < x.dequeue
    ensures OwnerOf(x, p) > p
  {
    hide At;
    assert GetHeld(x, p);
  }

  lemma NextGetNode<T>(x: State<T>)
    requires Quiet(x)
    ensures NodeOf(x, x.dequeue).position == x.dequeue + 1 <==> x.dequeue < x.queue
    ensures x.dequeue < x.queue ==> NodeOf(x, x.dequeue).data == Some(x.puts[x.dequeue])
  {
    hide At;
    if x.dequeue < x.queue {
      WaitingTicket(x, x.dequeue);
      assert NodeOk(x, At(x.dequeue, |x.nodes|)) && PutHeld(x, At(x.dequeue, |x.nodes|));
    } else {
      NextPutNode(x);
    }
  }

  // ---------- Put ----------

  ghost predicate OthersIdle<T>(x: State<T>, t: nat) {
    forall u :: u in x.threads && u != t ==> x.threads[u] == Idle
  }

  function PutPc<T>(item: T, pos: nat, k: nat): Pc<T> {
    match k
    case 0 => PutStart(item)
    case 1 => PutLoop(item, pos)
    case 2 => PutLook(item, pos)
    case 3 => PutCas(item, pos)
    case 4 => PutWrite(item, pos)
    case 5 => PutPublish(item, pos)
    case _ => Idle
  }

  /** A put that started in state `x`, `k` steps later. */
  ghost predicate Putting<T>(x: State<T>, y: State<T>, t: nat, item: T, k: nat)
    requires |x.nodes| > 0
  {
    && |y.nodes| == |x.nodes| && |y.owner| == |x.owner| && !y.disposed && OthersIdle(y, t)
    && PcOf(y, t) == PutPc(item, x.queue, k) && y.dequeue == x.dequeue
    && (if k < 4 then y.queue == x.queue && y.puts == x.puts else y.queue == x.queue + 1 && y.puts == x.puts + [item])
    && (k < 6 ==> NodeOf(y, x.queue).position == x.queue)
  }

  lemma PuttingStep<T>(x: State<T>, y: State<T>, t: nat, item: T, k: nat)
    requires |x.nodes| > 0 && |x.owner| == |x.nodes| && k < 6 && Putting(x, y, t, item, k)
    ensures Putting(x, Step(y, Move(t, Continue)), t, item, k + 1)
  {
    hide At;
  }

  /** Waiting for room: a thread that goes round the first three steps of Put. */
  ghost predicate PutWaits<T>(x: State<T>, y: State<T>, t: nat, item: T) {
    && y.nodes == x.nodes && y.owner == x.owner && !y.disposed && y.queue == x.queue && y.dequeue == x.dequeue
    && y.puts == x.puts && exists k :: 0 <= k < 3 && PcOf(y, t) == PutPc(item, x.queue, k)
  }

  lemma PutWaitsStep<T>(x: State<T>, y: State<T>, t: nat, item: T)
    requires |x.nodes| > 0 && |x.owner| == |x.nodes| && NodeOf(x, x.queue).position != x.queue
    requires PutWaits(x, y, t, item)
    ensures PutWaits(x, Step(y, Move(t, Continue)), t, item)
  {
    hide At;
    var j :| 0 <= j < 3 && PcOf(y, t) == PutPc(item, x.queue, j);
    assert PcOf(Step(y, Move(t, Continue)), t) == PutPc(item, x.queue, if j == 2 then 0 else j + 1);
  }

  lemma {:induction false} PutWaitsOn<T>(x: State<T>, y: State<T>, t: nat, item: T, k: nat)
    requires |x.nodes| > 0 && |x.owner| == |x.nodes| && NodeOf(x, x.queue).position != x.queue
    requires PutWaits(x, y, t, item)
    ensures |y.nodes| > 0 && |y.owner| == |y.nodes| && PutWaits(x, Alone(y, t, k), t, item)
  {
    hide Step;
    if k > 0 {
      PutWaitsOn(x, y, t, item, k - 1);
      PutWaitsStep(x, Alone(y, t, k - 1), t, item);
    }
  }

  lemma CallPutStarts<T>(x: State<T>, t: nat, item: T)
    requires Quiet(x)
    ensures var y := Step(x, Move(t, CallPut(item)));
            && Inv(y) && Released(y) && OthersIdle(y, t) && PcOf(y, t) == PutPc(item, x.queue, 0)
            && y == x.(threads := x.threads[t := PutStart(item)])
  {
    ReleasedKeeps(x, Move(t, CallPut(item)));
    hide Inv, Released;
  }

  lemma {:induction false} PutGoesThrough<T>(x: State<T>, y: State<T>, t: nat, item: T, k: nat)
    requires |x.nodes| > 0 && |x.owner| == |x.nodes| && k <= 6
    requires |y.nodes| > 0 && |y.owner| == |y.nodes| && Inv(y) && Released(y) && Putting(x, y, t, item, 0)
    ensures var z := Alone(y, t, k); Inv(z) && Released(z) && Putting(x, z, t, item, k)
  {
    hide Inv, Released, Putting;
    if k > 0 {
      PutGoesThrough(x, y, t, item, k - 1);
      ReleasedKeeps(Alone(y, t, k - 1), Move(t, Continue));
      PuttingStep(x, Alone(y, t, k - 1), t, item, k - 1);
    }
  }

  /** The call returns at some time. */
  ghost predicate Finishes<T>(x: State<T>, t: nat)
    requires |x.nodes| > 0 && |x.owner| == |x.nodes|
  {
    exists k :: PcOf(Alone(x, t, k), t) == Idle
  }

  lemma PutDone<T>(x: State<T>, y: State<T>, t: nat, item: T)
    requires Quiet(x) && Inv(y) && Released(y) && Putting(x, y, t, item, 6)
    ensures Quiet(y) && Contents(y) == Contents(x) + [item]
  {
    hide Nodes, Threads, Held, Released;
    forall u | u in y.threads ensures y.threads[u] == Idle {
      assert u == t ==> PcOf(y, t) == Idle;
    }
  }

  /** A put that runs alone finishes exactly when there is room, and then appends its item. */
  lemma PutAppendsExactlyWithRoom<T>(x: State<T>, t: nat, item: T)
    requires Quiet(x)
    ensures var y := Step(x, Move(t, CallPut(item)));
            && (Finishes(y, t) <==> |Contents(x)| < |x.nodes|)
            && (|Contents(x)| < |x.nodes| ==>
                  var z := Alone(y, t, 6); Quiet(z) && |z.nodes| == |x.nodes| && Contents(z) == Contents(x) + [item])
  {
    var y := Step(x, Move(t, CallPut(item)));
    CallPutStarts(x, t, item);
    NextPutNode(x);
    hide Alone, Nodes, Threads, Held, Released, Step;
    if |Contents(x)| < |x.nodes| {
      PutGoesThrough(x, y, t, item, 6);
      PutDone(x, Alone(y, t, 6), t, item);
    } else {
      assert PutWaits(x, y, t, item);
      forall k: nat ensures PcOf(Alone(y, t, k), t) != Idle {
        PutWaitsOn(x, y, t, item, k);
      }
    }
  }

  // ---------- Get ----------

  function GetPc<T>(pos: nat, k: nat, data: Option<T>): Pc<T> {
    match k
    case 0 => GetStart
    case 1 => GetLoop(pos)
    case 2 => GetLook(pos)
    case 3 => GetCas(pos)
    case 4 => GetRead(pos)
    case 5 => GetClear(pos, data)
    case 6 => GetRelease(pos, data)
    case _ => Idle
  }

  /** A get that started in state `x`, `k` steps later. */
  ghost predicate Getting<T>(x: State<T>, y: State<T>, t: nat, data: Option<T>, k: nat)
    requires |x.nodes| > 0
  {
    && |y.nodes| == |x.nodes| && |y.owner| == |x.owner| && !y.disposed && OthersIdle(y, t)
    && PcOf(y, t) == GetPc(x.dequeue, k, data) && y.queue == x.queue && y.puts == x.puts
    && y.dequeue == (if k < 4 then x.dequeue else x.dequeue + 1)
    && (k < 4 ==> NodeOf(y, x.dequeue).position == x.dequeue + 1)
    && (k < 5 ==> NodeOf(y, x.dequeue).data == data)
    && (k == 7 ==> x.dequeue in y.gets && y.gets[x.dequeue] == data)
  }

  lemma GettingStep<T>(x: State<T>, y: State<T>, t: nat, data: Option<T>, k: nat)
    requires |x.nodes| > 0 && |x.owner| == |x.nodes| && k < 7 && Getting(x, y, t, data, k)
    ensures Getting(x, Step(y, Move(t, Continue)), t, data, k + 1)
  {
    if k < 4 {
      GetClaims(x, y, t, data, k);
    } else {
      GetReturns(x, y, t, data, k);
    }
  }

  lemma GetClaims<T>(x: State<T>, y: State<T>, t: nat, data: Option<T>, k: nat)
    requires |x.nodes| > 0 && |x.owner| == |x.nodes| && k < 4 && Getting(x, y, t, data, k)
    ensures Getting(x, Step(y, Move(t, Continue)), t, data, k + 1)
  {
    hide At;
  }

  lemma GetReturns<T>(x: State<T>, y: State<T>, t: nat, data: Option<T>, k: nat)
    requires |x.nodes| > 0 && |x.owner| == |x.nodes| && 4 <= k < 7 && Getting(x, y, t, data, k)
    ensures Getting(x, Step(y, Move(t, Continue)), t, data, k + 1)
  {
    hide At;
  }

  /** Waiting for an item: a thread that goes round the first three steps of Get. */
  ghost predicate GetWaits<T>(x: State<T>, y: State<T>, t: nat) {
    && y.nodes == x.nodes && y.owner == x.owner && !y.disposed && y.queue == x.queue && y.dequeue == x.dequeue
    && y.puts == x.puts && exists k :: 0 <= k < 3 && PcOf(y, t) == GetPc(x.dequeue, k, None)
  }

  lemma GetWaitsStep<T>(x: State<T>, y: State<T>, t: nat)
    requires |x.nodes| > 0 && |x.owner| == |x.nodes| && NodeOf(x, x.dequeue).position != x.dequeue + 1
    requires GetWaits(x, y, t)
    ensures GetWaits(x, Step(y, Move(t, Continue)), t)
  {
    hide At;
    var j :| 0 <= j < 3 && PcOf(y, t) == GetPc(x.dequeue, j, None);
    assert PcOf(Step(y, Move(t, Continue)), t) == GetPc(x.dequeue, if j == 2 then 0 else j + 1, None);
  }

  lemma {:induction false} GetWaitsOn<T>(x: State<T>, y: State<T>, t: nat, k: nat)
    requires |x.nodes| > 0 && |x.owner| == |x.nodes| && NodeOf(x, x.dequeue).position != x.dequeue + 1
    requires GetWaits(x, y, t)
    ensures |y.nodes| > 0 && |y.owner| == |y.nodes| && GetWaits(x, Alone(y, t, k), t)
  {
    hide Step;
    if k > 0 {
      GetWaitsOn(x, y, t, k - 1);
      GetWaitsStep(x, Alone(y, t, k - 1), t);
    }
  }

  lemma CallGetStarts<T>(x: State<T>, t: nat, data: Option<T>)
    requires Quiet(x)
    ensures var y := Step(x, Move(t, CallGet));
            && Inv(y) && Released(y) && OthersIdle(y, t) && PcOf(y, t) == GetPc(x.dequeue, 0, data)
            && y == x.(threads := x.threads[t := GetStart])
  {
    ReleasedKeeps(x, Move(t, CallGet));
    hide Inv, Released;
  }

  lemma {:induction false} GetGoesThrough<T>(x: State<T>, y: State<T>, t: nat, data: Option<T>, k: nat)
    requires |x.nodes| > 0 && |x.owner| == |x.nodes| && k <= 7
    requires |y.nodes| > 0 && |y.owner| == |y.nodes| && Inv(y) && Released(y) && Getting(x, y, t, data, 0)
    ensures var z := Alone(y, t, k); Inv(z) && Released(z) && Getting(x, z, t, data, k)
  {
    hide Inv, Released, Getting;
    if k > 0 {
      GetGoesThrough(x, y, t, data, k - 1);
      ReleasedKeeps(Alone(y, t, k - 1), Move(t, Continue));
      GettingStep(x, Alone(y, t, k - 1), t, data, k - 1);
    }
  }

  lemma GetDone<T>(x: State<T>, y: State<T>, t: nat)
    requires Quiet(x) && x.dequeue < x.queue && Inv(y) && Released(y) && Getting(x, y, t, Some(x.puts[x.dequeue]), 7)
    ensures Quiet(y) && Contents(y) == Contents(x)[1..] && x.dequeue in y.gets
    ensures y.gets[x.dequeue] == Some(Contents(x)[0])
  {
    hide Nodes, Threads, Held, Released;
    forall u | u in y.threads ensures y.threads[u] == Idle {
      assert u == t ==> PcOf(y, t) == Idle;
    }
  }

  /** A get that runs alone finishes exactly when there is an item, and then returns and removes the first one. */
  lemma GetTakesTheFirstExactlyIfThereIsOne<T>(x: State<T>, t: nat)
    requires Quiet(x)
    ensures var y := Step(x, Move(t, CallGet));
            && (Finishes(y, t) <==> |Contents(x)| > 0)
            && (|Contents(x)| > 0 ==>
                  var z := Alone(y, t, 7);
                  && Quiet(z) && |z.nodes| == |x.nodes| && Contents(z) == Contents(x)[1..]
                  && x.dequeue in z.gets && z.gets[x.dequeue] == Some(Contents(x)[0]))
  {
    var y := Step(x, Move(t, CallGet));
    NextGetNode(x);
    if |Contents(x)| > 0 {
      var data := Some(x.puts[x.dequeue]);
      CallGetStarts(x, t, data);
      hide Alone, Nodes, Threads, Held, Released, Step;
      GetGoesThrough(x, y, t, data, 7);
      GetDone(x, Alone(y, t, 7), t);
    } else {
      CallGetStarts(x, t, None);
      hide Alone, Nodes, Threads, Held, Released, Step;
      assert GetWaits(x, y, t);
      forall k: nat ensures PcOf(Alone(y, t, k), t) != Idle {
        GetWaitsOn(x, y, t, k);
      }
    }
  }

  /** A new buffer is quiet and empty. */
  lemma NewBufferIsEmpty<T>(n: nat)
    requires n >= 2
    ensures Quiet(Init<T>(n)) && Contents(Init<T>(n)) == [] && |Init<T>(n).nodes| == n
  {
    InitInv<T>(n);
  }
}
