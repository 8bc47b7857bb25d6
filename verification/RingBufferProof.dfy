/**
  Why the ring buffer is a first-in first-out queue in every interleaving.
 */
module RingBufferProof {
  import opened Bytes
  import Bits
  import opened RingBuffer

  // ---------- Invariant ----------

  /** The node of ticket `p`. */
  function NodeOf<T>(x: State<T>, p: nat): Node<T>
    requires |x.nodes| > 0
  {
    x.nodes[At(p, |x.nodes|)]
  }

  /** The ticket that the node of ticket `p` serves. */
  function OwnerOf<T>(x: State<T>, p: nat): nat
    requires |x.nodes| > 0 && |x.owner| == |x.nodes|
  {
    x.owner[At(p, |x.nodes|)]
  }

  ghost predicate Shape<T>(x: State<T>) {
    && |x.nodes| >= 2 && |x.owner| == |x.nodes|
    && |x.puts| == |x.putters| == x.queue && |x.getters| == x.dequeue
    && x.dequeue <= x.queue <= x.dequeue + |x.nodes|
  }

  /**
    A node serves ticket `o`. It is either free for the put of that ticket, which no get has claimed then, or
    it holds the item of that put. All earlier tickets of the node are finished, all later ones unclaimed.
   */
  ghost predicate NodeOk<T>(x: State<T>, i: nat)
    requires Shape(x) && i < |x.nodes|
  {
    var o, n, node := x.owner[i], |x.nodes|, x.nodes[i];
    && At(o, n) == i && x.queue <= o + n && o < x.dequeue + n
    && if node.position == o then x.dequeue <= o
       else node.position == o + 1 && o < x.queue && (x.dequeue <= o ==> node.data == Some(x.puts[o]))
  }

  /** Thread `t` has claimed put ticket `pos` and not yet published its item. */
  ghost predicate Writing<T>(x: State<T>, t: nat, item: T, pos: nat)
    requires Shape(x)
  {
    && pos < x.queue && x.puts[pos] == item && x.putters[pos] == t
    && OwnerOf(x, pos) == pos && NodeOf(x, pos).position == pos
  }

  /** Thread `t` has claimed get ticket `pos` and not yet released the node. */
  ghost predicate Reading<T>(x: State<T>, t: nat, pos: nat)
    requires Shape(x)
  {
    && pos < x.dequeue && x.getters[pos] == t && pos !in x.gets
    && OwnerOf(x, pos) == pos && NodeOf(x, pos).position == pos + 1
  }

  ghost predicate ThreadOk<T>(x: State<T>, t: nat, pc: Pc<T>)
    requires Shape(x)
  {
    match pc
    case PutCas(_, pos) => NodeOf(x, pos).position >= pos
    case PutWrite(item, pos) => Writing(x, t, item, pos)
    case PutPublish(item, pos) => Writing(x, t, item, pos) && NodeOf(x, pos).data == Some(item)
    case GetCas(pos) => NodeOf(x, pos).position >= pos + 1
    case GetRead(pos) => Reading(x, t, pos) && NodeOf(x, pos).data == Some(x.puts[pos])
    case GetClear(pos, data) => Reading(x, t, pos) && data == Some(x.puts[pos])
    case GetRelease(pos, data) => Reading(x, t, pos) && data == Some(x.puts[pos])
    case _ => true
  }

  predicate PutsAt<T>(pc: Pc<T>, p: nat) {
    (pc.PutWrite? || pc.PutPublish?) && pc.pos == p
  }

  predicate GetsAt<T>(pc: Pc<T>, p: nat) {
    (pc.GetRead? || pc.GetClear? || pc.GetRelease?) && pc.pos == p
  }

  /** A free node whose put ticket is claimed is in the hands of the thread that claimed it. */
  ghost predicate PutHeld<T>(x: State<T>, i: nat)
    requires Shape(x) && i < |x.nodes|
  {
    x.nodes[i].position == x.owner[i] && x.owner[i] < x.queue ==>
      PutsAt(PcOf(x, x.putters[x.owner[i]]), x.owner[i])
  }

  /** A claimed get ticket has been answered with the item of the same put ticket, or its thread is still at it. */
  ghost predicate GetHeld<T>(x: State<T>, p: nat)
    requires Shape(x) && p < x.dequeue
  {
    if p in x.gets then x.gets[p] == Some(x.puts[p]) else GetsAt(PcOf(x, x.getters[p]), p)
  }

  ghost predicate Nodes<T>(x: State<T>)
    requires Shape(x)
  {
    forall i :: 0 <= i < |x.nodes| ==> NodeOk(x, i)
  }

  ghost predicate Threads<T>(x: State<T>)
    requires Shape(x)
  {
    forall t :: t in x.threads ==> ThreadOk(x, t, x.threads[t])
  }

  ghost predicate Held<T>(x: State<T>)
    requires Shape(x)
  {
    && (forall i :: 0 <= i < |x.nodes| ==> PutHeld(x, i))
    && (forall p :: 0 <= p < x.dequeue ==> GetHeld(x, p))
    && (forall p :: p in x.gets ==> p < x.dequeue)
  }

  ghost predicate Inv<T>(x: State<T>) {
    Shape(x) && Nodes(x) && Threads(x) && Held(x)
  }

  lemma InitInv<T>(n: nat)
    requires n >= 2
    ensures Inv(Init<T>(n))
  {
    var x := Init<T>(n);
    forall i | 0 <= i < n ensures NodeOk(x, i) {
      Bits.RemainderIsUnique(i, n, 0, i);
    }
  }

  // ---------- The two compare-and-swaps ----------

  /** When a put wins its swap, its node is free for it, although it looked at the node some time ago. */
  lemma PutWins<T>(x: State<T>, pos: nat)
    requires Shape(x) && Nodes(x) && x.queue == pos && NodeOf(x, pos).position >= pos
    ensures OwnerOf(x, pos) == pos && NodeOf(x, pos).position == pos && x.queue < x.dequeue + |x.nodes|
  {
    hide At;
    var n := |x.nodes|;
    var o := OwnerOf(x, pos);
    assert NodeOk(x, At(pos, n));
    if o > pos {
      AtApart(pos, o, n);
    } else if o < pos {
      AtApart(o, pos, n);
    }
  }

  /** When a get wins its swap, its node holds the item of the put with the same ticket. */
  lemma GetWins<T>(x: State<T>, pos: nat)
    requires Shape(x) && Nodes(x) && x.dequeue == pos && NodeOf(x, pos).position >= pos + 1
    ensures OwnerOf(x, pos) == pos && NodeOf(x, pos).position == pos + 1 && pos < x.queue
    ensures NodeOf(x, pos).data == Some(x.puts[pos])
  {
    hide At;
    var n := |x.nodes|;
    var o := OwnerOf(x, pos);
    assert NodeOk(x, At(pos, n));
    if o > pos {
      AtApart(pos, o, n);
    }
  }

  // ---------- Preservation ----------

  /** A step that changes nothing but a program counter. */
  lemma {:induction false} LocalKeeps<T>(x: State<T>, y: State<T>, t: nat, pc: Pc<T>)
    requires Inv(x) && ThreadOk(x, t, pc) && y == Goto(x, t, pc)
    requires forall p: nat :: PutsAt(PcOf(x, t), p) ==> PutsAt(pc, p)
    requires forall p: nat :: GetsAt(PcOf(x, t), p) ==> GetsAt(pc, p)
    ensures Inv(y)
  {
    hide At;
    forall i | 0 <= i < |y.nodes| ensures NodeOk(y, i) && PutHeld(y, i) {
      assert NodeOk(x, i) && PutHeld(x, i);
    }
    forall u | u in y.threads ensures ThreadOk(y, u, y.threads[u]) {
      assert u != t ==> ThreadOk(x, u, x.threads[u]);
    }
    forall p | 0 <= p < y.dequeue ensures GetHeld(y, p) {
      assert GetHeld(x, p);
    }
  }

  lemma PutCasKeeps<T>(x: State<T>, y: State<T>, t: nat, item: T, pos: nat)
    requires Inv(x) && t in x.threads && x.threads[t] == PutCas(item, pos) && x.queue == pos
    requires y == Goto(x, t, PutWrite(item, pos)).(
                    queue := pos + 1, puts := x.puts + [item], putters := x.putters + [t])
    ensures Inv(y)
  {
    hide At;
    var n := |x.nodes|;
    assert ThreadOk(x, t, x.threads[t]);
    PutWins(x, pos);
    forall i | 0 <= i < n ensures NodeOk(y, i) && PutHeld(y, i) {
      assert NodeOk(x, i) && PutHeld(x, i);
      AtShift(x.owner[i], n);
    }
    forall u | u in y.threads ensures ThreadOk(y, u, y.threads[u]) {
      assert u != t ==> ThreadOk(x, u, x.threads[u]);
    }
    forall p | 0 <= p < y.dequeue ensures GetHeld(y, p) {
      assert GetHeld(x, p);
    }
  }

  lemma GetCasKeeps<T>(x: State<T>, y: State<T>, t: nat, pos: nat)
    requires Inv(x) && t in x.threads && x.threads[t] == GetCas(pos) && x.dequeue == pos
    requires y == Goto(x, t, GetRead(pos)).(dequeue := pos + 1, getters := x.getters + [t])
    ensures Inv(y)
  {
    hide At;
    var n := |x.nodes|;
    assert ThreadOk(x, t, x.threads[t]);
    GetWins(x, pos);
    forall i | 0 <= i < n ensures NodeOk(y, i) && PutHeld(y, i) {
      assert NodeOk(x, i) && PutHeld(x, i);
    }
    forall u | u in y.threads ensures ThreadOk(y, u, y.threads[u]) {
      assert u != t ==> ThreadOk(x, u, x.threads[u]);
    }
    forall p | 0 <= p < y.dequeue ensures GetHeld(y, p) {
      assert p != pos ==> GetHeld(x, p);
    }
  }

  /** Thread `t` changes the node of the ticket it works on, and perhaps finishes with it. */
  ghost predicate InNode<T>(x: State<T>, y: State<T>, t: nat, pos: nat, pc: Pc<T>)
    requires Shape(x) && Shape(y)
  {
    var i := At(pos, |x.nodes|);
    && |y.nodes| == |x.nodes| && y.threads == x.threads[t := pc]
    && (forall j :: 0 <= j < |x.nodes| && j != i ==> y.nodes[j] == x.nodes[j] && y.owner[j] == x.owner[j])
    && y.puts == x.puts && y.putters == x.putters && y.queue == x.queue
    && y.getters == x.getters && y.dequeue == x.dequeue
    && x.nodes[i].position <= y.nodes[i].position
    && (forall p :: p in y.gets <==> p in x.gets || (p == pos && pos in y.gets))
    && (forall p :: p in x.gets ==> y.gets[p] == x.gets[p])
  }

  lemma {:induction false} InNodeThreads<T>(x: State<T>, y: State<T>, t: nat, pos: nat, pc: Pc<T>)
    requires Inv(x) && Shape(y) && t in x.threads && InNode(x, y, t, pos, pc) && ThreadOk(y, t, pc)
    requires PutsAt(x.threads[t], pos) || GetsAt(x.threads[t], pos)
    ensures Threads(y)
  {
    hide At;
    assert ThreadOk(x, t, x.threads[t]);
    forall u | u in y.threads ensures ThreadOk(y, u, y.threads[u]) {
      assert u != t ==> ThreadOk(x, u, x.threads[u]);
    }
  }

  lemma {:induction false} InNodeKeeps<T>(x: State<T>, y: State<T>, t: nat, pos: nat, pc: Pc<T>)
    requires Inv(x) && Shape(y) && t in x.threads && InNode(x, y, t, pos, pc) && ThreadOk(y, t, pc)
    requires PutsAt(x.threads[t], pos) || GetsAt(x.threads[t], pos)
    requires var i := At(pos, |x.nodes|); NodeOk(y, i) && PutHeld(y, i)
    requires pos in y.gets ==> pos < x.dequeue
    requires pos < x.dequeue ==> GetHeld(y, pos)
    requires PutsAt(pc, pos) || pc == Idle || GetsAt(pc, pos)
    ensures Inv(y)
  {
    hide At;
    InNodeThreads(x, y, t, pos, pc);
    assert ThreadOk(x, t, x.threads[t]);
    forall j | 0 <= j < |y.nodes| ensures NodeOk(y, j) && PutHeld(y, j) {
      assert NodeOk(x, j) && PutHeld(x, j);
    }
    forall p | 0 <= p < y.dequeue ensures GetHeld(y, p) {
      assert GetHeld(x, p);
    }
  }

  /** Every atomic step of every thread keeps the invariant. */
  lemma StepKeeps<T>(x: State<T>, m: Move<T>)
    requires Inv(x)
    ensures Inv(Step(x, m))
  {
    hide At;
    var t, n, y := m.thread, |x.nodes|, Step(x, m);
    assert t in x.threads ==> ThreadOk(x, t, x.threads[t]);
    match PcOf(x, t)
    case PutCas(item, pos) =>
      if x.queue == pos {
        PutCasKeeps(x, y, t, item, pos);
      } else {
        LocalKeeps(x, y, t, y.threads[t]);
      }
    case GetCas(pos) =>
      if x.dequeue == pos {
        GetCasKeeps(x, y, t, pos);
      } else {
        LocalKeeps(x, y, t, y.threads[t]);
      }
    case PutWrite(item, pos) => NodeStepKeeps(x, m, pos);
    case PutPublish(item, pos) => NodeStepKeeps(x, m, pos);
    case GetClear(pos, data) => NodeStepKeeps(x, m, pos);
    case GetRelease(pos, data) => NodeStepKeeps(x, m, pos);
    case Idle => IdleKeeps(x, m);
    case _ => LocalKeeps(x, y, t, y.threads[t]);
  }

  lemma IdleKeeps<T>(x: State<T>, m: Move<T>)
    requires Inv(x) && PcOf(x, m.thread) == Idle
    ensures Inv(Step(x, m))
  {
    hide At;
    var y := Step(x, m);
    if m.action.CallPut? || m.action.CallGet? {
      LocalKeeps(x, y, m.thread, y.threads[m.thread]);
    } else {
      forall i | 0 <= i < |y.nodes| ensures NodeOk(y, i) && PutHeld(y, i) {
        assert NodeOk(x, i) && PutHeld(x, i);
      }
      forall u | u in y.threads ensures ThreadOk(y, u, y.threads[u]) {
        assert ThreadOk(x, u, x.threads[u]);
      }
      forall p | 0 <= p < y.dequeue ensures GetHeld(y, p) {
        assert GetHeld(x, p);
      }
    }
  }

  lemma NodeStepKeeps<T>(x: State<T>, m: Move<T>, pos: nat)
    requires Inv(x) && m.thread in x.threads
    requires var pc := x.threads[m.thread];
             (pc.PutWrite? || pc.PutPublish? || pc.GetClear? || pc.GetRelease?) && pc.pos == pos
    ensures Inv(Step(x, m))
  {
    hide At;
    var t, n, y := m.thread, |x.nodes|, Step(x, m);
    assert ThreadOk(x, t, x.threads[t]);
    assert NodeOk(x, At(pos, n)) && PutHeld(x, At(pos, n));
    assert pos < x.dequeue ==> GetHeld(x, pos);
    AtShift(pos, n);
    InNodeKeeps(x, y, t, pos, y.threads[t]);
  }

  lemma {:induction false} RunKeeps<T>(n: nat, moves: seq<Move<T>>)
    requires n >= 2
    ensures Inv(Run(n, moves))
  {
    if moves == [] {
      InitInv<T>(n);
    } else {
      RunKeeps(n, moves[..|moves| - 1]);
      StepKeeps(Run(n, moves[..|moves| - 1]), moves[|moves| - 1]);
    }
  }

  // ---------- Theorems ----------

  /**
    In every interleaving the get that claimed ticket `p` returns the item of the put that claimed ticket `p`.
    Tickets are handed out without gaps, so items leave in the order they were accepted, none twice.
   */
  lemma GetReturnsTheMatchingPut<T>(n: nat, moves: seq<Move<T>>, p: nat)
    requires n >= 2 && p in Run(n, moves).gets
    ensures var x := Run(n, moves);
            p < x.dequeue <= |x.puts| && x.gets[p] == Some(x.puts[p])
  {
    RunKeeps(n, moves);
    assert GetHeld(Run(n, moves), p);
  }

  /** A claimed get that has not returned is still in the hands of its thread: nothing taken out is dropped. */
  lemma ClaimedGetIsPending<T>(n: nat, moves: seq<Move<T>>, p: nat)
    requires n >= 2 && p < Run(n, moves).dequeue && p !in Run(n, moves).gets
    ensures var x := Run(n, moves);
            p < |x.getters| && GetsAt(PcOf(x, x.getters[p]), p)
  {
    RunKeeps(n, moves);
    assert GetHeld(Run(n, moves), p);
  }

  /** Between the two counters every node serves its own ticket. */
  lemma WaitingTicket<T>(x: State<T>, p: nat)
    requires Shape(x) && Nodes(x) && x.dequeue <= p < x.queue
    ensures OwnerOf(x, p) == p
  {
    hide At;
    var o := OwnerOf(x, p);
    assert NodeOk(x, At(p, |x.nodes|));
    if o > p {
      AtApart(p, o, |x.nodes|);
    } else if o < p {
      AtApart(o, p, |x.nodes|);
    }
  }

  /** Every accepted item that no get has claimed yet sits in its node, or its putting thread has still to store it. */
  lemma WaitingItemsAreStored<T>(n: nat, moves: seq<Move<T>>, p: nat)
    requires n >= 2 && Run(n, moves).dequeue <= p < Run(n, moves).queue
    ensures var x := Run(n, moves);
            && p < |x.puts| == |x.putters|
            && (x.nodes[At(p, n)] == Node(p + 1, Some(x.puts[p]))
                || (x.nodes[At(p, n)].position == p && PutsAt(PcOf(x, x.putters[p]), p)))
  {
    hide At, Run;
    RunKeeps(n, moves);
    var x := Run(n, moves);
    WaitingTicket(x, p);
    assert NodeOk(x, At(p, n)) && PutHeld(x, At(p, n));
  }

  // ---------- Capacity ----------

  /** The buffer never holds less than nothing or more than its capacity, in any run. */
  ghost predicate Bounded<T(!new)>(n: nat)
    requires n > 0
  {
    forall moves: seq<Move<T>> :: Run(n, moves).dequeue <= Run(n, moves).queue <= Run(n, moves).dequeue + n
  }

  lemma RunSnoc<T>(n: nat, moves: seq<Move<T>>, m: Move<T>)
    requires n > 0
    ensures Run(n, moves + [m]) == Step(Run(n, moves), m)
  {
    assert (moves + [m])[..|moves|] == moves;
  }

  /** A put that runs alone and finds its node free goes through. */
  lemma {:induction false} PutAlone<T>(n: nat, moves: seq<Move<T>>, item: T) returns (more: seq<Move<T>>)
    requires n > 0
    requires var x := Run(n, moves);
             PcOf(x, 0) == Idle && !x.disposed && NodeOf(x, x.queue).position == x.queue
    ensures var x, y := Run(n, moves), Run(n, more);
            && PcOf(y, 0) == Idle && !y.disposed && y.queue == x.queue + 1 && y.dequeue == x.dequeue
            && NodeOf(y, x.queue).position == x.queue + 1
  {
    hide At, Run;
    more := moves + [Move(0, CallPut(item))];
    RunSnoc(n, moves, Move(0, CallPut(item)));
    ghost var x := Run(n, moves);
    for k := 0 to 6
      invariant var y := Run(n, more);
                && y.dequeue == x.dequeue && !y.disposed && y.queue == (if k < 4 then x.queue else x.queue + 1)
                && NodeOf(y, x.queue).position == (if k < 6 then x.queue else x.queue + 1)
                && PcOf(y, 0) == (match k
                                  case 0 => PutStart(item)
                                  case 1 => PutLoop(item, x.queue)
                                  case 2 => PutLook(item, x.queue)
                                  case 3 => PutCas(item, x.queue)
                                  case 4 => PutWrite(item, x.queue)
                                  case 5 => PutPublish(item, x.queue)
                                  case _ => Idle)
    {
      RunSnoc(n, more, Move(0, Continue));
      more := more + [Move(0, Continue)];
    }
  }

  /** A buffer of capacity one accepts a second item before the first has been taken out. */
  lemma OneSlotOverflows<T>(item: T) returns (moves: seq<Move<T>>)
    ensures Run(1, moves).queue == 2 && Run(1, moves).dequeue == 0
  {
    moves := PutAlone(1, [], item);
    moves := PutAlone(1, moves, item);
  }

  /** The bound holds in every run exactly when the capacity is at least two. */
  lemma BoundedExactlyFromTwo<T(!new)>(n: nat, item: T)
    requires n > 0
    ensures Bounded<T>(n) <==> n >= 2
  {
    if n == 1 {
      var moves := OneSlotOverflows(item);
      assert Run(1, moves).queue > Run(1, moves).dequeue + 1;
    } else {
      forall moves: seq<Move<T>> ensures Run(n, moves).dequeue <= Run(n, moves).queue <= Run(n, moves).dequeue + n {
        RunKeeps(n, moves);
      }
    }
  }
}
