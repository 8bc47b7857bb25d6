/**
  What disposing of the ring buffer does to the calls under way and to those that begin afterwards.
 */
module RingBufferDispose {
  import opened RingBuffer

  /** How many steps of its own a call still needs at most once the buffer is disposed of. */
  function Left<T>(pc: Pc<T>): nat {
    match pc
    case Idle => 0
    case PutStart(_) => 2
    case PutLoop(_, _) => 1
    case PutLook(_, _) => 4
    case PutCas(_, _) => 3
    case PutWrite(_, _) => 2
    case PutPublish(_, _) => 1
    case GetStart => 2
    case GetLoop(_) => 1
    case GetLook(_) => 5
    case GetCas(_) => 4
    case GetRead(_) => 3
    case GetClear(_, _) => 2
    case GetRelease(_, _) => 1
  }

  predicate Getting<T>(pc: Pc<T>) {
    pc.GetStart? || pc.GetLoop? || pc.GetLook? || pc.GetCas? || pc.GetRead? || pc.GetClear? || pc.GetRelease?
  }

  /** How many of the moves thread `t` makes. */
  function MovesOf<T>(moves: seq<Move<T>>, t: nat): nat {
    if moves == [] then 0
    else MovesOf(moves[..|moves| - 1], t) + if moves[|moves| - 1].thread == t then 1 else 0
  }

  function RunFrom<T>(x: State<T>, moves: seq<Move<T>>): (y: State<T>)
    requires |x.nodes| > 0 && |x.owner| == |x.nodes|
    ensures |y.nodes| == |x.nodes| && |y.owner| == |x.owner|
  {
    if moves == [] then x else Step(RunFrom(x, moves[..|moves| - 1]), moves[|moves| - 1])
  }

  lemma OtherGetStep<T>(x: State<T>, m: Move<T>, t: nat)
    requires |x.nodes| > 0 && |x.owner| == |x.nodes| && m.thread != t && Getting(PcOf(x, m.thread))
    ensures PcOf(Step(x, m), t) == PcOf(x, t)
  {
    hide At;
  }

  lemma OtherPutStep<T>(x: State<T>, m: Move<T>, t: nat)
    requires |x.nodes| > 0 && |x.owner| == |x.nodes| && m.thread != t && !Getting(PcOf(x, m.thread))
    ensures PcOf(Step(x, m), t) == PcOf(x, t)
  {
    hide At;
  }

  lemma OtherStep<T>(x: State<T>, m: Move<T>, t: nat)
    requires |x.nodes| > 0 && |x.owner| == |x.nodes| && m.thread != t
    ensures PcOf(Step(x, m), t) == PcOf(x, t)
  {
    hide Step;
    if Getting(PcOf(x, m.thread)) {
      OtherGetStep(x, m, t);
    } else {
      OtherPutStep(x, m, t);
    }
  }

  lemma StaysDisposed<T>(x: State<T>, m: Move<T>)
    requires |x.nodes| > 0 && |x.owner| == |x.nodes| && x.disposed
    ensures Step(x, m).disposed
  {
  }

  lemma OwnPutStep<T>(x: State<T>, t: nat)
    requires |x.nodes| > 0 && |x.owner| == |x.nodes| && x.disposed && !Getting(PcOf(x, t))
    ensures var pc, pc' := PcOf(x, t), PcOf(Step(x, Move(t, Continue)), t);
            Left(pc') < Left(pc) || pc == pc' == Idle
  {
  }

  lemma OwnGetStep<T>(x: State<T>, t: nat)
    requires |x.nodes| > 0 && |x.owner| == |x.nodes| && x.disposed && Getting(PcOf(x, t))
    ensures Left(PcOf(Step(x, Move(t, Continue)), t)) < Left(PcOf(x, t))
  {
  }

  /**
    Once the buffer is disposed of, every call under way, waiting or not, ends within five steps of its own, whatever
    the other threads do in between.
   */
  lemma {:induction false} DisposeEndsEveryCall<T>(x: State<T>, moves: seq<Move<T>>, t: nat)
    requires |x.nodes| > 0 && |x.owner| == |x.nodes| && x.disposed
    requires forall i :: 0 <= i < |moves| && moves[i].thread == t ==> moves[i].action.Continue?
    ensures var y := RunFrom(x, moves);
            y.disposed && Left(PcOf(y, t)) <= (if MovesOf(moves, t) >= 5 then 0 else 5 - MovesOf(moves, t))
    ensures MovesOf(moves, t) >= 5 ==> PcOf(RunFrom(x, moves), t) == Idle
  {
    FewStepsLeft(PcOf(RunFrom(x, moves), t));
    if moves != [] {
      var n := |moves| - 1;
      DisposeEndsEveryCall(x, moves[..n], t);
      hide Step, Left, PcOf;
      var y := RunFrom(x, moves[..n]);
      StaysDisposed(y, moves[n]);
      if moves[n].thread != t {
        OtherStep(y, moves[n], t);
      } else {
        IdleIsDone<T>();
        if Getting(PcOf(y, t)) {
          OwnGetStep(y, t);
        } else {
          OwnPutStep(y, t);
        }
      }
    }
  }

  /** A call that begins after the buffer was disposed of returns in its second step and has touched nothing. */
  lemma {:induction false} DisposedTakesNoMore<T>(x: State<T>, t: nat, call: Action<T>)
    requires |x.nodes| > 0 && |x.owner| == |x.nodes| && x.disposed && PcOf(x, t) == Idle
    requires call.CallPut? || call.CallGet?
    ensures var y := RunFrom(x, [Move(t, call), Move(t, Continue), Move(t, Continue)]);
            PcOf(y, t) == Idle && y.(threads := x.threads) == x
  {
    var a, b := Move(t, call), Move(t, Continue);
    assert [a, b, b][..2] == [a, b] && [a, b][..1] == [a] && [a][..0] == [];
    var x1 := Step(x, a);
    var x2 := Step(x1, b);
    assert RunFrom(x, []) == x;
    assert RunFrom(x, [a]) == x1;
    assert RunFrom(x, [a, b]) == x2;
  }

  lemma IdleIsDone<T>()
    ensures Left<T>(Idle) == 0
  {
  }

  lemma FewStepsLeft<T>(pc: Pc<T>)
    ensures Left(pc) <= 5 && (Left(pc) == 0 <==> pc == Idle)
  {
  }
}
