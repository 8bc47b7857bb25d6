/**
  The lock-free multi-producer multi-consumer ring buffer as a state machine: any number of threads, each with
  its own program counter, take turns in any order, one atomic load, compare-and-swap or store at a time.

  Tickets are unbounded, so a 32-bit counter does not return to the same value while a thread sleeps. The state
  carries its history: `puts` and `putters`, the item and the thread of every claimed put ticket; `getters`, the thread
  of every claimed get ticket; `gets`, what every finished `Get` returned, by its ticket; and `owner`, the
  ticket that each node currently serves.
 */
module RingBuffer {
  import opened Bytes
  import opened Bits

  datatype Node<T> = Node(position: nat, data: Option<T>)

  datatype Pc<T> =
    | Idle
    | PutStart(item: T)                    // pos = load(queue)
    | PutLoop(item: T, pos: nat)           // load(disposed)
    | PutLook(item: T, pos: nat)           // seq = load(n.position)
    | PutCas(item: T, pos: nat)            // cas(queue, pos, pos + 1)
    | PutWrite(item: T, pos: nat)          // n.data = item
    | PutPublish(item: T, pos: nat)        // store(n.position, pos + 1)
    | GetStart                             // pos = load(dequeue)
    | GetLoop(pos: nat)                    // load(disposed)
    | GetLook(pos: nat)                    // seq = load(n.position)
    | GetCas(pos: nat)                     // cas(dequeue, pos, pos + 1)
    | GetRead(pos: nat)                    // data = n.data
    | GetClear(pos: nat, data: Option<T>)  // n.data = nil
    | GetRelease(pos: nat, data: Option<T>)// store(n.position, pos + mask + 1)

  datatype State<T> = State(
    queue: nat, dequeue: nat, disposed: bool, nodes: seq<Node<T>>, threads: map<nat, Pc<T>>,
    puts: seq<T>, putters: seq<nat>, getters: seq<nat>, gets: map<nat, Option<T>>, owner: seq<nat>)

  /** What a thread does next; the choice matters only to an idle thread. */
  datatype Action<T> = CallPut(item: T) | CallGet | Continue | CallDispose

  datatype Move<T> = Move(thread: nat, action: Action<T>)

  /** A step of `roundUp`: the highest bits spread downwards. */
  function Smear(x: nat, n: nat): nat {
    BitOr(x, Shr(x, n))
  }

  /** `roundUp` in 32-bit arithmetic. Its last shift, by 32, yields nothing. */
  function RoundUp(v: nat): nat
    requires v < 0x1_0000_0000
  {
    var a := if v == 0 then 0xFFFF_FFFF else v - 1;
    var e := Smear(Smear(Smear(Smear(Smear(a, 1), 2), 4), 8), 16);
    if e == 0xFFFF_FFFF then 0 else e + 1
  }

  function Init<T>(n: nat): State<T> {
    State(0, 0, false, seq(n, (i: nat) => Node(i, None)), map[], [], [], [], map[], seq(n, (i: nat) => i))
  }

  /** `pos & mask`, as `MaskIsRemainder` has it: the capacity is a power of two. */
  function At(pos: nat, n: nat): nat
    requires n > 0
    ensures At(pos, n) < n
  {
    pos % n
  }

  function PcOf<T>(x: State<T>, t: nat): Pc<T> {
    if t in x.threads then x.threads[t] else Idle
  }

  function Goto<T>(x: State<T>, t: nat, pc: Pc<T>): State<T> {
    x.(threads := x.threads[t := pc])
  }

  function Step<T>(x: State<T>, m: Move<T>): State<T>
    requires |x.nodes| > 0 && |x.owner| == |x.nodes|
    ensures var y := Step(x, m); |y.nodes| == |x.nodes| && |y.owner| == |x.owner|
  {
    var t, n := m.thread, |x.nodes|;
    match PcOf(x, t)
    case Idle =>
      (match m.action
       case CallPut(item) => Goto(x, t, PutStart(item))
       case CallGet => Goto(x, t, GetStart)
       case CallDispose => x.(disposed := true)
       case Continue => x)
    case PutStart(item) => Goto(x, t, PutLoop(item, x.queue))
    case PutLoop(item, pos) => Goto(x, t, if x.disposed then Idle else PutLook(item, pos))
    case PutLook(item, pos) =>
      Goto(x, t, if x.nodes[At(pos, n)].position == pos then PutCas(item, pos) else PutStart(item))
    case PutCas(item, pos) =>
      if x.queue == pos then
        Goto(x, t, PutWrite(item, pos)).(
          queue := pos + 1, puts := x.puts + [item], putters := x.putters + [t])
      else Goto(x, t, PutLoop(item, pos))
    case PutWrite(item, pos) =>
      Goto(x, t, PutPublish(item, pos)).(nodes := x.nodes[At(pos, n) := x.nodes[At(pos, n)].(data := Some(item))])
    case PutPublish(item, pos) =>
      Goto(x, t, Idle).(nodes := x.nodes[At(pos, n) := x.nodes[At(pos, n)].(position := pos + 1)])
    case GetStart => Goto(x, t, GetLoop(x.dequeue))
    case GetLoop(pos) => Goto(x, t, if x.disposed then Idle else GetLook(pos))
    case GetLook(pos) =>
      Goto(x, t, if x.nodes[At(pos, n)].position == pos + 1 then GetCas(pos) else GetStart)
    case GetCas(pos) =>
      if x.dequeue == pos then
        Goto(x, t, GetRead(pos)).(dequeue := pos + 1, getters := x.getters + [t])
      else Goto(x, t, GetLoop(pos))
    case GetRead(pos) => Goto(x, t, GetClear(pos, x.nodes[At(pos, n)].data))
    case GetClear(pos, data) =>
      Goto(x, t, GetRelease(pos, data)).(nodes := x.nodes[At(pos, n) := x.nodes[At(pos, n)].(data := None)])
    case GetRelease(pos, data) =>
      Goto(x, t, Idle).(nodes := x.nodes[At(pos, n) := x.nodes[At(pos, n)].(position := pos + n)],
                        gets := x.gets[pos := data],
                        owner := x.owner[At(pos, n) := pos + n])
  }

  function Run<T>(n: nat, moves: seq<Move<T>>): (x: State<T>)
    requires n > 0
    ensures |x.nodes| == n && |x.owner| == n
  {
    if moves == [] then Init(n) else Step(Run(n, moves[..|moves| - 1]), moves[|moves| - 1])
  }

  // ---------- Slots ----------

  lemma {:induction false} AtShift(pos: nat, n: nat)
    requires n > 0
    ensures At(pos + n, n) == At(pos, n)
  {
    ModShift(pos, n);
  }

  lemma {:induction false} ModShift(pos: nat, n: nat)
    requires n > 0
    ensures (pos + n) % n == pos % n
  {
    var q := pos / n;
    assert pos == q * n + pos % n;
    assert pos + n == (q + 1) * n + pos % n;
    RemainderIsUnique(pos + n, n, q + 1, pos % n);
  }

  /** Two tickets of the same node are at least a round apart. */
  lemma {:induction false} AtApart(p: nat, q: nat, n: nat)
    requires n > 0 && p < q && At(p, n) == At(q, n)
    ensures p + n <= q
  {
    var d := q / n - p / n;
    assert q - p == d * n;
    Multiples(d, n);
  }

  // ---------- Capacity ----------

  /** A number of `m` digits of which the highest `j` are ones. */
  ghost predicate Topped(x: nat, m: nat, j: nat) {
    x < Pow2(m) && forall i: nat :: m - j <= i < m ==> Bit(x, i)
  }

  lemma SmearDoubles(x: nat, m: nat, j: nat)
    requires Topped(x, m, j)
    ensures Topped(Smear(x, j), m, 2 * j)
  {
    hide BitOr, Shr, Bit;
    ShrBound(x, j);
    OrBound(x, Shr(x, j), m);
    forall i: nat | m - 2 * j <= i < m ensures Bit(Smear(x, j), i) {
      BitOfOr(x, Shr(x, j), i);
      BitOfShift(x, j, i);
      if i < m - j {
        assert Bit(x, i + j);
      }
    }
  }

  /** Spreading the highest bit by 1, 2, 4, 8 and 16 places sets all bits below it. */
  lemma SmearsFill(a: nat)
    requires a < 0x1_0000_0000
    ensures Smear(Smear(Smear(Smear(Smear(a, 1), 2), 4), 8), 16) == Pow2(Length(a)) - 1
  {
    hide Smear, Bit;
    var m := Length(a);
    LengthIs(a);
    Pow2Is32();
    LengthBound(a, 32);
    assert Topped(a, m, 1);
    var b := Smear(a, 1);
    SmearDoubles(a, m, 1);
    var c := Smear(b, 2);
    SmearDoubles(b, m, 2);
    var d := Smear(c, 4);
    SmearDoubles(c, m, 4);
    var e := Smear(d, 8);
    SmearDoubles(d, m, 8);
    SmearDoubles(e, m, 16);
    AllSet(Smear(e, 16), m);
  }

  /** The capacity is the smallest power of two that is not below what is asked for; above 2^31, and for 0, it is 0. */
  lemma RoundUpIsTheNextPower(v: nat)
    requires v < 0x1_0000_0000
    ensures if 1 <= v <= 0x8000_0000 then v <= RoundUp(v) < 2 * v && exists k :: RoundUp(v) == Pow2(k)
            else RoundUp(v) == 0
  {
    hide Smear;
    var a := if v == 0 then 0xFFFF_FFFF else v - 1;
    SmearsFill(a);
    Pow2Is32();
    LengthIs(a);
    LengthBound(a, 31);
    LengthBound(a, 32);
    var m := Length(a);
    hide Length;
    if m <= 31 {
      Pow2Grows(m, 31);
      assert RoundUp(v) == Pow2(m);
      if m > 0 {
        assert Pow2(m) == 2 * Pow2(m - 1);
      }
    }
  }

  lemma {:induction false} Pow2Grows(j: nat, k: nat)
    requires j <= k
    ensures Pow2(j) <= Pow2(k)
  {
    if j < k {
      Pow2Grows(j, k - 1);
    }
  }
}
