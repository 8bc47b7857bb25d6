/**
  Why a payload sent on a channel is never handed to another flow, and how the tables of server and client agree.
 */
module ChannelProtocolProof {
  import opened Bytes
  import opened ChannelNumbers
  import opened ChannelProtocol

  // ---------- Invariant ----------

  /** The flow that channel `c` was granted to. Without reuse there is one at most. */
  ghost predicate Granted(v: Server, c: nat, f: Flow) {
    1 <= c <= |v.grants| && v.grants[c - 1] == f
  }

  ghost predicate FinderOk(v: Server) {
    |v.grants| <= ONES && v.finder == NEW_FINDER.(last := |v.grants|)
  }

  /** A flow's record is Tracking on a channel exactly when the channel index maps that channel to the flow. */
  ghost predicate TablesAgree(v: Server) {
    && (forall c :: c in v.index ==>
          && Granted(v, c, v.index[c]) && v.index[c] in v.records
          && v.records[v.index[c]].tracking && v.records[v.index[c]].channel == c)
    && (forall f :: f in v.records ==>
          var r := v.records[f];
          && f.source in v.sources
          && (if r.tracking then r.channel in v.index && v.index[r.channel] == f
              else !r.tracked && !r.trackPending && r.channel == 0))
  }

  /** What messages in flight can say. */
  ghost predicate MsgOk(key: Flow -> string, x: System, m: Msg) {
    match m
    case Associate(f, c) => Granted(x.server, c, f)
    case AssociateDone(f, c) => Granted(x.server, c, f) && (ChannelDestroy(c) in x.net || c in x.client.channels)
    case ChannelDestroy(c) => 1 <= c <= |x.server.grants| && c !in x.server.index
    case DataToClient(c, f, _) => Granted(x.server, c, f)
    case DataToServer(c, f, _) => 1 <= c <= |x.server.grants| && key(x.server.grants[c - 1]) == key(f)
    case _ => true
  }

  ghost predicate ClientOk(key: Flow -> string, x: System) {
    && (forall c :: c in x.client.channels ==> Granted(x.server, c, x.client.channels[c]))
    && (forall k :: k in x.client.addrs ==>
          x.client.addrs[k] in x.client.channels && key(x.client.channels[x.client.addrs[k]]) == k)
  }

  /** The client gets the flow that was meant; the server gets a flow with the same key. */
  ghost predicate DeliveryOk(key: Flow -> string, d: Delivery) {
    if d.atServer then key(d.meant) == key(d.got) else d.meant == d.got
  }

  ghost predicate Inv(key: Flow -> string, x: System) {
    && FinderOk(x.server) && TablesAgree(x.server) && ClientOk(key, x)
    && (forall m :: m in x.net ==> MsgOk(key, x, m))
    && (forall f :: f in x.server.records && x.server.records[f].tracked ==>
          AssociateDone(f, x.server.records[f].channel) in x.net)
    && (forall i :: 0 <= i < |x.deliveries| ==> DeliveryOk(key, x.deliveries[i]))
  }

  // ---------- Server tables ----------

  /** What tracking a flow may do to the server: at most one grant more, on a channel never used before. */
  ghost predicate Advances(v: Server, w: Server) {
    && v.grants <= w.grants && w.sources == v.sources
    && (forall c :: c in w.index ==> c in v.index || c == |v.grants| + 1)
    && (forall g :: g in w.records && w.records[g].tracked ==>
          g in v.records && v.records[g].tracked && w.records[g].channel == v.records[g].channel)
  }

  lemma GrantKeeps(v: Server, f: Flow, pending: bool, w: Server)
    requires FinderOk(v) && TablesAgree(v) && |v.grants| < ONES && f.source in v.sources && !RecordOf(v, f).tracking
    requires var n := |v.grants| + 1;
             w == Server(v.sources, v.records[f := Record(true, pending, false, n)], v.index[n := f],
                         NEW_FINDER.(last := n), v.grants + [f])
    ensures FinderOk(w) && TablesAgree(w) && Advances(v, w) && Granted(w, |v.grants| + 1, f)
  {
    forall c | c in w.index
      ensures Granted(w, c, w.index[c]) && w.index[c] in w.records
              && w.records[w.index[c]].tracking && w.records[w.index[c]].channel == c
    {
      assert c in v.index ==> Granted(v, c, v.index[c]);
    }
  }

  /** Tracking a new flow hands out the next channel and enters it in both tables. */
  lemma TrackGrants(v: Server, f: Flow, room: bool)
    requires FinderOk(v) && TablesAgree(v) && |v.grants| < ONES && f.source in v.sources && !RecordOf(v, f).tracking
    ensures var n := |v.grants| + 1;
            Track(v, f, room) ==
            Tracking(Server(v.sources, v.records[f := Record(true, room, false, n)], v.index[n := f],
                            NEW_FINDER.(last := n), v.grants + [f]),
                     if room then {Associate(f, n)} else {}, false, n)
  {
    hide FindNext;
    CountsUp(|v.grants|, v.index.Keys);
    assert |v.grants| + 1 !in v.index;
  }

  lemma RetrackKeeps(v: Server, f: Flow, room: bool)
    requires FinderOk(v) && TablesAgree(v) && (f.source in v.sources ==> RecordOf(v, f).tracking)
    ensures var t := Track(v, f, room);
            t.server == v && t.sent == {} && (t.tracked ==> Granted(v, t.channel, f))
  {
    hide FindNext;
    assert f in v.records ==> v.records[f := v.records[f]] == v.records;
  }

  /** Tracking a flow keeps the tables in agreement. */
  lemma {:induction false} TrackKeeps(v: Server, f: Flow, room: bool)
    requires FinderOk(v) && TablesAgree(v) && |Track(v, f, room).server.grants| <= ONES
    ensures var t := Track(v, f, room);
            && FinderOk(t.server) && TablesAgree(t.server) && Advances(v, t.server)
            && (t.tracked ==> Granted(t.server, t.channel, f))
            && (forall m :: m in t.sent ==> m.Associate? && Granted(t.server, m.channel, m.flow))
  {
    hide FindNext;
    var t := Track(v, f, room);
    if f.source !in v.sources || RecordOf(v, f).tracking {
      RetrackKeeps(v, f, room);
    } else {
      TrackAddsOne(v, f, room);
      TrackGrants(v, f, room);
      hide Track, TablesAgree, FinderOk;
      GrantKeeps(v, f, room, t.server);
    }
  }

  lemma TrackAddsOne(v: Server, f: Flow, room: bool)
    requires TablesAgree(v) && f.source in v.sources && !RecordOf(v, f).tracking
    ensures |Track(v, f, room).server.grants| == |v.grants| + 1
  {
    hide FindNext;
  }

  lemma UntrackKeeps(v: Server, c: nat, room: bool)
    requires FinderOk(v) && TablesAgree(v) && c in v.index
    ensures var (w, sent) := Untrack(v, c, room);
            && FinderOk(w) && TablesAgree(w) && w.grants == v.grants && w.sources == v.sources
            && (forall d :: d in w.index ==> d in v.index)
            && (forall g :: g in w.records && w.records[g].tracked ==> g in v.records && w.records[g] == v.records[g])
            && (forall m :: m in sent ==> m == ChannelDestroy(c) && c !in w.index)
  {
  }

  // ---------- Steps ----------

  /** The server moves: old messages stay true as long as no channel comes back to life. */
  lemma ServerMove(key: Flow -> string, x: System, o: ServerOutcome, meant: Flow)
    requires Inv(key, x) && FinderOk(o.server) && TablesAgree(o.server) && x.server.grants <= o.server.grants
    requires forall c :: c in o.server.index ==> c in x.server.index || c == |x.server.grants| + 1
    requires forall f :: f in o.server.records && o.server.records[f].tracked ==>
               (f in x.server.records && x.server.records[f].tracked
                   && x.server.records[f].channel == o.server.records[f].channel)
               || AssociateDone(f, o.server.records[f].channel) in x.net
    requires forall m :: m in o.sent ==>
               match m
               case Associate(f, c) => Granted(o.server, c, f)
               case ChannelDestroy(c) => 1 <= c <= |o.server.grants| && c !in o.server.index
               case DataToClient(c, f, _) => Granted(o.server, c, f)
               case SendToClient(_, _) => true
               case _ => false
    requires o.delivered.Some? ==> key(meant) == key(o.delivered.value.0)
    ensures Inv(key, AfterServer(x, o, meant))
  {
    var y := AfterServer(x, o, meant);
    forall m | m in y.net ensures MsgOk(key, y, m) {
      assert m in x.net ==> MsgOk(key, x, m);
    }
  }

  lemma {:induction false} SendKeeps(key: Flow -> string, x: System, f: Flow, payload: bytes, room: bool, dialed: bool)
    requires Inv(key, x) && |ServerOnSend(x.server, f, payload, room, dialed).server.grants| <= ONES
    ensures Inv(key, AfterServer(x, ServerOnSend(x.server, f, payload, room, dialed), f))
  {
    var v := x.server;
    var w := if f.source in v.sources then v else v.(sources := v.sources[f.source := false]);
    TrackKeeps(w, f, room);
    ServerMove(key, x, ServerOnSend(v, f, payload, room, dialed), f);
  }

  lemma {:induction false} RemoteKeeps(key: Flow -> string, x: System, f: Flow, payload: bytes, room: bool)
    requires Inv(key, x) && |ServerOnRemote(x.server, f, payload, room).server.grants| <= ONES
    ensures Inv(key, AfterServer(x, ServerOnRemote(x.server, f, payload, room), f))
  {
    if f.source in x.server.sources && x.server.sources[f.source] {
      TrackKeeps(x.server, f, room);
    }
    ServerMove(key, x, ServerOnRemote(x.server, f, payload, room), f);
  }

  lemma DoneKeeps(key: Flow -> string, x: System, f: Flow, c: nat)
    requires Inv(key, x) && AssociateDone(f, c) in x.net
    ensures Inv(key, AfterServer(x, ServerOnDone(x.server, f, c), f))
  {
    assert MsgOk(key, x, AssociateDone(f, c));
    ServerMove(key, x, ServerOnDone(x.server, f, c), f);
  }

  lemma {:induction false} ServerDataKeeps(key: Flow -> string, x: System, c: nat, f: Flow, payload: bytes, room: bool)
    requires Inv(key, x) && DataToServer(c, f, payload) in x.net
    ensures Inv(key, AfterServer(x, ServerOnData(x.server, c, payload, room), f))
  {
    assert MsgOk(key, x, DataToServer(c, f, payload));
    if c in x.server.index {
      UntrackKeeps(x.server, c, room);
    }
    ServerMove(key, x, ServerOnData(x.server, c, payload, room), f);
  }

  lemma UntrackTurnKeeps(key: Flow -> string, x: System, f: Flow, room: bool)
    requires Inv(key, x)
    ensures Inv(key, AfterServer(x, ServerOnUntrack(x.server, f, room), f))
  {
    var r := RecordOf(x.server, f);
    if f in x.server.records && r.tracking {
      UntrackKeeps(x.server, r.channel, room);
    }
    ServerMove(key, x, ServerOnUntrack(x.server, f, room), f);
  }

  /** The client moves: its tables stay in order and no channel is lost without a destroy message. */
  lemma ClientMove(key: Flow -> string, x: System, o: ClientOutcome, meant: Flow)
    requires Inv(key, x) && ClientOk(key, System(x.server, o.client, x.net, x.deliveries))
    requires forall c :: c in x.client.channels ==> c in o.client.channels || ChannelDestroy(c) in x.net
    requires forall m :: m in o.sent ==>
               match m
               case AssociateDone(f, c) => Granted(x.server, c, f) && c in o.client.channels
               case DataToServer(c, f, _) => 1 <= c <= |x.server.grants| && key(x.server.grants[c - 1]) == key(f)
               case SendToServer(_, _) => true
               case _ => false
    requires o.delivered.Some? ==> meant == o.delivered.value.0
    ensures Inv(key, AfterClient(x, o, meant))
  {
    var y := AfterClient(x, o, meant);
    forall m | m in y.net ensures MsgOk(key, y, m) {
      assert m in x.net ==> MsgOk(key, x, m);
    }
  }

  lemma {:induction false} ReceiveKeeps(key: Flow -> string, x: System, msg: Msg, room: bool, dialed: bool)
    requires Inv(key, x) && msg in x.net && |Receive(key, x, msg, room, dialed).server.grants| <= ONES
    ensures Inv(key, Receive(key, x, msg, room, dialed))
  {
    assert MsgOk(key, x, msg);
    match msg
    case Associate(f, c) => ClientMove(key, x, ClientOnAssociate(key, x.client, f, c), f);
    case AssociateDone(f, c) => DoneKeeps(key, x, f, c);
    case ChannelDestroy(c) => ClientMove(key, x, ClientOnDestroy(key, x.client, c), NO_FLOW);
    case SendToServer(f, p) => SendKeeps(key, x, f, p, room, dialed);
    case SendToClient(f, p) => ClientMove(key, x, ClientOutcome(x.client, {}, Some((f, p))), f);
    case DataToServer(c, f, p) => ServerDataKeeps(key, x, c, f, p, room);
    case DataToClient(c, f, p) => ClientMove(key, x, ClientOnData(x.client, c, p), f);
  }

  lemma {:induction false} StepKeeps(key: Flow -> string, x: System, e: Event)
    requires Inv(key, x) && |Step(key, x, e).server.grants| <= ONES
    ensures Inv(key, Step(key, x, e))
  {
    match e
    case Arrive(msg, room, dialed) =>
      if msg in x.net {
        ReceiveKeeps(key, x, msg, room, dialed);
      }
    case Local(f, p) => ClientMove(key, x, ClientOnLocal(key, x.client, f, p), f);
    case Remote(f, p, room) => RemoteKeeps(key, x, f, p, room);
    case Close(source) => ServerMove(key, x, ServerOnClose(x.server, source), NO_FLOW);
    case UntrackTurn(f, room) => UntrackTurnKeeps(key, x, f, room);
  }

  lemma TrackGrows(v: Server, f: Flow, room: bool)
    ensures v.grants <= Track(v, f, room).server.grants
  {
    hide FindNext;
  }

  lemma ReceiveGrows(key: Flow -> string, x: System, msg: Msg, room: bool, dialed: bool)
    ensures x.server.grants <= Receive(key, x, msg, room, dialed).server.grants
  {
    hide FindNext, Track;
    if msg.SendToServer? {
      var v, f := x.server, msg.flow;
      var w := if f.source in v.sources then v else v.(sources := v.sources[f.source := false]);
      TrackGrows(w, f, room);
    }
  }

  lemma GrantsGrow(key: Flow -> string, x: System, e: Event)
    ensures x.server.grants <= Step(key, x, e).server.grants
  {
    hide FindNext, Track, Receive;
    match e
    case Arrive(msg, room, dialed) => ReceiveGrows(key, x, msg, room, dialed);
    case Remote(f, _, room) => TrackGrows(x.server, f, room);
    case _ =>
  }

  lemma {:induction false} RunKeeps(key: Flow -> string, events: seq<Event>)
    requires |Run(key, events).server.grants| <= ONES
    ensures Inv(key, Run(key, events))
  {
    if events != [] {
      var n := |events| - 1;
      GrantsGrow(key, Run(key, events[..n]), events[n]);
      RunKeeps(key, events[..n]);
      StepKeeps(key, Run(key, events[..n]), events[n]);
    }
  }

  // ---------- Theorems ----------

  /** In every run without channel reuse, channel index and flow records of the server say the same. */
  lemma {:induction false} ServerTablesAgree(key: Flow -> string, events: seq<Event>, c: nat, f: Flow)
    requires |Run(key, events).server.grants| <= ONES
    ensures var v := Run(key, events).server;
            && (c in v.index && v.index[c] == f
                <==> f in v.records && v.records[f].tracking && v.records[f].channel == c)
            && (f in v.records && (v.records[f].tracked || v.records[f].trackPending) ==> v.records[f].tracking)
  {
    RunKeeps(key, events);
  }

  /** The client's two tables: an address leads to a channel that leads back to a flow with that address. */
  lemma {:induction false} ClientTablesAgree(key: Flow -> string, events: seq<Event>, f: Flow)
    requires |Run(key, events).server.grants| <= ONES && key(f) in Run(key, events).client.addrs
    ensures var c := Run(key, events).client;
            c.addrs[key(f)] in c.channels && key(c.channels[c.addrs[key(f)]]) == key(f)
  {
    RunKeeps(key, events);
  }

  /**
    A flow that the server holds for tracked is known to the client on that very channel, whatever is still in
    flight.
   */
  lemma {:induction false} TrackedIsKnownToTheClient(key: Flow -> string, events: seq<Event>, f: Flow)
    requires var x := Run(key, events);
             |x.server.grants| <= ONES && f in x.server.records && x.server.records[f].tracked
    ensures var x := Run(key, events);
            var c := x.server.records[f].channel;
            c in x.client.channels && x.client.channels[c] == f
  {
    RunKeeps(key, events);
    var x := Run(key, events);
    var c := x.server.records[f].channel;
    assert MsgOk(key, x, AssociateDone(f, c));
    assert ChannelDestroy(c) in x.net ==> MsgOk(key, x, ChannelDestroy(c));
  }

  // ---------- The flows of a run ----------

  /** The packets that enter a run, at the client and from the remote side, belong to these flows. */
  ghost predicate UsesOnly(events: seq<Event>, flows: set<Flow>) {
    forall i :: 0 <= i < |events| && (events[i].Local? || events[i].Remote?) ==> events[i].flow in flows
  }

  ghost predicate MsgWithin(m: Msg, flows: set<Flow>) {
    match m
    case ChannelDestroy(_) => true
    case DataToServer(_, f, _) => f in flows
    case DataToClient(_, f, _) => f in flows
    case _ => m.flow in flows
  }

  ghost predicate Within(x: System, flows: set<Flow>) {
    && (forall c :: c in x.server.index ==> x.server.index[c] in flows)
    && (forall c :: c in x.client.channels ==> x.client.channels[c] in flows)
    && (forall m :: m in x.net ==> MsgWithin(m, flows))
    && (forall i :: 0 <= i < |x.deliveries| ==> x.deliveries[i].meant in flows && x.deliveries[i].got in flows)
  }

  lemma TrackStaysWithin(v: Server, f: Flow, room: bool, flows: set<Flow>)
    requires f in flows && forall c :: c in v.index ==> v.index[c] in flows
    ensures var t := Track(v, f, room);
            && (forall c :: c in t.server.index ==> t.server.index[c] in flows)
            && (forall m :: m in t.sent ==> MsgWithin(m, flows))
  {
    hide FindNext;
  }

  lemma ServerStaysWithin(x: System, o: ServerOutcome, meant: Flow, flows: set<Flow>)
    requires Within(x, flows) && forall c :: c in o.server.index ==> o.server.index[c] in flows
    requires forall m :: m in o.sent ==> MsgWithin(m, flows)
    requires o.delivered.Some? ==> meant in flows && o.delivered.value.0 in flows
    ensures Within(AfterServer(x, o, meant), flows)
  {
  }

  lemma ClientStaysWithin(x: System, o: ClientOutcome, meant: Flow, flows: set<Flow>)
    requires Within(x, flows) && forall c :: c in o.client.channels ==> o.client.channels[c] in flows
    requires forall m :: m in o.sent ==> MsgWithin(m, flows)
    requires o.delivered.Some? ==> meant in flows && o.delivered.value.0 in flows
    ensures Within(AfterClient(x, o, meant), flows)
  {
  }

  lemma {:induction false} SendStaysWithin(x: System, f: Flow, p: bytes, room: bool, dialed: bool, flows: set<Flow>)
    requires Within(x, flows) && f in flows
    ensures Within(AfterServer(x, ServerOnSend(x.server, f, p, room, dialed), f), flows)
  {
    hide FindNext, Track;
    var v := x.server;
    var w := if f.source in v.sources then v else v.(sources := v.sources[f.source := false]);
    TrackStaysWithin(w, f, room, flows);
    ServerStaysWithin(x, ServerOnSend(v, f, p, room, dialed), f, flows);
  }

  lemma {:induction false} RemoteStaysWithin(x: System, f: Flow, p: bytes, room: bool, flows: set<Flow>)
    requires Within(x, flows) && f in flows
    ensures Within(AfterServer(x, ServerOnRemote(x.server, f, p, room), f), flows)
  {
    hide FindNext, Track;
    TrackStaysWithin(x.server, f, room, flows);
    ServerStaysWithin(x, ServerOnRemote(x.server, f, p, room), f, flows);
  }

  lemma {:induction false} ReceiveStaysWithin(
    key: Flow -> string, x: System, msg: Msg, room: bool, dialed: bool, flows: set<Flow>)
    requires Within(x, flows) && msg in x.net
    ensures Within(Receive(key, x, msg, room, dialed), flows)
  {
    hide FindNext, Track, ServerOnSend;
    assert MsgWithin(msg, flows);
    match msg
    case Associate(f, c) => ClientStaysWithin(x, ClientOnAssociate(key, x.client, f, c), f, flows);
    case AssociateDone(f, c) => ServerStaysWithin(x, ServerOnDone(x.server, f, c), f, flows);
    case ChannelDestroy(c) => ClientStaysWithin(x, ClientOnDestroy(key, x.client, c), NO_FLOW, flows);
    case SendToServer(f, p) => SendStaysWithin(x, f, p, room, dialed, flows);
    case SendToClient(f, p) => ClientStaysWithin(x, ClientOutcome(x.client, {}, Some((f, p))), f, flows);
    case DataToServer(c, f, p) => ServerStaysWithin(x, ServerOnData(x.server, c, p, room), f, flows);
    case DataToClient(c, f, p) => ClientStaysWithin(x, ClientOnData(x.client, c, p), f, flows);
  }

  lemma {:induction false} StepStaysWithin(key: Flow -> string, x: System, e: Event, flows: set<Flow>)
    requires Within(x, flows) && (e.Local? || e.Remote? ==> e.flow in flows)
    ensures Within(Step(key, x, e), flows)
  {
    hide FindNext, Track, ServerOnRemote, Receive;
    match e
    case Arrive(msg, room, dialed) =>
      if msg in x.net {
        ReceiveStaysWithin(key, x, msg, room, dialed, flows);
      }
    case Local(f, p) => ClientStaysWithin(x, ClientOnLocal(key, x.client, f, p), f, flows);
    case Remote(f, p, room) => RemoteStaysWithin(x, f, p, room, flows);
    case Close(source) => ServerStaysWithin(x, ServerOnClose(x.server, source), NO_FLOW, flows);
    case UntrackTurn(f, room) => ServerStaysWithin(x, ServerOnUntrack(x.server, f, room), f, flows);
  }

  lemma {:induction false} RunStaysWithin(key: Flow -> string, events: seq<Event>, flows: set<Flow>)
    requires UsesOnly(events, flows)
    ensures Within(Run(key, events), flows)
  {
    if events != [] {
      hide Step;
      var n := |events| - 1;
      RunStaysWithin(key, events[..n], flows);
      StepStaysWithin(key, Run(key, events[..n]), events[n], flows);
    }
  }

  ghost predicate KeysApart(key: Flow -> string, flows: set<Flow>) {
    forall f, g :: f in flows && g in flows && key(f) == key(g) ==> f == g
  }

  /** Every payload of the run goes to the flow its sender meant. */
  ghost predicate AttributesAll(x: System) {
    forall i :: 0 <= i < |x.deliveries| ==> x.deliveries[i].meant == x.deliveries[i].got
  }

  /** No run of these flows without channel reuse hands a payload to the wrong flow. */
  ghost predicate SafeFor(key: Flow -> string, flows: set<Flow>) {
    forall events: seq<Event> ::
      UsesOnly(events, flows) && |Run(key, events).server.grants| <= ONES ==> AttributesAll(Run(key, events))
  }

  /** For any flows: every run of theirs attributes every payload correctly exactly when no two of them share a key. */
  lemma {:induction false} SafeExactlyWhenKeysApart(key: Flow -> string, flows: set<Flow>)
    ensures SafeFor(key, flows) <==> KeysApart(key, flows)
  {
    hide Run;
    if f, g :| f in flows && g in flows && key(f) == key(g) && f != g {
      var events := CollisionMisdelivers(key, f, g);
      var x := Run(key, events);
      assert UsesOnly(events, flows);
      assert x.deliveries[|x.deliveries| - 1].meant != x.deliveries[|x.deliveries| - 1].got;
    } else {
      forall events: seq<Event> | UsesOnly(events, flows) && |Run(key, events).server.grants| <= ONES
        ensures AttributesAll(Run(key, events))
      {
        RunKeeps(key, events);
        RunStaysWithin(key, events, flows);
        var x := Run(key, events);
        forall i | 0 <= i < |x.deliveries| ensures x.deliveries[i].meant == x.deliveries[i].got {
          assert DeliveryOk(key, x.deliveries[i]);
        }
      }
    }
  }

  ghost predicate Injective(key: Flow -> string) {
    forall f, g :: key(f) == key(g) ==> f == g
  }

  /** No run without channel reuse hands a payload to a flow other than the one its sender meant. */
  ghost predicate NeverMisdelivers(key: Flow -> string) {
    forall events: seq<Event>, i: nat ::
      |Run(key, events).server.grants| <= ONES && i < |Run(key, events).deliveries| ==>
        Run(key, events).deliveries[i].meant == Run(key, events).deliveries[i].got
  }

  lemma RunSnoc(key: Flow -> string, events: seq<Event>, e: Event)
    ensures Run(key, events + [e]) == Step(key, Run(key, events), e)
  {
    assert (events + [e])[..|events|] == events;
  }

  /** Two flows with one key: after the first has its channel, packets of the second go to the first's remote. */
  lemma {:induction false} CollisionMisdelivers(key: Flow -> string, f: Flow, g: Flow) returns (events: seq<Event>)
    requires key(f) == key(g) && f != g
    ensures var x := Run(key, events);
            |x.server.grants| <= ONES && x.deliveries != []
                && x.deliveries[|x.deliveries| - 1] == Delivery(true, g, f, [])
    ensures UsesOnly(events, {f, g})
  {
    hide Run, Step;
    var e1, e2 := Local(f, []), Arrive(SendToServer(f, []), true, true);
    var e3, e4 := Arrive(Associate(f, 1), true, true), Local(g, []);
    var e5 := Arrive(DataToServer(1, g, []), true, true);
    EmptyRun(key);
    RunSnoc(key, [], e1);
    RunSnoc(key, [] + [e1], e2);
    RunSnoc(key, [] + [e1] + [e2], e3);
    RunSnoc(key, [] + [e1] + [e2] + [e3], e4);
    RunSnoc(key, [] + [e1] + [e2] + [e3] + [e4], e5);
    var x1 := Step(key, NEW_SYSTEM, e1);
    FirstPacketLeaves(key, f);
    var x2 := Step(key, x1, e2);
    ServerGrantsOne(key, x1, f);
    var x3 := Step(key, x2, e3);
    ClientLearns(key, x2, f);
    var x4 := Step(key, x3, e4);
    SecondFlowLeaves(key, x3, f, g);
    ServerDelivers(key, x4, f, g);
    events := [] + [e1] + [e2] + [e3] + [e4] + [e5];
  }

  /** The server has given `f` channel 1 and has a socket for its source. */
  ghost predicate FirstGranted(v: Server, f: Flow) {
    v.index == map[1 := f] && v.sources == map[f.source := true] && v.grants == [f]
  }

  lemma FirstPacketLeaves(key: Flow -> string, f: Flow)
    ensures var x := Step(key, NEW_SYSTEM, Local(f, []));
            x.server == NEW_SERVER && x.client == NEW_CLIENT && SendToServer(f, []) in x.net
  {
  }

  lemma ServerGrantsOne(key: Flow -> string, x: System, f: Flow)
    requires x.server == NEW_SERVER && x.client == NEW_CLIENT && SendToServer(f, []) in x.net
    ensures var y := Step(key, x, Arrive(SendToServer(f, []), true, true));
            FirstGranted(y.server, f) && y.client == NEW_CLIENT && Associate(f, 1) in y.net
  {
    hide Track;
    FirstTrack(f);
    assert NEW_SERVER.sources[f.source := false] == map[f.source := false];
    assert map[f.source := false][f.source := true] == map[f.source := true];
  }

  lemma ClientLearns(key: Flow -> string, x: System, f: Flow)
    requires FirstGranted(x.server, f) && x.client == NEW_CLIENT && Associate(f, 1) in x.net
    ensures var y := Step(key, x, Arrive(Associate(f, 1), true, true));
            FirstGranted(y.server, f) && key(f) in y.client.addrs && y.client.addrs[key(f)] == 1
  {
  }

  lemma SecondFlowLeaves(key: Flow -> string, x: System, f: Flow, g: Flow)
    requires FirstGranted(x.server, f) && key(f) in x.client.addrs && x.client.addrs[key(f)] == 1 && key(g) == key(f)
    ensures var y := Step(key, x, Local(g, []));
            FirstGranted(y.server, f) && DataToServer(1, g, []) in y.net
  {
  }

  lemma ServerDelivers(key: Flow -> string, x: System, f: Flow, g: Flow)
    requires FirstGranted(x.server, f) && DataToServer(1, g, []) in x.net
    ensures var y := Step(key, x, Arrive(DataToServer(1, g, []), true, true));
            && |y.server.grants| <= ONES && y.deliveries != []
            && y.deliveries[|y.deliveries| - 1] == Delivery(true, g, f, [])
  {
  }

  lemma EmptyRun(key: Flow -> string)
    ensures Run(key, []) == NEW_SYSTEM
  {
  }

  lemma FirstTrack(f: Flow)
    ensures var t := Track(NEW_SERVER.(sources := map[f.source := false]), f, true);
            t.server.index == map[1 := f] && t.sent == {Associate(f, 1)} && t.server.grants == [f]
            && t.server.sources == map[f.source := false]
  {
    var v := NEW_SERVER.(sources := map[f.source := false]);
    assert v.index.Keys == {};
    CountsUp(0, v.index.Keys);
  }

  /** Attribution is always right exactly when no two flows share a key. */
  lemma NeverMisdeliversExactlyWhenInjective(key: Flow -> string)
    ensures NeverMisdelivers(key) <==> Injective(key)
  {
    if f, g :| key(f) == key(g) && f != g {
      var events := CollisionMisdelivers(key, f, g);
      var x := Run(key, events);
      assert x.deliveries[|x.deliveries| - 1].meant != x.deliveries[|x.deliveries| - 1].got;
    } else {
      forall events: seq<Event>, i: nat |
        |Run(key, events).server.grants| <= ONES && i < |Run(key, events).deliveries|
        ensures Run(key, events).deliveries[i].meant == Run(key, events).deliveries[i].got
      {
        RunKeeps(key, events);
        assert DeliveryOk(key, Run(key, events).deliveries[i]);
      }
    }
  }
}
