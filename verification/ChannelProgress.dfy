/**
  What the association protocol achieves: payloads arrive as they were sent, an answered association moves a flow to
  its channel, and every table entry changes on exactly the events that should change it.
 */
module ChannelProgress {
  import opened Bytes
  import opened ChannelNumbers
  import opened ChannelProtocol
  import opened ChannelProtocolProof

  // ---------- Payloads ----------

  /** The payload entered the run for flow `f`: from the client's network, or from the remote side. */
  ghost predicate Entered(events: seq<Event>, atClient: bool, f: Flow, payload: bytes) {
    exists i :: 0 <= i < |events| && Enters(events[i], atClient, f, payload)
  }

  predicate Enters(e: Event, atClient: bool, f: Flow, payload: bytes) {
    if atClient then e == Local(f, payload) else e.Remote? && e.flow == f && e.payload == payload
  }

  ghost predicate MsgEntered(events: seq<Event>, m: Msg) {
    match m
    case SendToServer(f, p) => Entered(events, true, f, p)
    case DataToServer(_, f, p) => Entered(events, true, f, p)
    case SendToClient(f, p) => Entered(events, false, f, p)
    case DataToClient(_, f, p) => Entered(events, false, f, p)
    case _ => true
  }

  ghost predicate AllEntered(events: seq<Event>, x: System) {
    && (forall m :: m in x.net ==> MsgEntered(events, m))
    && (forall i :: 0 <= i < |x.deliveries| ==>
          var d := x.deliveries[i]; Entered(events, d.atServer, d.meant, d.payload))
  }

  lemma EnteredStays(events: seq<Event>, e: Event, atClient: bool, f: Flow, payload: bytes)
    requires Entered(events, atClient, f, payload)
    ensures Entered(events + [e], atClient, f, payload)
  {
    var i :| 0 <= i < |events| && Enters(events[i], atClient, f, payload);
    assert (events + [e])[i] == events[i];
  }

  lemma EntersNow(events: seq<Event>, e: Event, atClient: bool, f: Flow, payload: bytes)
    requires Enters(e, atClient, f, payload)
    ensures Entered(events + [e], atClient, f, payload)
  {
    assert (events + [e])[|events|] == e;
  }

  lemma MsgStays(events: seq<Event>, e: Event, m: Msg)
    requires MsgEntered(events, m)
    ensures MsgEntered(events + [e], m)
  {
    match m
    case SendToServer(f, p) => EnteredStays(events, e, true, f, p);
    case DataToServer(_, f, p) => EnteredStays(events, e, true, f, p);
    case SendToClient(f, p) => EnteredStays(events, e, false, f, p);
    case DataToClient(_, f, p) => EnteredStays(events, e, false, f, p);
    case _ =>
  }

  /** A step adds these messages and deliveries. */
  lemma {:induction false} StepEntered(events: seq<Event>, e: Event, x: System, y: System)
    requires AllEntered(events, x) && x.deliveries <= y.deliveries
    requires forall m :: m in y.net ==> m in x.net || MsgEntered(events + [e], m)
    requires forall i :: |x.deliveries| <= i < |y.deliveries| ==>
               var d := y.deliveries[i]; Entered(events + [e], d.atServer, d.meant, d.payload)
    ensures AllEntered(events + [e], y)
  {
    hide Entered, MsgEntered;
    forall m | m in y.net ensures MsgEntered(events + [e], m) {
      if m in x.net {
        MsgStays(events, e, m);
      }
    }
    forall i | 0 <= i < |y.deliveries|
      ensures var d := y.deliveries[i]; Entered(events + [e], d.atServer, d.meant, d.payload)
    {
      if i < |x.deliveries| {
        var d := x.deliveries[i];
        EnteredStays(events, e, d.atServer, d.meant, d.payload);
      }
    }
  }

  /** What a handler hands on came with the message, and it sends no payload on its own. */
  lemma ReceiveHandsOn(key: Flow -> string, x: System, msg: Msg, room: bool, dialed: bool)
    ensures var y := Receive(key, x, msg, room, dialed);
            && (forall m :: m in y.net && m !in x.net ==> m.Associate? || m.AssociateDone? || m.ChannelDestroy?)
            && x.deliveries <= y.deliveries
            && (forall i :: |x.deliveries| <= i < |y.deliveries| ==>
                  match msg
                  case SendToServer(f, p) => y.deliveries[i] == Delivery(true, f, f, p)
                  case SendToClient(f, p) => y.deliveries[i] == Delivery(false, f, f, p)
                  case DataToServer(_, f, p) => y.deliveries[i] == Delivery(true, f, y.deliveries[i].got, p)
                  case DataToClient(_, f, p) => y.deliveries[i] == Delivery(false, f, y.deliveries[i].got, p)
                  case _ => false)
  {
    hide FindNext;
  }

  lemma {:induction false} ArriveEntered(
    key: Flow -> string, events: seq<Event>, x: System, msg: Msg, room: bool, dialed: bool)
    requires AllEntered(events, x) && msg in x.net
    ensures AllEntered(events + [Arrive(msg, room, dialed)], Receive(key, x, msg, room, dialed))
  {
    var e, y := Arrive(msg, room, dialed), Receive(key, x, msg, room, dialed);
    ReceiveHandsOn(key, x, msg, room, dialed);
    hide Receive, Entered;
    assert MsgEntered(events + [e], msg) by {
      MsgStays(events, e, msg);
    }
    StepEntered(events, e, x, y);
  }

  lemma {:induction false} EventEntered(key: Flow -> string, events: seq<Event>, x: System, e: Event)
    requires AllEntered(events, x)
    ensures AllEntered(events + [e], Step(key, x, e))
  {
    hide FindNext, Receive, Entered, AllEntered;
    match e
    case Arrive(msg, room, dialed) =>
      if msg in x.net {
        ArriveEntered(key, events, x, msg, room, dialed);
      } else {
        NothingEntered(events, e, x);
      }
    case Local(f, p) =>
      EntersNow(events, e, true, f, p);
      StepEntered(events, e, x, Step(key, x, e));
    case Remote(f, p, room) =>
      EntersNow(events, e, false, f, p);
      StepEntered(events, e, x, Step(key, x, e));
    case Close(source) => StepEntered(events, e, x, Step(key, x, e));
    case UntrackTurn(f, room) => StepEntered(events, e, x, Step(key, x, e));
  }

  lemma NothingEntered(events: seq<Event>, e: Event, x: System)
    requires AllEntered(events, x)
    ensures AllEntered(events + [e], x)
  {
    StepEntered(events, e, x, x);
  }

  lemma {:induction false} RunEntered(key: Flow -> string, events: seq<Event>)
    ensures AllEntered(events, Run(key, events))
  {
    if events != [] {
      hide AllEntered, Step;
      var n := |events| - 1;
      assert events == events[..n] + [events[n]];
      RunEntered(key, events[..n]);
      EventEntered(key, events[..n], Run(key, events[..n]), events[n]);
    }
  }

  /** Every payload that is handed on, on either side, entered the run before, for the flow that was meant. */
  lemma {:induction false} DeliveriesAreGenuine(key: Flow -> string, events: seq<Event>, i: nat)
    requires i < |Run(key, events).deliveries|
    ensures var d := Run(key, events).deliveries[i];
            exists j :: 0 <= j < |events| && Enters(events[j], d.atServer, d.meant, d.payload)
  {
    RunEntered(key, events);
    var d := Run(key, events).deliveries[i];
    assert Entered(events, d.atServer, d.meant, d.payload);
  }

  /** What the client hands to a flow is what the remote side had sent to that very flow. */
  lemma {:induction false} ClientGetsTheMeantFlow(key: Flow -> string, events: seq<Event>, i: nat)
    requires var x := Run(key, events);
             |x.server.grants| <= ONES && i < |x.deliveries| && !x.deliveries[i].atServer
    ensures var d := Run(key, events).deliveries[i];
            && d.meant == d.got
            && exists j :: 0 <= j < |events| && events[j].Remote? && events[j].flow == d.got
                           && events[j].payload == d.payload
  {
    hide Run;
    RunKeeps(key, events);
    var d := Run(key, events).deliveries[i];
    assert DeliveryOk(key, d);
    DeliveriesAreGenuine(key, events, i);
    var j :| 0 <= j < |events| && Enters(events[j], d.atServer, d.meant, d.payload);
    assert events[j].Remote?;
  }

  // ---------- What changes a record ----------

  predicate IsOpen(v: Server, source: Addr) {
    source in v.sources && v.sources[source]
  }

  /** The message arrives. */
  predicate Arrives(x: System, e: Event, m: Msg) {
    e.Arrive? && e.msg == m && m in x.net
  }

  /** The event makes the server ask for a channel of `f`: a payload with full addresses, or a remote one. */
  predicate Asks(x: System, e: Event, f: Flow) {
    match e
    case Remote(g, _, _) => g == f && IsOpen(x.server, f.source)
    case Arrive(m, _, _) => m in x.net && m.SendToServer? && m.flow == f
    case _ => false
  }

  /** The event ends the channel of `f`: its turn to be untracked, or data for it without a socket. */
  predicate Ends(x: System, e: Event, f: Flow) {
    var r := RecordOf(x.server, f);
    match e
    case UntrackTurn(g, room) => g == f && room && r.tracked
    case Arrive(m, room, _) =>
      m in x.net && m.DataToServer? && room && r.tracking && m.channel == r.channel && !IsOpen(x.server, f.source)
    case _ => false
  }

  function NextRecord(x: System, e: Event, f: Flow): Record {
    var r := RecordOf(x.server, f);
    if Asks(x, e, f) && !r.tracking then Record(true, e.room, false, |x.server.grants| + 1)
    else if Arrives(x, e, AssociateDone(f, r.channel)) then r.(tracked := true)
    else if Ends(x, e, f) then UNTRACKED
    else r
  }

  lemma {:induction false} TrackMoves(v: Server, f: Flow, room: bool, g: Flow)
    requires FinderOk(v) && TablesAgree(v) && |Track(v, f, room).server.grants| <= ONES && f.source in v.sources
    ensures RecordOf(Track(v, f, room).server, g)
         == if g == f && !RecordOf(v, f).tracking then Record(true, room, false, |v.grants| + 1) else RecordOf(v, g)
  {
    hide FindNext;
    if RecordOf(v, f).tracking {
      RetrackKeeps(v, f, room);
    } else {
      TrackAddsOne(v, f, room);
      TrackGrants(v, f, room);
    }
  }

  lemma UntrackMoves(v: Server, c: nat, room: bool, g: Flow)
    requires TablesAgree(v) && c in v.index
    ensures var r := RecordOf(v, g);
            RecordOf(Untrack(v, c, room).0, g) == if room && r.tracking && r.channel == c then UNTRACKED else r
  {
  }

  lemma {:induction false} SendMoves(v: Server, f: Flow, p: bytes, room: bool, dialed: bool, g: Flow)
    requires FinderOk(v) && TablesAgree(v) && |ServerOnSend(v, f, p, room, dialed).server.grants| <= ONES
    ensures RecordOf(ServerOnSend(v, f, p, room, dialed).server, g)
         == if g == f && !RecordOf(v, f).tracking then Record(true, room, false, |v.grants| + 1) else RecordOf(v, g)
  {
    hide Track;
    var w := if f.source in v.sources then v else v.(sources := v.sources[f.source := false]);
    TrackMoves(w, f, room, g);
  }

  lemma NoAnswerWithoutChannel(key: Flow -> string, x: System, f: Flow, c: nat)
    requires Inv(key, x) && AssociateDone(f, c) in x.net
    ensures c > 0
  {
    assert MsgOk(key, x, AssociateDone(f, c));
  }

  lemma {:induction false} AnswerMoves(key: Flow -> string, x: System, g: Flow, c: nat, f: Flow)
    requires Inv(key, x) && AssociateDone(g, c) in x.net
    ensures var r := RecordOf(x.server, f);
            var r' := RecordOf(ServerOnDone(x.server, g, c).server, f);
            r' == if g == f && r.channel == c then r.(tracked := true) else r
  {
    NoAnswerWithoutChannel(key, x, g, c);
  }

  lemma {:induction false} DataMoves(v: Server, c: nat, p: bytes, room: bool, f: Flow)
    requires TablesAgree(v)
    ensures var r, r' := RecordOf(v, f), RecordOf(ServerOnData(v, c, p, room).server, f);
            r' == if room && r.tracking && r.channel == c && !IsOpen(v, f.source) then UNTRACKED else r
  {
    hide Untrack;
    if c in v.index {
      UntrackMoves(v, c, room, f);
    }
  }

  lemma {:induction false} ReceiveMoves(key: Flow -> string, x: System, m: Msg, room: bool, dialed: bool, f: Flow)
    requires Inv(key, x) && m in x.net && |Receive(key, x, m, room, dialed).server.grants| <= ONES
    ensures RecordOf(Receive(key, x, m, room, dialed).server, f) == NextRecord(x, Arrive(m, room, dialed), f)
  {
    hide ServerOnSend, ServerOnDone, ServerOnData, RecordOf, MsgOk, ClientOk;
    match m
    case SendToServer(g, p) => SendMoves(x.server, g, p, room, dialed, f);
    case AssociateDone(g, c) => AnswerMoves(key, x, g, c, f);
    case DataToServer(c, _, p) => DataMoves(x.server, c, p, room, f);
    case _ =>
  }

  /**
    The record of a flow changes on exactly these events: asked for without a channel, it gets the next one; the answer
    for its channel makes it tracked; the end of its channel clears it. Nothing else touches it.
   */
  lemma {:induction false} RecordMoves(key: Flow -> string, x: System, e: Event, f: Flow)
    requires Inv(key, x) && |Step(key, x, e).server.grants| <= ONES
    ensures RecordOf(Step(key, x, e).server, f) == NextRecord(x, e, f)
  {
    hide Track, Untrack, FindNext, Receive;
    match e
    case Arrive(m, room, dialed) =>
      if m in x.net {
        ReceiveMoves(key, x, m, room, dialed, f);
      }
    case Remote(g, p, room) =>
      if IsOpen(x.server, g.source) {
        TrackMoves(x.server, g, room, f);
      }
    case UntrackTurn(g, room) =>
      var r := RecordOf(x.server, g);
      if r.tracked {
        UntrackMoves(x.server, r.channel, room, f);
      }
    case _ =>
  }

  // ---------- What changes a socket and the client's tables ----------

  lemma {:induction false} TrackKeepsSources(v: Server, f: Flow, room: bool)
    ensures Track(v, f, room).server.sources == v.sources
  {
    hide FindNext;
  }

  /** A source has a socket from the first dialled payload on until its listener gives up. */
  lemma {:induction false} SocketMoves(key: Flow -> string, x: System, e: Event, source: Addr)
    ensures var y := Step(key, x, e);
            var sends := e.Arrive? && e.msg in x.net && e.msg.SendToServer? && e.msg.flow.source == source;
            && (IsOpen(y.server, source) <==> e != Close(source) && (IsOpen(x.server, source) || (sends && e.dialed)))
            && (source in y.server.sources <==> source in x.server.sources || sends)
  {
    hide Track, FindNext;
    match e
    case Arrive(m, room, _) =>
      if m.SendToServer? {
        var v, f := x.server, m.flow;
        TrackKeepsSources(if f.source in v.sources then v else v.(sources := v.sources[f.source := false]), f, room);
      }
    case Remote(f, _, room) => TrackKeepsSources(x.server, f, room);
    case _ =>
  }

  /** The client knows a channel from the association that names it until the channel is destroyed. */
  lemma {:induction false} ChannelMoves(key: Flow -> string, x: System, e: Event, c: nat)
    ensures var before, after := x.client.channels, Step(key, x, e).client.channels;
            if e.Arrive? && e.msg in x.net && e.msg.Associate? && e.msg.channel == c then
              c in after && after[c] == e.msg.flow
            else if Arrives(x, e, ChannelDestroy(c)) then c !in after
            else (c in after <==> c in before) && (c in after ==> after[c] == before[c])
  {
    hide Track, FindNext, Untrack;
  }

  /** The client tags the packets of an address from its association until the channel with it is destroyed. */
  lemma {:induction false} AddressMoves(key: Flow -> string, x: System, e: Event, k: string)
    ensures var before, after := x.client.addrs, Step(key, x, e).client.addrs;
            if e.Arrive? && e.msg in x.net && e.msg.Associate? && key(e.msg.flow) == k then
              k in after && after[k] == e.msg.channel
            else if e.Arrive? && e.msg in x.net && e.msg.ChannelDestroy? && e.msg.channel in x.client.channels
                    && key(x.client.channels[e.msg.channel]) == k then k !in after
            else (k in after <==> k in before) && (k in after ==> after[k] == before[k])
  {
    hide Track, FindNext, Untrack;
  }

  // ---------- End to end ----------

  lemma {:induction false} RunMoves(key: Flow -> string, events: seq<Event>, e: Event)
    requires |Run(key, events + [e]).server.grants| <= ONES
    ensures Run(key, events + [e]) == Step(key, Run(key, events), e)
    ensures Inv(key, Run(key, events)) && Inv(key, Run(key, events + [e]))
  {
    hide Inv, Step;
    RunSnoc(key, events, e);
    GrantsGrow(key, Run(key, events), e);
    RunKeeps(key, events);
    RunKeeps(key, events + [e]);
  }

  /** The answer for the channel that a flow holds makes it tracked; an answer for any other leaves its record alone. */
  lemma {:induction false} AnswerTracks(
    key: Flow -> string, events: seq<Event>, f: Flow, c: nat, room: bool, dialed: bool)
    requires var x := Run(key, events);
             |x.server.grants| <= ONES && AssociateDone(f, c) in x.net && RecordOf(x.server, f).tracking
    ensures var r := RecordOf(Run(key, events).server, f);
            var r' := RecordOf(Run(key, events + [Arrive(AssociateDone(f, c), room, dialed)]).server, f);
            r' == if r.channel == c then Record(true, r.trackPending, true, c) else r
  {
    var x, e := Run(key, events), Arrive(AssociateDone(f, c), room, dialed);
    RunKeeps(key, events);
    RunSnoc(key, events, e);
    hide Run, Inv;
    RecordMoves(key, x, e, f);
  }

  /** What a payload from the remote side puts on the network. */
  ghost predicate RemoteSends(x: System, y: System, f: Flow, payload: bytes, room: bool) {
    var r := RecordOf(x.server, f);
    if !IsOpen(x.server, f.source) then y.net == x.net
    else if r.tracked then y.net == x.net + {DataToClient(r.channel, f, payload)}
    else if r.tracking || !room then y.net == x.net + {SendToClient(f, payload)}
    else y.net == x.net + {SendToClient(f, payload), Associate(f, |x.server.grants| + 1)}
  }

  lemma {:induction false} RemoteIsSent(key: Flow -> string, x: System, f: Flow, payload: bytes, room: bool)
    requires Inv(key, x) && |Step(key, x, Remote(f, payload, room)).server.grants| <= ONES
    ensures var y := Step(key, x, Remote(f, payload, room));
            RemoteSends(x, y, f, payload, room) && y.deliveries == x.deliveries && y.client == x.client
  {
    hide TablesAgree, MsgOk, ClientOk, Track;
    if IsOpen(x.server, f.source) {
      TrackSays(x.server, f, room);
      var r, m := RecordOf(x.server, f), ToClient(x, f, payload);
      var t := if r.tracking || !room then {} else {Associate(f, |x.server.grants| + 1)};
      assert ServerOnRemote(x.server, f, payload, room).sent == t + {m};
    }
  }

  lemma TrackSays(v: Server, f: Flow, room: bool)
    requires FinderOk(v) && TablesAgree(v) && f.source in v.sources && |Track(v, f, room).server.grants| <= ONES
    ensures var r, t := RecordOf(v, f), Track(v, f, room);
            && t.tracked == r.tracked && (r.tracked ==> r.tracking && t.channel == r.channel)
            && t.sent == if r.tracking || !room then {} else {Associate(f, |v.grants| + 1)}
  {
    hide FindNext;
    if !RecordOf(v, f).tracking {
      TrackAddsOne(v, f, room);
      TrackGrants(v, f, room);
    }
  }

  /** The message that carries a payload to the client. */
  function ToClient(x: System, f: Flow, payload: bytes): Msg {
    var r := RecordOf(x.server, f);
    if r.tracked then DataToClient(r.channel, f, payload) else SendToClient(f, payload)
  }

  /**
    A payload from the remote side of an open socket leaves in exactly one message, on its channel if the flow is
    tracked and with full addresses otherwise. When that message arrives, the client hands the payload to the flow.
   */
  lemma {:induction false} RemoteReachesTheClient(
    key: Flow -> string, events: seq<Event>, f: Flow, payload: bytes, room: bool, room': bool, dialed': bool)
    requires |Run(key, events + [Remote(f, payload, room)]).server.grants| <= ONES
    requires IsOpen(Run(key, events).server, f.source)
    ensures var x, e := Run(key, events), Remote(f, payload, room);
            var m := ToClient(x, f, payload);
            && m in Run(key, events + [e]).net && RemoteSends(x, Run(key, events + [e]), f, payload, room)
            && Run(key, events + [e] + [Arrive(m, room', dialed')]).deliveries
            == x.deliveries + [Delivery(false, f, f, payload)]
  {
    var x, e := Run(key, events), Remote(f, payload, room);
    var y, m := Run(key, events + [e]), ToClient(x, f, payload);
    hide Inv, RemoteSends, Receive;
    RunMoves(key, events, e);
    RunSnoc(key, events + [e], Arrive(m, room', dialed'));
    hide Run;
    RemoteIsSent(key, x, f, payload, room);
    SentToClient(key, x, y, f, payload, room);
    ClientHandsOn(key, y, m, room', dialed');
  }

  lemma {:induction false} SentToClient(key: Flow -> string, x: System, y: System, f: Flow, payload: bytes, room: bool)
    requires Inv(key, x) && IsOpen(x.server, f.source) && RemoteSends(x, y, f, payload, room) && y.client == x.client
    ensures ToClient(x, f, payload) in y.net && TakenAs(y, ToClient(x, f, payload)) == Some(f)
  {
    if RecordOf(x.server, f).tracked {
      TrackedIsKnown(key, x, f);
    }
    hide Inv;
  }

  /** The flow that the client hands the payload of a message to, if any. */
  function TakenAs(x: System, m: Msg): Option<Flow> {
    match m
    case SendToClient(f, _) => Some(f)
    case DataToClient(c, _, _) => if c in x.client.channels then Some(x.client.channels[c]) else None
    case _ => None
  }

  lemma ClientHandsOn(key: Flow -> string, x: System, m: Msg, room: bool, dialed: bool)
    requires m.SendToClient? || m.DataToClient?
    ensures var got := TakenAs(x, m);
            var f := if m.SendToClient? then m.flow else m.meant;
            var more := if got.Some? then [Delivery(false, f, got.value, m.payload)] else [];
            Receive(key, x, m, room, dialed).deliveries == x.deliveries + more
  {
  }

  /** The message that carries a payload to the server. */
  function ToServer(key: Flow -> string, x: System, f: Flow, payload: bytes): Msg {
    if key(f) in x.client.addrs then DataToServer(x.client.addrs[key(f)], f, payload) else SendToServer(f, payload)
  }

  /** The flow that the server hands the payload of such a message to, if any. */
  function ServedAs(x: System, m: Msg, dialed: bool): Option<Flow> {
    match m
    case SendToServer(f, _) => if IsOpen(x.server, f.source) || dialed then Some(f) else None
    case DataToServer(c, _, _) =>
      if c in x.server.index && IsOpen(x.server, x.server.index[c].source) then Some(x.server.index[c]) else None
    case _ => None
  }

  /**
    A packet of the client's network leaves in exactly one message. When that arrives, the server hands the payload on,
    to the flow itself or to the one that holds its channel, exactly if the socket of that flow is open or is dialled.
   */
  lemma {:induction false} LocalReachesTheServer(
    key: Flow -> string, events: seq<Event>, f: Flow, payload: bytes, room: bool, dialed: bool)
    ensures var x, e := Run(key, events), Local(f, payload);
            var m := ToServer(key, x, f, payload);
            var got := ServedAs(x, m, dialed);
            && Run(key, events + [e]) == x.(net := x.net + {m})
            && Run(key, events + [e] + [Arrive(m, room, dialed)]).deliveries
            == x.deliveries + if got.Some? then [Delivery(true, f, got.value, payload)] else []
  {
    var x, e := Run(key, events), Local(f, payload);
    var m := ToServer(key, x, f, payload);
    RunSnoc(key, events, e);
    RunSnoc(key, events + [e], Arrive(m, room, dialed));
    hide Run;
    assert Step(key, x, e) == x.(net := x.net + {m});
    ServerHandsOn(key, x.(net := x.net + {m}), m, room, dialed);
  }

  lemma {:induction false} ServerHandsOn(key: Flow -> string, x: System, m: Msg, room: bool, dialed: bool)
    requires m.SendToServer? || m.DataToServer?
    ensures var got := ServedAs(x, m, dialed);
            var f := if m.SendToServer? then m.flow else m.meant;
            var more := if got.Some? then [Delivery(true, f, got.value, m.payload)] else [];
            Receive(key, x, m, room, dialed).deliveries == x.deliveries + more
  {
    hide Track, Untrack;
    if m.SendToServer? {
      var v, f := x.server, m.flow;
      TrackKeepsSources(if f.source in v.sources then v else v.(sources := v.sources[f.source := false]), f, room);
    }
  }

  /** Server and client use channel `c` for `f` in both directions. */
  ghost predicate OnChannel(key: Flow -> string, x: System, f: Flow, c: nat, payload: bytes) {
    && ToClient(x, f, payload) == DataToClient(c, f, payload) && TakenAs(x, ToClient(x, f, payload)) == Some(f)
    && ToServer(key, x, f, payload) == DataToServer(c, f, payload)
    && ServedAs(x, ToServer(key, x, f, payload), false) == Some(f)
  }

  lemma {:induction false} AssociationIsLearnt(
    key: Flow -> string, x: System, f: Flow, c: nat, room: bool, dialed: bool)
    requires Inv(key, x) && Associate(f, c) in x.net
    ensures var y := Step(key, x, Arrive(Associate(f, c), room, dialed));
            && y.server == x.server && AssociateDone(f, c) in y.net
            && key(f) in y.client.addrs && y.client.addrs[key(f)] == c
  {
  }

  lemma {:induction false} AnswerCompletes(
    key: Flow -> string, x: System, f: Flow, c: nat, p: bytes, room: bool, dialed: bool)
    requires Inv(key, x) && AssociateDone(f, c) in x.net && key(f) in x.client.addrs && x.client.addrs[key(f)] == c
    requires RecordOf(x.server, f).tracking && RecordOf(x.server, f).channel == c && IsOpen(x.server, f.source)
    ensures var y := Step(key, x, Arrive(AssociateDone(f, c), room, dialed));
            Inv(key, y) ==> OnChannel(key, y, f, c, p)
  {
    var e := Arrive(AssociateDone(f, c), room, dialed);
    var y := Step(key, x, e);
    AnswerIsSmall(key, x, f, c, room, dialed);
    hide Step, MsgOk, ClientOk;
    RecordMoves(key, x, e, f);
    SocketMoves(key, x, e, f.source);
    if Inv(key, y) {
      TrackedIsKnown(key, y, f);
    }
  }

  lemma AnswerIsSmall(key: Flow -> string, x: System, f: Flow, c: nat, room: bool, dialed: bool)
    ensures var y := Step(key, x, Arrive(AssociateDone(f, c), room, dialed));
            y.client == x.client && y.server.index == x.server.index && y.server.grants == x.server.grants
  {
  }

  lemma TrackedIsKnown(key: Flow -> string, x: System, f: Flow)
    requires Inv(key, x) && RecordOf(x.server, f).tracked
    ensures var c := RecordOf(x.server, f).channel; c in x.client.channels && x.client.channels[c] == f
  {
    var c := RecordOf(x.server, f).channel;
    assert MsgOk(key, x, AssociateDone(f, c));
    assert ChannelDestroy(c) in x.net ==> MsgOk(key, x, ChannelDestroy(c));
  }

  /**
    From wherever a run has come: a remote payload of a flow without a channel announces one, and when announcement and
    answer have arrived, both sides send and take the flow's payloads on that channel.
   */
  lemma {:induction false} HandshakeCompletes(
    key: Flow -> string, events: seq<Event>, f: Flow, payload: bytes, next: bytes)
    requires |Run(key, events).server.grants| < ONES && IsOpen(Run(key, events).server, f.source)
    requires !RecordOf(Run(key, events).server, f).tracking
    ensures var n := |Run(key, events).server.grants| + 1;
            var a, b := Arrive(Associate(f, n), true, false), Arrive(AssociateDone(f, n), true, false);
            OnChannel(key, Run(key, events + [Remote(f, payload, true)] + [a] + [b]), f, n, next)
  {
    var x, n, e := Run(key, events), |Run(key, events).server.grants| + 1, Remote(f, payload, true);
    var a, b := Arrive(Associate(f, n), true, false), Arrive(AssociateDone(f, n), true, false);
    hide Inv, OnChannel, Step;
    RunKeeps(key, events);
    RunSnoc(key, events, e);
    RunSnoc(key, events + [e], a);
    RunSnoc(key, events + [e] + [a], b);
    hide Run;
    RemoteAnnounces(key, x, f, payload);
    var y := Step(key, x, e);
    StepKeeps(key, x, e);
    AssociationIsLearnt(key, y, f, n, true, false);
    var z := Step(key, y, a);
    StepKeeps(key, y, a);
    AnswerKeeps(key, z, f, n);
    AnswerCompletes(key, z, f, n, next, true, false);
  }

  lemma {:induction false} RemoteAnnounces(key: Flow -> string, x: System, f: Flow, payload: bytes)
    requires Inv(key, x) && |x.server.grants| < ONES && IsOpen(x.server, f.source) && !RecordOf(x.server, f).tracking
    ensures var n, y := |x.server.grants| + 1, Step(key, x, Remote(f, payload, true));
            && Associate(f, n) in y.net && |y.server.grants| == n && IsOpen(y.server, f.source)
            && RecordOf(y.server, f).tracking && RecordOf(y.server, f).channel == n
  {
    TrackAddsOne(x.server, f, true);
    RemoteIsSent(key, x, f, payload, true);
    RecordMoves(key, x, Remote(f, payload, true), f);
    hide Track, Inv;
    TrackKeepsSources(x.server, f, true);
  }

  lemma {:induction false} AnswerKeeps(key: Flow -> string, x: System, f: Flow, c: nat)
    requires Inv(key, x)
    ensures Inv(key, Step(key, x, Arrive(AssociateDone(f, c), true, false)))
  {
    hide MsgOk, ClientOk, TablesAgree;
    if AssociateDone(f, c) in x.net {
      DoneKeeps(key, x, f, c);
    }
  }

  /** No side uses channel `c` any more, and the packets of `f` carry their addresses. */
  ghost predicate OffChannel(key: Flow -> string, x: System, f: Flow, c: nat) {
    RecordOf(x.server, f) == UNTRACKED && c !in x.server.index && c !in x.client.channels && key(f) !in x.client.addrs
  }

  /** At the turn of a tracked flow to be untracked the client is told, and then neither side has the channel. */
  lemma {:induction false} UntrackingReachesTheClient(key: Flow -> string, events: seq<Event>, f: Flow)
    requires |Run(key, events).server.grants| <= ONES && RecordOf(Run(key, events).server, f).tracked
    ensures var c := RecordOf(Run(key, events).server, f).channel;
            var a, b := UntrackTurn(f, true), Arrive(ChannelDestroy(c), true, false);
            && ChannelDestroy(c) in Run(key, events + [a]).net
            && OffChannel(key, Run(key, events + [a] + [b]), f, c)
  {
    var x, c := Run(key, events), RecordOf(Run(key, events).server, f).channel;
    var a, b := UntrackTurn(f, true), Arrive(ChannelDestroy(c), true, false);
    hide Inv, OffChannel, Step;
    RunKeeps(key, events);
    RunSnoc(key, events, a);
    RunSnoc(key, events + [a], b);
    hide Run;
    TrackedIsKnown(key, x, f);
    TurnSends(key, x, f);
    RecordMoves(key, x, a, f);
    DestroyIsFollowed(key, Step(key, x, a), f, c);
  }

  lemma {:induction false} TurnSends(key: Flow -> string, x: System, f: Flow)
    requires Inv(key, x) && RecordOf(x.server, f).tracked
    ensures var c, y := RecordOf(x.server, f).channel, Step(key, x, UntrackTurn(f, true));
            && ChannelDestroy(c) in y.net && y.client == x.client
            && c !in y.server.index && y.server.grants == x.server.grants
  {
    hide MsgOk, ClientOk;
  }

  lemma {:induction false} DestroyIsFollowed(key: Flow -> string, x: System, f: Flow, c: nat)
    requires RecordOf(x.server, f) == UNTRACKED && c !in x.server.index && ChannelDestroy(c) in x.net
    requires c in x.client.channels && x.client.channels[c] == f
    ensures OffChannel(key, Step(key, x, Arrive(ChannelDestroy(c), true, false)), f, c)
  {
  }
}
