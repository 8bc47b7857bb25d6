/**
  A flow that gets its channel while the control queue is full: the announcement is dropped and never made up for.
 */
module Unannounced {
  import opened Bytes
  import opened ChannelNumbers
  import opened ChannelProtocol
  import opened ChannelProtocolProof

  /** The server keeps tracking the flow on channel `c` without having announced it. */
  ghost predicate Waiting(v: Server, f: Flow, c: nat) {
    f in v.records && v.records[f] == Record(true, false, false, c)
  }

  /** No message could tell the client about channel `c`, or come from a client that knows it. */
  ghost predicate Untold(m: Msg, c: nat) {
    match m
    case Associate(_, d) => d != c
    case AssociateDone(_, d) => d != c
    case DataToServer(d, _, _) => d != c
    case _ => true
  }

  ghost predicate Silent(x: System, f: Flow, c: nat) {
    Waiting(x.server, f, c) && c !in x.client.channels && forall m :: m in x.net ==> Untold(m, c)
  }

  // ---------- Steps ----------

  lemma ServerStaysSilent(x: System, o: ServerOutcome, meant: Flow, f: Flow, c: nat)
    requires Silent(x, f, c) && Waiting(o.server, f, c) && forall m :: m in o.sent ==> Untold(m, c)
    ensures Silent(AfterServer(x, o, meant), f, c)
  {
  }

  lemma ClientStaysSilent(x: System, o: ClientOutcome, meant: Flow, f: Flow, c: nat)
    requires Silent(x, f, c) && c !in o.client.channels && forall m :: m in o.sent ==> Untold(m, c)
    ensures Silent(AfterClient(x, o, meant), f, c)
  {
  }

  /** Tracking any flow leaves the waiting one alone: it counts as tracking already. */
  lemma TrackStaysSilent(v: Server, g: Flow, room: bool, f: Flow, c: nat)
    requires FinderOk(v) && TablesAgree(v) && Waiting(v, f, c) && |Track(v, g, room).server.grants| <= ONES
    ensures var t := Track(v, g, room); Waiting(t.server, f, c) && forall m :: m in t.sent ==> Untold(m, c)
  {
    hide FindNext;
    if g.source !in v.sources || RecordOf(v, g).tracking {
      RetrackKeeps(v, g, room);
    } else {
      TrackAddsOne(v, g, room);
      TrackGrants(v, g, room);
      assert Granted(v, c, f);
      hide Track;
    }
  }

  lemma UntrackStaysSilent(v: Server, d: nat, room: bool, f: Flow, c: nat)
    requires TablesAgree(v) && Waiting(v, f, c) && d in v.index && d != c
    ensures var (w, sent) := Untrack(v, d, room); Waiting(w, f, c) && forall m :: m in sent ==> Untold(m, c)
  {
  }

  lemma {:induction false} SendStaysSilent(
    key: Flow -> string, x: System, g: Flow, p: bytes, room: bool, dialed: bool, f: Flow, c: nat)
    requires Inv(key, x) && Silent(x, f, c) && |ServerOnSend(x.server, g, p, room, dialed).server.grants| <= ONES
    ensures Silent(AfterServer(x, ServerOnSend(x.server, g, p, room, dialed), g), f, c)
  {
    hide FindNext, Track;
    var v := x.server;
    var w := if g.source in v.sources then v else v.(sources := v.sources[g.source := false]);
    SourceKeeps(v, g.source, false);
    TrackStaysSilent(w, g, room, f, c);
    ServerStaysSilent(x, ServerOnSend(v, g, p, room, dialed), g, f, c);
  }

  lemma SourceKeeps(v: Server, source: Addr, open: bool)
    requires FinderOk(v) && TablesAgree(v)
    ensures var w := v.(sources := v.sources[source := open]); FinderOk(w) && TablesAgree(w)
  {
  }

  lemma {:induction false} RemoteStaysSilent(
    key: Flow -> string, x: System, g: Flow, p: bytes, room: bool, f: Flow, c: nat)
    requires Inv(key, x) && Silent(x, f, c) && |ServerOnRemote(x.server, g, p, room).server.grants| <= ONES
    ensures Silent(AfterServer(x, ServerOnRemote(x.server, g, p, room), g), f, c)
  {
    hide FindNext, Track;
    if g.source in x.server.sources && x.server.sources[g.source] {
      TrackStaysSilent(x.server, g, room, f, c);
    }
    ServerStaysSilent(x, ServerOnRemote(x.server, g, p, room), g, f, c);
  }

  lemma {:induction false} DataStaysSilent(
    key: Flow -> string, x: System, d: nat, g: Flow, p: bytes, room: bool, f: Flow, c: nat)
    requires Inv(key, x) && Silent(x, f, c) && DataToServer(d, g, p) in x.net
    ensures Silent(AfterServer(x, ServerOnData(x.server, d, p, room), g), f, c)
  {
    assert Untold(DataToServer(d, g, p), c);
    if d in x.server.index {
      UntrackStaysSilent(x.server, d, room, f, c);
    }
    hide Untrack;
    ServerStaysSilent(x, ServerOnData(x.server, d, p, room), g, f, c);
  }

  lemma {:induction false} UntrackTurnStaysSilent(
    key: Flow -> string, x: System, g: Flow, room: bool, f: Flow, c: nat)
    requires Inv(key, x) && Silent(x, f, c)
    ensures Silent(AfterServer(x, ServerOnUntrack(x.server, g, room), g), f, c)
  {
    var r := RecordOf(x.server, g);
    if g in x.server.records && r.tracking && r.tracked {
      UntrackStaysSilent(x.server, r.channel, room, f, c);
    }
    hide Untrack;
    ServerStaysSilent(x, ServerOnUntrack(x.server, g, room), g, f, c);
  }

  lemma {:induction false} ReceiveStaysSilent(
    key: Flow -> string, x: System, msg: Msg, room: bool, dialed: bool, f: Flow, c: nat)
    requires Inv(key, x) && Silent(x, f, c) && msg in x.net
    requires |Receive(key, x, msg, room, dialed).server.grants| <= ONES
    ensures Silent(Receive(key, x, msg, room, dialed), f, c)
  {
    hide Inv, ServerOnSend, ServerOnData;
    assert Untold(msg, c);
    match msg
    case Associate(g, d) => ClientStaysSilent(x, ClientOnAssociate(key, x.client, g, d), g, f, c);
    case AssociateDone(g, d) => ServerStaysSilent(x, ServerOnDone(x.server, g, d), g, f, c);
    case ChannelDestroy(d) => ClientStaysSilent(x, ClientOnDestroy(key, x.client, d), NO_FLOW, f, c);
    case SendToServer(g, p) => SendStaysSilent(key, x, g, p, room, dialed, f, c);
    case SendToClient(g, p) => ClientStaysSilent(x, ClientOutcome(x.client, {}, Some((g, p))), g, f, c);
    case DataToServer(d, g, p) => DataStaysSilent(key, x, d, g, p, room, f, c);
    case DataToClient(d, g, p) => ClientStaysSilent(x, ClientOnData(x.client, d, p), g, f, c);
  }

  lemma {:induction false} LocalStaysSilent(key: Flow -> string, x: System, g: Flow, p: bytes, f: Flow, c: nat)
    requires Inv(key, x) && Silent(x, f, c)
    ensures Silent(AfterClient(x, ClientOnLocal(key, x.client, g, p), g), f, c)
  {
    assert key(g) in x.client.addrs ==> x.client.addrs[key(g)] in x.client.channels;
    ClientStaysSilent(x, ClientOnLocal(key, x.client, g, p), g, f, c);
  }

  lemma {:induction false} StepStaysSilent(key: Flow -> string, x: System, e: Event, f: Flow, c: nat)
    requires Inv(key, x) && Silent(x, f, c) && |Step(key, x, e).server.grants| <= ONES
    ensures Silent(Step(key, x, e), f, c)
  {
    hide Inv, Receive, ServerOnRemote, ServerOnUntrack, ClientOnLocal;
    match e
    case Arrive(msg, room, dialed) =>
      if msg in x.net {
        ReceiveStaysSilent(key, x, msg, room, dialed, f, c);
      }
    case Local(g, p) => LocalStaysSilent(key, x, g, p, f, c);
    case Remote(g, p, room) => RemoteStaysSilent(key, x, g, p, room, f, c);
    case Close(source) => ServerStaysSilent(x, ServerOnClose(x.server, source), NO_FLOW, f, c);
    case UntrackTurn(g, room) => UntrackTurnStaysSilent(key, x, g, room, f, c);
  }

  // ---------- Runs ----------

  /** The event makes the server track flow `f`, and finds no room in the control queue. */
  ghost predicate NoRoomFor(e: Event, f: Flow) {
    || (e.Remote? && e.flow == f && !e.room)
    || (e.Arrive? && e.msg.SendToServer? && e.msg.flow == f && !e.room)
  }

  /** A channel that was never handed out before is unknown everywhere. */
  lemma NewChannelIsUntold(key: Flow -> string, x: System, c: nat)
    requires Inv(key, x) && c > |x.server.grants|
    ensures c !in x.client.channels && forall m :: m in x.net ==> Untold(m, c)
  {
    forall m | m in x.net ensures Untold(m, c) {
      assert MsgOk(key, x, m);
    }
  }

  lemma TrackWithoutRoom(v: Server, f: Flow)
    requires FinderOk(v) && TablesAgree(v) && |Track(v, f, false).server.grants| == |v.grants| + 1 <= ONES
    ensures var t := Track(v, f, false); Waiting(t.server, f, |v.grants| + 1) && t.sent == {} && !t.tracked
  {
    hide FindNext;
    if f.source !in v.sources || RecordOf(v, f).tracking {
      RetrackKeeps(v, f, false);
    } else {
      TrackGrants(v, f, false);
    }
  }

  lemma {:induction false} GrantWithoutRoom(key: Flow -> string, x: System, e: Event, f: Flow)
    requires Inv(key, x) && NoRoomFor(e, f) && |Step(key, x, e).server.grants| == |x.server.grants| + 1 <= ONES
    ensures Silent(Step(key, x, e), f, |x.server.grants| + 1)
  {
    hide FindNext, Track;
    var c := |x.server.grants| + 1;
    NewChannelIsUntold(key, x, c);
    var v := x.server;
    if e.Remote? {
      if f.source in v.sources && v.sources[f.source] {
        TrackWithoutRoom(v, f);
      }
    } else {
      SourceKeeps(v, f.source, false);
      var w := if f.source in v.sources then v else v.(sources := v.sources[f.source := false]);
      TrackWithoutRoom(w, f);
    }
  }

  lemma {:induction false} RunStaysSilent(key: Flow -> string, events: seq<Event>, more: seq<Event>, f: Flow, c: nat)
    requires Silent(Run(key, events), f, c) && |Run(key, events + more).server.grants| <= ONES
    ensures Silent(Run(key, events + more), f, c)
    decreases |more|
  {
    hide Silent, Step;
    if more == [] {
      assert events + more == events;
    } else {
      var n := |more| - 1;
      var all := events + more;
      assert all[..|all| - 1] == events + more[..n];
      var x := Run(key, events + more[..n]);
      GrantsGrow(key, x, more[n]);
      RunStaysSilent(key, events, more[..n], f, c);
      RunKeeps(key, events + more[..n]);
      StepStaysSilent(key, x, more[n], f, c);
    }
  }

  /**
    In every run: a flow that is granted its channel when there is no room for the announcement keeps that channel and
    is never tracked, the client never learns of the channel, and no announcement of it is ever sent.
   */
  lemma {:induction false} UnannouncedStaysUntracked(
    key: Flow -> string, events: seq<Event>, e: Event, more: seq<Event>, f: Flow)
    requires NoRoomFor(e, f) && |Run(key, events + [e] + more).server.grants| <= ONES
    requires |Run(key, events + [e]).server.grants| == |Run(key, events).server.grants| + 1 <= ONES
    ensures var x, c := Run(key, events + [e] + more), |Run(key, events).server.grants| + 1;
            && f in x.server.records && x.server.records[f] == Record(true, false, false, c)
            && Associate(f, c) !in x.net && c !in x.client.channels
  {
    hide Step, Run;
    var x := Run(key, events);
    RunSnoc(key, events, e);
    RunKeeps(key, events);
    GrantWithoutRoom(key, x, e, f);
    var c := |x.server.grants| + 1;
    RunStaysSilent(key, events + [e], more, f, c);
    assert Associate(f, c) in Run(key, events + [e] + more).net ==> Untold(Associate(f, c), c);
  }
}
