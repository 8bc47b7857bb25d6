/**
  Channel association between server and client: the handlers of both workers as functions on their tables,
  and the two workers joined by a network that may lose, delay, reorder and repeat every message.

  A data message carries, beside its channel number, the flow its sender meant; no handler looks at it.
 */
module ChannelProtocol {
  import opened Bytes
  import opened ChannelNumbers

  datatype Addr = Addr(a: byte, b: byte, c: byte, d: byte, port: uint16)

  /** `source` is the address in the client's network, `dest` the remote address. */
  datatype Flow = Flow(source: Addr, dest: Addr)

  datatype Msg =
    | Associate(flow: Flow, channel: nat)
    | AssociateDone(flow: Flow, channel: nat)
    | ChannelDestroy(channel: nat)
    | SendToServer(flow: Flow, payload: bytes)
    | SendToClient(flow: Flow, payload: bytes)
    | DataToServer(channel: nat, meant: Flow, payload: bytes)
    | DataToClient(channel: nat, meant: Flow, payload: bytes)

  // ---------- Server ----------

  datatype Record = Record(tracking: bool, trackPending: bool, tracked: bool, channel: nat)

  const UNTRACKED := Record(false, false, false, 0)

  /**
    `sources` holds the clients' logical connections and whether each has a socket, `records` their tracked
    connections by remote address, `index` the flows by channel. `grants` remembers every allocation in order.
   */
  datatype Server = Server(
    sources: map<Addr, bool>, records: map<Flow, Record>, index: map<nat, Flow>, finder: Finder, grants: seq<Flow>)

  const NEW_SERVER := Server(map[], map[], map[], NEW_FINDER, [])

  /** A handler's outcome: the new tables, what is sent, and the payload handed on with the flow it is handed to. */
  datatype ServerOutcome = ServerOutcome(server: Server, sent: set<Msg>, delivered: Option<(Flow, bytes)>)

  datatype Tracking = Tracking(server: Server, sent: set<Msg>, tracked: bool, channel: nat)

  function RecordOf(v: Server, f: Flow): Record {
    if f in v.records then v.records[f] else UNTRACKED
  }

  /** `isConnectionTracked` with tracking on demand; `room` says whether the control queue takes the announcement. */
  function Track(v: Server, f: Flow, room: bool): Tracking {
    if f.source !in v.sources then Tracking(v, {}, false, 0)
    else
      var r := RecordOf(v, f);
      if r.tracked then Tracking(v.(records := v.records[f := r]), {}, true, r.channel)
      else if r.tracking then Tracking(v.(records := v.records[f := r]), {}, false, r.channel)
      else
        var (finder, channel) := FindNext(v.finder, v.index.Keys);
        var w := v.(finder := finder, grants := v.grants + [f]);
        if r.trackPending then
          Tracking(w.(records := v.records[f := r.(tracking := true, channel := channel)]), {}, false, channel)
        else
          Tracking(
            w.(records := v.records[f := Record(true, room, false, channel)],
               index := if channel in v.index then v.index else v.index[channel := f]),
            if room then {Associate(f, channel)} else {}, false, channel)
  }

  /** `untrackConnection`. */
  function Untrack(v: Server, channel: nat, room: bool): (Server, set<Msg>) {
    if !room then (v, {})
    else if channel !in v.index then (v, {ChannelDestroy(channel)})
    else
      var f := v.index[channel];
      if f.source !in v.sources then (v, {ChannelDestroy(channel)})
      else (v.(records := v.records[f := UNTRACKED], index := v.index - {channel}), {ChannelDestroy(channel)})
  }

  /** A payload with explicit addresses arrives from the client. */
  function ServerOnSend(v: Server, f: Flow, payload: bytes, room: bool, dialed: bool): ServerOutcome {
    var w := if f.source in v.sources then v else v.(sources := v.sources[f.source := false]);
    var t := Track(w, f, room);
    var open := t.server.sources[f.source] || dialed;
    ServerOutcome(t.server.(sources := t.server.sources[f.source := open]), t.sent,
                  if open then Some((f, payload)) else None)
  }

  /** A payload arrives from the remote side, on a socket that is open. */
  function ServerOnRemote(v: Server, f: Flow, payload: bytes, room: bool): ServerOutcome {
    if f.source !in v.sources || !v.sources[f.source] then ServerOutcome(v, {}, None)
    else
      var t := Track(v, f, room);
      var msg := if t.tracked then DataToClient(t.channel, f, payload) else SendToClient(f, payload);
      ServerOutcome(t.server, t.sent + {msg}, None)
  }

  function ServerOnDone(v: Server, f: Flow, channel: nat): ServerOutcome {
    if f.source !in v.sources then ServerOutcome(v, {}, None)
    else
      var r := RecordOf(v, f);
      var r' := if r.channel == channel then r.(tracked := true) else r;
      ServerOutcome(v.(records := v.records[f := r']), {}, None)
  }

  function ServerOnData(v: Server, channel: nat, payload: bytes, room: bool): ServerOutcome {
    if channel !in v.index then ServerOutcome(v, {}, None)
    else
      var f := v.index[channel];
      if f.source !in v.sources then ServerOutcome(v, {}, None)
      else if !v.sources[f.source] then
        var (w, sent) := Untrack(v, channel, room);
        ServerOutcome(w, sent, None)
      else ServerOutcome(v, {}, Some((f, payload)))
  }

  /** The listener of a source gives up: its socket is gone. */
  function ServerOnClose(v: Server, source: Addr): ServerOutcome {
    ServerOutcome(if source in v.sources then v.(sources := v.sources[source := false]) else v, {}, None)
  }

  /** One turn of `untrackAll` for one flow. */
  function ServerOnUntrack(v: Server, f: Flow, room: bool): ServerOutcome {
    var r := RecordOf(v, f);
    if f in v.records && r.tracking && r.tracked then
      var (w, sent) := Untrack(v, r.channel, room);
      ServerOutcome(w, sent, None)
    else ServerOutcome(v, {}, None)
  }

  // ---------- Client ----------

  /** `addrs` is keyed by the text of a flow. */
  datatype Client = Client(addrs: map<string, nat>, channels: map<nat, Flow>)

  const NEW_CLIENT := Client(map[], map[])

  datatype ClientOutcome = ClientOutcome(client: Client, sent: set<Msg>, delivered: Option<(Flow, bytes)>)

  function ClientOnAssociate(key: Flow -> string, c: Client, f: Flow, channel: nat): ClientOutcome {
    ClientOutcome(Client(c.addrs[key(f) := channel], c.channels[channel := f]), {AssociateDone(f, channel)}, None)
  }

  function ClientOnDestroy(key: Flow -> string, c: Client, channel: nat): ClientOutcome {
    if channel !in c.channels then ClientOutcome(c, {}, None)
    else ClientOutcome(Client(c.addrs - {key(c.channels[channel])}, c.channels - {channel}), {}, None)
  }

  function ClientOnData(c: Client, channel: nat, payload: bytes): ClientOutcome {
    ClientOutcome(c, {}, if channel in c.channels then Some((c.channels[channel], payload)) else None)
  }

  /** A packet from the local network. */
  function ClientOnLocal(key: Flow -> string, c: Client, f: Flow, payload: bytes): ClientOutcome {
    var msg := if key(f) in c.addrs then DataToServer(c.addrs[key(f)], f, payload) else SendToServer(f, payload);
    ClientOutcome(c, {msg}, None)
  }

  // ---------- Together ----------

  /** A payload that reached its far end: the flow its sender meant and the flow it was handed to. */
  datatype Delivery = Delivery(atServer: bool, meant: Flow, got: Flow, payload: bytes)

  /** `net` holds every message ever sent: each may arrive at any time, any number of times, or never. */
  datatype System = System(server: Server, client: Client, net: set<Msg>, deliveries: seq<Delivery>)

  const NEW_SYSTEM := System(NEW_SERVER, NEW_CLIENT, {}, [])

  datatype Event =
    | Arrive(msg: Msg, room: bool, dialed: bool)
    | Local(flow: Flow, payload: bytes)
    | Remote(flow: Flow, payload: bytes, room: bool)
    | Close(source: Addr)
    | UntrackTurn(flow: Flow, room: bool)

  function Deliveries(atServer: bool, meant: Flow, delivered: Option<(Flow, bytes)>): seq<Delivery> {
    if delivered.Some? then [Delivery(atServer, meant, delivered.value.0, delivered.value.1)] else []
  }

  function AfterServer(x: System, o: ServerOutcome, meant: Flow): System {
    System(o.server, x.client, x.net + o.sent, x.deliveries + Deliveries(true, meant, o.delivered))
  }

  function AfterClient(x: System, o: ClientOutcome, meant: Flow): System {
    System(x.server, o.client, x.net + o.sent, x.deliveries + Deliveries(false, meant, o.delivered))
  }

  const NO_FLOW := Flow(Addr(0, 0, 0, 0, 0), Addr(0, 0, 0, 0, 0))

  function Receive(key: Flow -> string, x: System, msg: Msg, room: bool, dialed: bool): System {
    match msg
    case Associate(f, c) => AfterClient(x, ClientOnAssociate(key, x.client, f, c), f)
    case AssociateDone(f, c) => AfterServer(x, ServerOnDone(x.server, f, c), f)
    case ChannelDestroy(c) => AfterClient(x, ClientOnDestroy(key, x.client, c), NO_FLOW)
    case SendToServer(f, p) => AfterServer(x, ServerOnSend(x.server, f, p, room, dialed), f)
    case SendToClient(f, p) => AfterClient(x, ClientOutcome(x.client, {}, Some((f, p))), f)
    case DataToServer(c, f, p) => AfterServer(x, ServerOnData(x.server, c, p, room), f)
    case DataToClient(c, f, p) => AfterClient(x, ClientOnData(x.client, c, p), f)
  }

  function Step(key: Flow -> string, x: System, e: Event): System {
    match e
    case Arrive(msg, room, dialed) => if msg in x.net then Receive(key, x, msg, room, dialed) else x
    case Local(f, p) => AfterClient(x, ClientOnLocal(key, x.client, f, p), f)
    case Remote(f, p, room) => AfterServer(x, ServerOnRemote(x.server, f, p, room), f)
    case Close(source) => AfterServer(x, ServerOnClose(x.server, source), NO_FLOW)
    case UntrackTurn(f, room) => AfterServer(x, ServerOnUntrack(x.server, f, room), f)
  }

  function Run(key: Flow -> string, events: seq<Event>): System {
    if events == [] then NEW_SYSTEM else Step(key, Run(key, events[..|events| - 1]), events[|events| - 1])
  }
}
