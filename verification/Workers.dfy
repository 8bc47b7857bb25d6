/**
  Both workers as the program runs them: tables that every handler updates in place. Each handler is proved to do
  what the matching function of `ChannelProtocol` says.
 */
module Workers {
  import opened Bytes
  import opened ChannelNumbers
  import opened ChannelProtocol
  import Numbers = ChannelNumberFinder
  import P = ChannelProtocolProof

  ghost predicate Agrees(v: Server) {
    P.FinderOk(v) && P.TablesAgree(v)
  }

  lemma TrackAgrees(v: Server, f: Flow, room: bool)
    ensures Track(v, f, room).server.sources == v.sources
    ensures Agrees(v) && |Track(v, f, room).server.grants| <= ONES ==> Agrees(Track(v, f, room).server)
  {
    hide FindNext;
    if Agrees(v) && |Track(v, f, room).server.grants| <= ONES {
      P.TrackKeeps(v, f, room);
    }
  }

  lemma UntrackAgrees(v: Server, channel: nat, room: bool)
    ensures Agrees(v) ==> Agrees(Untrack(v, channel, room).0)
  {
    if Agrees(v) && channel in v.index {
      P.UntrackKeeps(v, channel, room);
    }
  }

  /** Channel 0 is the control channel: an answer that names it would mark an untracked flow as tracked. */
  lemma DoneAgrees(v: Server, f: Flow, channel: nat)
    ensures Agrees(v) && channel != 0 ==> Agrees(ServerOnDone(v, f, channel).server)
  {
  }

  lemma SourceAgrees(v: Server, source: Addr, open: bool)
    ensures Agrees(v) ==> Agrees(v.(sources := v.sources[source := open]))
  {
  }

  class ServerWorker {
    var sources: map<Addr, bool>
    var records: map<Flow, Record>
    var index: map<nat, Flow>
    const generator: Numbers.NumberFinder
    /** Everything handed to the client's transport. */
    var toClient: set<Msg>
    ghost var grants: seq<Flow>

    ghost function View(): Server
      reads this, generator
    {
      Server(sources, records, index, generator.View(), grants)
    }

    /** Channel index, flow records and allocator agree. */
    ghost predicate Consistent()
      reads this, generator
    {
      Agrees(View())
    }

    constructor ()
      ensures View() == NEW_SERVER && Consistent() && toClient == {} && fresh(generator)
    {
      generator := new Numbers.NumberFinder(0, 0);
      sources, records, index, toClient, grants := map[], map[], map[], {}, [];
    }

    /** `LoadOrStore` on the tracked connections of a source. */
    method LoadOrStore(f: Flow) returns (r: Record)
      modifies this`records
      ensures r == RecordOf(old(View()), f) && records == old(records)[f := r]
    {
      r := if f in records then records[f] else UNTRACKED;
      records := records[f := r];
    }

    method IsConnectionTracked(f: Flow, room: bool) returns (tracked: bool, channel: nat)
      modifies this, generator
      ensures var t := Track(old(View()), f, room);
              View() == t.server && toClient == old(toClient) + t.sent && tracked == t.tracked && channel == t.channel
      ensures old(Consistent()) && |grants| <= ONES ==> Consistent()
    {
      hide FindNext, Agrees;
      TrackAgrees(View(), f, room);
      if f.source !in sources {
        return false, 0;
      }
      var r := LoadOrStore(f);
      if r.tracked {
        return true, r.channel;
      }
      if r.tracking {
        return false, r.channel;
      }
      channel := Announce(f, r, room);
      tracked := false;
    }

    /** Gives the flow a channel number and tells the client, if the control queue has room. */
    method Announce(f: Flow, r: Record, room: bool) returns (channel: nat)
      modifies this, generator
      ensures var (finder, c) := FindNext(old(generator.View()), old(index).Keys);
              && generator.View() == finder && channel == c && grants == old(grants) + [f] && sources == old(sources)
              && records == old(records)[f := if r.trackPending then r.(tracking := true, channel := c)
                                             else Record(true, room, r.tracked, c)]
              && index == (if r.trackPending || c in old(index) then old(index) else old(index)[c := f])
              && toClient == old(toClient) + if !r.trackPending && room then {Associate(f, c)} else {}
    {
      hide FindNext;
      channel := generator.FindNext(index.Keys);
      grants := grants + [f];
      var s := r.(tracking := true, channel := channel);
      if !s.trackPending {
        if channel !in index {
          index := index[channel := f];
        }
        if room {
          toClient := toClient + {Associate(f, channel)};
        }
        s := s.(trackPending := room);
      }
      records := records[f := s];
    }

    method UntrackConnection(channel: nat, room: bool) returns (ok: bool)
      modifies this
      ensures var (w, sent) := Untrack(old(View()), channel, room);
              View() == w && toClient == old(toClient) + sent
      ensures ok == (room && channel in old(index) && old(index)[channel].source in sources)
      ensures old(Consistent()) ==> Consistent()
    {
      UntrackAgrees(View(), channel, room);
      if !room {
        return false;
      }
      toClient := toClient + {ChannelDestroy(channel)};
      if channel !in index {
        return false;
      }
      var f := index[channel];
      if f.source !in sources {
        return false;
      }
      var r := LoadOrStore(f);
      records := records[f := r.(tracked := false, channel := 0, trackPending := false, tracking := false)];
      index := index - {channel};
      ok := true;
    }

    method OnControlSend(f: Flow, payload: bytes, room: bool, dialed: bool) returns (delivered: Option<(Flow, bytes)>)
      modifies this, generator
      ensures var o := ServerOnSend(old(View()), f, payload, room, dialed);
              View() == o.server && toClient == old(toClient) + o.sent && delivered == o.delivered
      ensures old(Consistent()) && |grants| <= ONES ==> Consistent()
    {
      hide FindNext, Track, Agrees;
      SourceAgrees(View(), f.source, false);
      if f.source !in sources {
        sources := sources[f.source := false];
      }
      TrackAgrees(View(), f, room);
      var _, _ := IsConnectionTracked(f, room);
      SourceAgrees(View(), f.source, sources[f.source] || dialed);
      if !sources[f.source] && !dialed {
        sources := sources[f.source := false];
        return None;
      }
      sources := sources[f.source := true];
      delivered := Some((f, payload));
    }

    method TxToClient(f: Flow, payload: bytes, room: bool)
      requires f.source in sources && sources[f.source]
      modifies this, generator
      ensures var o := ServerOnRemote(old(View()), f, payload, room);
              View() == o.server && toClient == old(toClient) + o.sent && o.delivered == None
      ensures old(Consistent()) && |grants| <= ONES ==> Consistent()
    {
      hide FindNext, Agrees;
      var tracked, channel := IsConnectionTracked(f, room);
      if tracked {
        toClient := toClient + {DataToClient(channel, f, payload)};
      } else {
        toClient := toClient + {SendToClient(f, payload)};
      }
    }

    method OnControlAssociateDone(f: Flow, channel: nat)
      modifies this`records
      ensures ServerOutcome(View(), {}, None) == ServerOnDone(old(View()), f, channel)
      ensures f.source in sources && RecordOf(old(View()), f).channel == channel ==> RecordOf(View(), f).tracked
      ensures old(Consistent()) && channel != 0 ==> Consistent()
    {
      DoneAgrees(View(), f, channel);
      if f.source !in sources {
        return;
      }
      var r := LoadOrStore(f);
      if r.channel == channel {
        records := records[f := r.(tracked := true)];
      }
    }

    method OnData(channel: nat, payload: bytes, room: bool) returns (delivered: Option<(Flow, bytes)>)
      modifies this
      ensures var o := ServerOnData(old(View()), channel, payload, room);
              View() == o.server && toClient == old(toClient) + o.sent && delivered == o.delivered
      ensures delivered.Some? ==> channel in index && delivered.value == (index[channel], payload)
      ensures old(Consistent()) ==> Consistent()
    {
      if channel !in index {
        return None;
      }
      var f := index[channel];
      if f.source !in sources {
        return None;
      }
      if !sources[f.source] {
        var _ := UntrackConnection(channel, room);
        return None;
      }
      delivered := Some((f, payload));
    }
  }

  class ClientWorker {
    const key: Flow -> string
    var addrs: map<string, nat>
    var channels: map<nat, Flow>
    /** Everything handed to the server's transport. */
    var toServer: set<Msg>

    function View(): Client
      reads this
    {
      Client(addrs, channels)
    }

    /** An address leads to a channel that leads back to a flow with that address. */
    ghost predicate Consistent()
      reads this
    {
      forall k :: k in addrs ==> addrs[k] in channels && key(channels[addrs[k]]) == k
    }

    constructor (key: Flow -> string)
      ensures this.key == key && View() == NEW_CLIENT && Consistent() && toServer == {}
    {
      this.key := key;
      addrs, channels, toServer := map[], map[], {};
    }

    method OnControlAssociate(f: Flow, channel: nat)
      modifies this
      ensures var o := ClientOnAssociate(key, old(View()), f, channel);
              View() == o.client && toServer == old(toServer) + o.sent && o.delivered == None
      ensures old(Consistent()) && (channel in old(channels) ==> old(channels)[channel] == f) ==> Consistent()
    {
      addrs := addrs[key(f) := channel];
      channels := channels[channel := f];
      toServer := toServer + {AssociateDone(f, channel)};
    }

    method OnControlChannelDestroy(channel: nat)
      modifies this`addrs, this`channels
      ensures ClientOutcome(View(), {}, None) == ClientOnDestroy(key, old(View()), channel)
      ensures old(Consistent()) ==> Consistent()
    {
      if channel !in channels {
        return;
      }
      addrs := addrs - {key(channels[channel])};
      channels := channels - {channel};
    }

    method OnData(channel: nat, payload: bytes) returns (delivered: Option<(Flow, bytes)>)
      ensures ClientOutcome(View(), {}, delivered) == ClientOnData(View(), channel, payload)
      ensures delivered.Some? <==> channel in channels
      ensures delivered.Some? ==> delivered.value == (channels[channel], payload)
    {
      if channel !in channels {
        return None;
      }
      delivered := Some((channels[channel], payload));
    }

    method TxToServer(f: Flow, payload: bytes)
      modifies this`toServer
      ensures toServer == old(toServer) + ClientOnLocal(key, View(), f, payload).sent
    {
      if key(f) in addrs {
        toServer := toServer + {DataToServer(addrs[key(f)], f, payload)};
      } else {
        toServer := toServer + {SendToServer(f, payload)};
      }
    }
  }
}
