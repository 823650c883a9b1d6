/** The hub and the client validator as objects, each method tied to the function it performs. */
module WatchService {
  import opened Basics
  import opened Text
  import opened WatchEvents
  import opened WatchHub
  import opened WatchStreams

  class WatchHubService {
    var sequence: nat
    var closed: bool
    var contexts: map<string, Projection>
    var subs: map<nat, Sub>
    ghost var history: seq<Event>

    ghost function State(): Hub
      reads this
    {
      Hub(sequence, closed, contexts, subs, history)
    }

    ghost predicate Valid()
      reads this
    {
      HubInv(State())
    }

    constructor ()
      ensures Valid() && State() == EmptyHub
    {
      sequence, closed, contexts, subs, history := 0, false, map[], map[], [];
      new;
      EmptyHubIsSound();
    }

    /** `publishLocked`: every subscriber of the context, in whatever order the set yields them. */
    method PublishLocked(e: Event, ghost projections: map<string, Projection>)
      requires e.sequence == sequence && contexts == projections
      modifies this`subs, this`history
      ensures subs == map id | id in old(subs) :: Offer(old(subs)[id], e)
      ensures history == old(history) + [e]
    {
      var before := subs;
      var todo := subs.Keys;
      while todo != {}
        invariant todo <= before.Keys && subs.Keys == before.Keys && history == old(history)
        invariant forall id :: id in before ==> subs[id] == (if id in todo then before[id] else Offer(before[id], e))
        decreases todo
      {
        var id :| id in todo;
        var s := subs[id];
        if s.live && s.context == e.context {
          if |s.queue| < QUEUE_DEPTH {
            var value := e.(stream := s.stream);
            subs := subs[id := s.(queue := s.queue + [value], sent := s.sent + [value])];
          } else {
            var gap := GapFor(e, s.stream);
            subs := subs[id := s.(queue := s.queue + [gap], sent := s.sent + [gap], live := false)];
          }
        }
        todo := todo - {id};
      }
      history := history + [e];
    }

    /** `nextLocked` */
    method NextLocked(context: string, kind: Kind, at: nat) returns (e: Event)
      modifies this`sequence
      ensures sequence == old(sequence) + 1
      ensures e == Next(old(State()), context, kind, at)
    {
      sequence := sequence + 1;
      e := Event(VERSION, "", sequence, at, context, kind, false, None, None, 0, false);
    }

    method Subscribe(id: nat, context: string, stream: string, at: nat) returns (error: Option<WatchError>)
      requires Valid() && id !in subs && ValidStream(stream) && at > 0
      modifies this
      ensures Valid()
      ensures (State(), error) == WatchHub.Subscribe(old(State()), id, context, stream, at)
    {
      SubscribeKeeps(State(), id, context, stream, at);
      if !ValidLabel(context) { return Some(InvalidContext); }
      if closed { return Some(HubClosed); }
      if |set x | x in subs && subs[x].live| >= MAX_SUBSCRIBERS {
        assert (set x | x in subs && subs[x].live) == LiveSubs(State());
        return Some(SubscriberCapacity);
      }
      assert (set x | x in subs && subs[x].live) == LiveSubs(State());
      var p := ProjectionOf(contexts, context);
      var e := NextLocked(context, if p.connected then ContextConnected else ContextDisconnected, at);
      e := e.(stream := stream, snapshot := true, peers := if p.connected then Some(PeerList(p.peers)) else None);
      subs := subs[id := Sub(stream, context, [e], [e], true)];
      return None;
    }

    /** Store a projection and publish the event that announces it. */
    method Announce(context: string, p: Projection, kind: Kind, peers: Option<seq<Peer>>, at: nat)
      modifies this
      ensures State() ==
              Publish(old(State()), Next(old(State()), context, kind, at).(peers := peers), old(contexts)[context := p])
    {
      contexts := contexts[context := p];
      var e := NextLocked(context, kind, at);
      PublishLocked(e.(peers := peers), contexts);
    }

    method Connect(context: string, baseline: seq<Peer>, at: nat) returns (error: Option<WatchError>)
      requires Valid() && at > 0
      modifies this
      ensures Valid()
      ensures (State(), error) == WatchHub.Connect(old(State()), context, baseline, at)
    {
      ghost var target := WatchHub.Connect(State(), context, baseline, at);
      assert HubInv(target.0) by { ConnectKeeps(State(), context, baseline, at); }
      if !ValidLabel(context) || |baseline| > MAX_PEERS || !UniquePeers(baseline) { return Some(InvalidProjection); }
      var peers := IndexPeers(baseline);
      if closed { return Some(HubClosed); }
      Announce(context, Projection(true, peers), ContextConnected, Some(PeerList(peers)), at);
      assert State() == target.0;
      return None;
    }

    method Disconnect(context: string, at: nat)
      requires Valid() && at > 0
      modifies this
      ensures Valid()
      ensures State() == WatchHub.Disconnect(old(State()), context, at)
    {
      ghost var target := WatchHub.Disconnect(State(), context, at);
      assert HubInv(target) by { DisconnectKeeps(State(), context, at); }
      if closed || !ProjectionOf(contexts, context).connected { return; }
      Announce(context, Nothing, ContextDisconnected, None, at);
      assert State() == target;
    }

    /** `publishPeerLocked` */
    method PublishPeer(context: string, kind: Kind, p: Peer, at: nat, ghost before: Hub)
      requires before == State().(contexts := before.contexts)
      modifies this`sequence, this`subs, this`history
      ensures State() == Publish(before, PeerEvent(before, context, kind, p, at), contexts)
    {
      var e := NextLocked(context, kind, at);
      PublishLocked(e.(peer := Some(p)), contexts);
    }

    /** The map keeps a replaced peer until its successor is stored, after its offline event. */
    method Join(context: string, p: Peer, at: nat, later: nat) returns (error: Option<WatchError>)
      requires Valid() && at > 0 && later > 0
      modifies this
      ensures Valid()
      ensures (State(), error) == WatchHub.Join(old(State()), context, p, at, later)
    {
      ghost var target := WatchHub.Join(State(), context, p, at, later);
      assert HubInv(target.0) by { JoinKeeps(State(), context, p, at, later); }
      if !ValidLabel(context) || !ValidPeer(p) { return Some(InvalidProjection); }
      var v := ProjectionOf(contexts, context);
      if closed || !v.connected { return Some(InvalidProjection); }
      var key := Lower(p.name);
      if HeldElsewhere(v.peers, p) { return Some(InvalidProjection); }
      var replacing := key in v.peers;
      ghost var middle := State();
      if replacing {
        var previous := v.peers[key];
        if previous.device == p.device { return None; }
        ghost var before := State();
        PublishPeer(context, PeerOffline, previous, at, before);
        middle := State().(contexts := contexts[context := v.(peers := v.peers - {key})]);
        assert middle == Drop(before, context, key, at);
        AddAfterDrop(before, context, p, at, later);
      } else if |v.peers| >= MAX_PEERS {
        return Some(InvalidProjection);
      }
      contexts := contexts[context := v.(peers := v.peers[key := p])];
      PublishPeer(context, PeerOnline, p, if replacing then later else at, middle);
      assert State() == target.0;
      return None;
    }

    method Leave(context: string, device: string, at: nat)
      requires Valid() && at > 0
      modifies this
      ensures Valid()
      ensures State() == WatchHub.Leave(old(State()), context, device, at)
    {
      LeaveKeeps(State(), context, device, at);
      var v := ProjectionOf(contexts, context);
      if closed || !v.connected { return; }
      OneKeyPerDevice(State(), context, device);
      if exists key :: key in v.peers && Known(v.peers, device, key) {
        var key :| key in v.peers && Known(v.peers, device, key);
        ghost var before := State();
        contexts := contexts[context := v.(peers := v.peers - {key})];
        PublishPeer(context, PeerOffline, v.peers[key], at, before);
      }
    }

    method Close()
      requires Valid()
      modifies this
      ensures Valid() && closed
      ensures State() == (if old(closed) then old(State()) else Shutdown(old(State())))
    {
      ShutdownKeeps(State());
      if closed { return; }
      closed := true;
      subs := map id | id in subs :: subs[id].(live := false);
      assert State() == Shutdown(old(State()));
    }

    method Unsubscribe(id: nat)
      requires Valid()
      modifies this
      ensures Valid()
      ensures State() == Detach(old(State()), {id})
    {
      DetachKeeps(State(), {id});
      if id in subs {
        subs := subs[id := subs[id].(live := false)];
      }
      assert subs == Detach(old(State()), {id}).subs;
    }
  }

  /** The loop of `Connect` that keys the baseline. */
  method IndexPeers(baseline: seq<Peer>) returns (peers: map<string, Peer>)
    ensures peers == Index(baseline)
  {
    peers := map[];
    for i := 0 to |baseline|
      invariant peers == Index(baseline[..i])
    {
      assert baseline[..i + 1][..i] == baseline[..i];
      peers := peers[Lower(baseline[i].name) := baseline[i]];
    }
    assert baseline[..|baseline|] == baseline;
  }

  /** Storing the successor over the old peer is storing it where the old peer was removed. */
  lemma AddAfterDrop(h: Hub, context: string, p: Peer, at: nat, later: nat)
    requires context in h.contexts && Lower(p.name) in h.contexts[context].peers
    ensures var v := h.contexts[context]; var g := Drop(h, context, Lower(p.name), at);
            Add(g, context, p, later) == Publish(g, PeerEvent(g, context, PeerOnline, p, later),
                                                 h.contexts[context := v.(peers := v.peers[Lower(p.name) := p])])
  {
    var v, key := h.contexts[context], Lower(p.name);
    assert (v.peers - {key})[key := p] == v.peers[key := p];
    var after := v.(peers := v.peers[key := p]);
    assert h.contexts[context := v.(peers := v.peers - {key})][context := after] == h.contexts[context := after];
  }

  lemma OneKeyPerDevice(h: Hub, context: string, device: string)
    requires HubInv(h)
    ensures var v := ProjectionOf(h.contexts, context);
            forall a, b :: Known(v.peers, device, a) && Known(v.peers, device, b) ==> a == b
  {
    var v := ProjectionOf(h.contexts, context);
    ProjectionFits(h, context);
    forall a, b | Known(v.peers, device, a) && Known(v.peers, device, b) ensures a == b {
      assert PeersApart(v.peers, a, b);
    }
  }

  /** `watchEventValidator` */
  class WatchEventValidator {
    var context: string
    var stream: string
    var sequence: nat
    var seen: bool

    function State(): Client
      reads this
    {
      Client(context, stream, sequence, seen)
    }

    constructor (context: string)
      ensures State() == Client(context, "", 0, false)
    {
      this.context, stream, sequence, seen := context, "", 0, false;
    }

    method Decode(d: Document) returns (r: Option<Event>)
      modifies this
      ensures match WatchStreams.Decode(old(State()), d)
              case None => r == None && State() == old(State())
              case Some(step) => r == Some(step.1) && State() == step.0
    {
      var decoded := DecodeStrict(d);
      if decoded.None? { return None; }
      var e := decoded.value;
      if e.context != context { return None; }
      if seen && (e.stream != stream || e.sequence <= sequence || e.snapshot) { return None; }
      if !seen && (!e.snapshot || (!e.kind.ContextConnected? && !e.kind.ContextDisconnected?)) { return None; }
      if !seen {
        stream := e.stream;
      }
      seen := true;
      sequence := e.sequence;
      return Some(e);
    }
  }
}
