/**
 The presence hub: per-context projections, bounded queues, and streams that agree
 with the projections they describe.
 */
module WatchHub {
  import opened Basics
  import opened Text
  import opened WatchEvents

  const MAX_SUBSCRIBERS := 64
  const QUEUE_DEPTH := 32

  /** Peers are keyed by their folded label. */
  datatype Projection = Projection(connected: bool, peers: map<string, Peer>)

  const Nothing := Projection(false, map[])

  /**
   One subscription. `queue` is what its channel holds, `live` whether it is still
   in the hub's set (its channel is closed as soon as it is not). `sent` is not
   stored by the program: it remembers everything ever put into the channel.
   */
  datatype Sub = Sub(stream: string, context: string, queue: seq<Event>, sent: seq<Event>, live: bool)

  /** `history` is not stored by the program: it remembers every event ever published. */
  datatype Hub = Hub(sequence: nat, closed: bool, contexts: map<string, Projection>, subs: map<nat, Sub>,
                     history: seq<Event>)

  const EmptyHub := Hub(0, false, map[], map[], [])

  // ---- projections ---------------------------------------------------------

  function ProjectionOf(contexts: map<string, Projection>, context: string): Projection {
    if context in contexts then contexts[context] else Nothing
  }

  predicate IsLeast(keys: set<string>, k: string) {
    k in keys && forall o :: o in keys && o != k ==> Less(k, o)
  }

  lemma {:induction false} LeastExists(keys: set<string>)
    requires keys != {}
    ensures exists k :: IsLeast(keys, k)
    decreases keys
  {
    var a :| a in keys;
    if keys == {a} {
      assert IsLeast(keys, a);
    } else {
      LeastExists(keys - {a});
      var b :| IsLeast(keys - {a}, b);
      LessIsConnected(a, b);
      if Less(a, b) {
        forall o | o in keys && o != a ensures Less(a, o) {
          if o != b {
            assert o in keys - {a};
            LessIsTransitive(a, b, o);
          }
        }
        assert IsLeast(keys, a);
      } else {
        assert IsLeast(keys, b);
      }
    }
  }

  lemma LeastIsUnique(keys: set<string>, a: string, b: string)
    requires IsLeast(keys, a) && IsLeast(keys, b)
    ensures a == b
  {
    if a != b { LessIsAsymmetric(a, b); }
  }

  /** The keys in ascending order. */
  function Ascending(keys: set<string>): (s: seq<string>)
    ensures |s| == |keys|
    ensures forall k :: k in s <==> k in keys
    ensures forall i, j :: 0 <= i < j < |s| ==> Less(s[i], s[j])
    decreases keys
  {
    if keys == {} then []
    else
      LeastExists(keys);
      assert forall a, b :: IsLeast(keys, a) && IsLeast(keys, b) ==> a == b by {
        forall a, b | IsLeast(keys, a) && IsLeast(keys, b) ensures a == b { LeastIsUnique(keys, a, b); }
      }
      var k :| IsLeast(keys, k);
      [k] + Ascending(keys - {k})
  }

  /** `sortedProjection` */
  function PeerList(peers: map<string, Peer>): (s: seq<Peer>)
    ensures |s| == |peers|
  {
    var keys := Ascending(peers.Keys);
    seq(|keys|, i requires 0 <= i < |keys| => peers[keys[i]])
  }

  /** The projection a list of peers stands for. */
  function Index(peers: seq<Peer>): map<string, Peer> {
    if peers == [] then map[]
    else Index(peers[..|peers| - 1])[Lower(peers[|peers| - 1].name) := peers[|peers| - 1]]
  }

  ghost predicate KeyedPeer(peers: map<string, Peer>, k: string) {
    k in peers ==> ValidPeer(peers[k]) && k == Lower(peers[k].name)
  }

  ghost predicate PeersApart(peers: map<string, Peer>, a: string, b: string) {
    a in peers && b in peers && a != b ==> peers[a].device != peers[b].device
  }

  ghost predicate ProjectionOk(p: Projection) {
    && (!p.connected ==> p.peers == map[])
    && |p.peers| <= MAX_PEERS
    && (forall k :: KeyedPeer(p.peers, k))
    && (forall a, b :: PeersApart(p.peers, a, b))
  }

  lemma {:induction false} IndexOf(peers: seq<Peer>)
    ensures forall i :: 0 <= i < |peers| ==> Lower(peers[i].name) in Index(peers)
    ensures forall k :: k in Index(peers) ==> Index(peers)[k] in peers && Lower(Index(peers)[k].name) == k
  {
    if peers != [] {
      IndexOf(peers[..|peers| - 1]);
    }
  }

  /** The list holds the projection's peers and nothing else. */
  lemma ListMembers(peers: map<string, Peer>)
    ensures forall k :: k in peers ==> peers[k] in PeerList(peers)
    ensures forall p :: p in PeerList(peers) ==> exists k :: k in peers && peers[k] == p
  {
    var list, keys := PeerList(peers), Ascending(peers.Keys);
    forall k | k in peers ensures peers[k] in list {
      var i :| 0 <= i < |keys| && keys[i] == k;
      assert list[i] == peers[k];
    }
    forall p | p in list ensures exists k :: k in peers && peers[k] == p {
      var i :| 0 <= i < |list| && list[i] == p;
      assert keys[i] in peers.Keys;
    }
  }

  lemma PeerIsIndexed(peers: map<string, Peer>, list: seq<Peer>, k: string)
    requires KeyedPeer(peers, k) && k in peers && peers[k] in list
    ensures k in Index(list)
  {
    hide Index, ValidPeer;
    IndexOf(list);
    var i :| 0 <= i < |list| && list[i] == peers[k];
  }

  lemma IndexedIsPeer(peers: map<string, Peer>, list: seq<Peer>, k: string)
    requires k in Index(list) && forall j :: KeyedPeer(peers, j)
    requires forall p :: p in list ==> exists j :: j in peers && peers[j] == p
    ensures k in peers && Index(list)[k] == peers[k]
  {
    hide Index, ValidPeer;
    IndexOf(list);
    var j :| j in peers && peers[j] == Index(list)[k];
    assert KeyedPeer(peers, j);
  }

  lemma IndexOfListing(peers: map<string, Peer>, list: seq<Peer>)
    requires forall k :: KeyedPeer(peers, k)
    requires forall k :: k in peers ==> peers[k] in list
    requires forall p :: p in list ==> exists k :: k in peers && peers[k] == p
    ensures Index(list) == peers
  {
    hide Index, KeyedPeer, Lower;
    var m := Index(list);
    forall k | k in peers ensures k in m {
      PeerIsIndexed(peers, list, k);
    }
    forall k | k in m ensures k in peers && m[k] == peers[k] {
      IndexedIsPeer(peers, list, k);
    }
  }

  /** A projection survives being listed and indexed again. */
  lemma ListThenIndex(peers: map<string, Peer>)
    requires forall k :: KeyedPeer(peers, k)
    ensures Index(PeerList(peers)) == peers
  {
    ListMembers(peers);
    IndexOfListing(peers, PeerList(peers));
  }

  /** A listed projection passes the checks of the wire. */
  lemma ListIsSorted(p: Projection)
    requires ProjectionOk(p)
    ensures SortedPeers(PeerList(p.peers)) && |PeerList(p.peers)| <= MAX_PEERS
  {
    hide ValidPeer, Lower, Ascending;
    var list, keys := PeerList(p.peers), Ascending(p.peers.Keys);
    forall i | 0 <= i < |list| ensures ValidPeer(list[i]) && Lower(list[i].name) == keys[i] {
      assert KeyedPeer(p.peers, keys[i]);
    }
    forall i, j | 0 <= i < j < |list|
      ensures list[i].device != list[j].device && Lower(list[i].name) != Lower(list[j].name)
    {
      LessIsAsymmetric(keys[i], keys[j]);
      assert PeersApart(p.peers, keys[i], keys[j]);
    }
  }

  lemma NewKey(peers: seq<Peer>)
    requires UniquePeers(peers) && peers != []
    ensures Lower(peers[|peers| - 1].name) !in Index(peers[..|peers| - 1])
  {
    var n := |peers| - 1;
    var key := Lower(peers[n].name);
    IndexOf(peers[..n]);
  }

  lemma {:induction false} IndexSize(peers: seq<Peer>)
    requires UniquePeers(peers)
    ensures |Index(peers)| == |peers|
  {
    if peers != [] {
      IndexSize(peers[..|peers| - 1]);
      NewKey(peers);
    }
  }

  /** A list without duplicates gives a well-formed projection. */
  lemma IndexIsOk(peers: seq<Peer>)
    requires UniquePeers(peers)
    ensures |Index(peers)| == |peers|
    ensures forall k :: KeyedPeer(Index(peers), k)
    ensures forall a, b :: PeersApart(Index(peers), a, b)
  {
    IndexSize(peers);
    IndexOf(peers);
    var m := Index(peers);
    forall k ensures KeyedPeer(m, k) {}
    forall a, b ensures PeersApart(m, a, b) {
      if a in m && b in m && a != b {
        var i :| 0 <= i < |peers| && peers[i] == m[a];
        var j :| 0 <= j < |peers| && peers[j] == m[b];
        assert i < j || j < i;
      }
    }
  }

  // ---- what a consumer rebuilds --------------------------------------------

  function Learn(v: Projection, e: Event): Projection {
    match e.kind
    case ContextConnected => Projection(true, if e.peers.Some? then Index(e.peers.value) else map[])
    case ContextDisconnected => Nothing
    case PeerOnline => if e.peer.Some? then v.(peers := v.peers[Lower(e.peer.value.name) := e.peer.value]) else v
    case PeerOffline => if e.peer.Some? then v.(peers := v.peers - {Lower(e.peer.value.name)}) else v
    case StreamGap => v
    case UnknownKind => v
  }

  function Fold(events: seq<Event>): Projection {
    if events == [] then Nothing else Learn(Fold(events[..|events| - 1]), events[|events| - 1])
  }

  lemma FoldAppend(events: seq<Event>, e: Event)
    ensures Fold(events + [e]) == Learn(Fold(events), e)
  {
    assert (events + [e])[..|events + [e]| - 1] == events;
  }

  /** The published events of one context with a sequence below a bound. */
  function Before(history: seq<Event>, context: string, bound: nat): seq<Event> {
    if history == [] then []
    else
      var e := history[|history| - 1];
      Before(history[..|history| - 1], context, bound) +
      (if e.context == context && e.sequence < bound then [e] else [])
  }

  /** The context's projection just before a sequence number, as its published events tell it. */
  function ViewAt(history: seq<Event>, context: string, bound: nat): Projection {
    Fold(Before(history, context, bound))
  }

  lemma BeforeAppend(history: seq<Event>, e: Event, context: string, bound: nat)
    ensures Before(history + [e], context, bound) ==
            Before(history, context, bound) + (if e.context == context && e.sequence < bound then [e] else [])
  {
    assert (history + [e])[..|history + [e]| - 1] == history;
  }

  // ---- operations ----------------------------------------------------------

  /** `nextLocked` */
  function Next(h: Hub, context: string, kind: Kind, at: nat): Event {
    Event(VERSION, "", h.sequence + 1, at, context, kind, false, None, None, 0, false)
  }

  function GapFor(e: Event, stream: string): Event {
    Event(VERSION, stream, e.sequence, e.observedAt, e.context, StreamGap, false, None, None, e.sequence, true)
  }

  /** What one subscriber's channel gets: the event, or the gap and the end. */
  function Offer(s: Sub, e: Event): Sub {
    if !s.live || s.context != e.context then s
    else if |s.queue| < QUEUE_DEPTH then
      var value := e.(stream := s.stream);
      s.(queue := s.queue + [value], sent := s.sent + [value])
    else
      var gap := GapFor(e, s.stream);
      s.(queue := s.queue + [gap], sent := s.sent + [gap], live := false)
  }

  /** `publishLocked` after `nextLocked`, with the projection the event leaves behind. */
  function Publish(h: Hub, e: Event, contexts: map<string, Projection>): Hub {
    Hub(e.sequence, h.closed, contexts, map id | id in h.subs :: Offer(h.subs[id], e), h.history + [e])
  }

  function LiveSubs(h: Hub): set<nat> {
    set id | id in h.subs && h.subs[id].live
  }

  datatype WatchError = InvalidContext | InvalidProjection | HubClosed | SubscriberCapacity

  function Snapshot(h: Hub, context: string, stream: string, at: nat): Event {
    var p := ProjectionOf(h.contexts, context);
    var e := Next(h, context, if p.connected then ContextConnected else ContextDisconnected, at);
    e.(stream := stream, snapshot := true, peers := if p.connected then Some(PeerList(p.peers)) else None)
  }

  function Subscribe(h: Hub, id: nat, context: string, stream: string, at: nat): (Hub, Option<WatchError>) {
    if !ValidLabel(context) then (h, Some(InvalidContext))
    else if h.closed then (h, Some(HubClosed))
    else if |LiveSubs(h)| >= MAX_SUBSCRIBERS then (h, Some(SubscriberCapacity))
    else
      var e := Snapshot(h, context, stream, at);
      (h.(sequence := e.sequence, subs := h.subs[id := Sub(stream, context, [e], [e], true)]), None)
  }

  function Connect(h: Hub, context: string, baseline: seq<Peer>, at: nat): (Hub, Option<WatchError>) {
    if !ValidLabel(context) || |baseline| > MAX_PEERS || !UniquePeers(baseline) then (h, Some(InvalidProjection))
    else if h.closed then (h, Some(HubClosed))
    else
      var peers := Index(baseline);
      var e := Next(h, context, ContextConnected, at).(peers := Some(PeerList(peers)));
      (Publish(h, e, h.contexts[context := Projection(true, peers)]), None)
  }

  function Disconnect(h: Hub, context: string, at: nat): Hub {
    if h.closed || !ProjectionOf(h.contexts, context).connected then h
    else Publish(h, Next(h, context, ContextDisconnected, at), h.contexts[context := Nothing])
  }

  function PeerEvent(h: Hub, context: string, kind: Kind, p: Peer, at: nat): Event {
    Next(h, context, kind, at).(peer := Some(p))
  }

  /** A known peer goes: the event, and the projection without it. */
  function Drop(h: Hub, context: string, key: string, at: nat): Hub
    requires context in h.contexts && key in h.contexts[context].peers
  {
    var v := h.contexts[context];
    Publish(h, PeerEvent(h, context, PeerOffline, v.peers[key], at),
            h.contexts[context := v.(peers := v.peers - {key})])
  }

  function Add(h: Hub, context: string, p: Peer, at: nat): Hub
    requires context in h.contexts
  {
    var v := h.contexts[context];
    Publish(h, PeerEvent(h, context, PeerOnline, p, at),
            h.contexts[context := v.(peers := v.peers[Lower(p.name) := p])])
  }

  /** The device under another label. */
  predicate HeldElsewhere(peers: map<string, Peer>, p: Peer) {
    exists k :: k in peers && peers[k].device == p.device && k != Lower(p.name)
  }

  /** A replaced label goes offline first; the source reads the clock for each event. */
  function Join(h: Hub, context: string, p: Peer, at: nat, later: nat): (Hub, Option<WatchError>) {
    var v := ProjectionOf(h.contexts, context);
    var key := Lower(p.name);
    if !ValidLabel(context) || !ValidPeer(p) || h.closed || !v.connected then (h, Some(InvalidProjection))
    else if HeldElsewhere(v.peers, p) then (h, Some(InvalidProjection))
    else if key in v.peers then
      if v.peers[key].device == p.device then (h, None)
      else (Add(Drop(h, context, key, at), context, p, later), None)
    else if |v.peers| >= MAX_PEERS then (h, Some(InvalidProjection))
    else (Add(h, context, p, at), None)
  }

  predicate Known(peers: map<string, Peer>, device: string, key: string) {
    key in peers && peers[key].device == device
  }

  ghost function Leave(h: Hub, context: string, device: string, at: nat): Hub {
    var v := ProjectionOf(h.contexts, context);
    if h.closed || !v.connected then h
    else if key :| Known(v.peers, device, key) then Drop(h, context, key, at)
    else h
  }
}
