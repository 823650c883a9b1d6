/**
 What every run of the hub keeps: streams agree with the hub's projections, gaps
 end them truthfully, sends never block, and the client accepts all of it.
 */
module WatchStreams {
  import opened Basics
  import opened Text
  import opened WatchEvents
  import opened WatchHub

  // ---- the invariant -------------------------------------------------------

  ghost predicate ContextOk(contexts: map<string, Projection>, c: string) {
    c in contexts ==> ProjectionOk(contexts[c]) && ValidLabel(c)
  }

  ghost predicate Told(h: Hub, c: string) {
    ViewAt(h.history, c, h.sequence + 1) == ProjectionOf(h.contexts, c)
  }

  ghost predicate Dated(history: seq<Event>, sequence: nat, i: nat) {
    i < |history| ==> history[i].sequence <= sequence
  }

  /** One event of a stream: valid, of the stream, and a snapshot only in first place. */
  ghost predicate EventFits(sent: seq<Event>, stream: string, context: string, i: nat) {
    i < |sent| ==>
      && Validate(sent[i]) && sent[i].stream == stream && sent[i].context == context
      && (sent[i].snapshot <==> i == 0)
      && (i > 0 ==> sent[i - 1].sequence < sent[i].sequence)
      && (sent[i].kind.StreamGap? ==> i + 1 == |sent|)
  }

  ghost predicate StreamOk(sent: seq<Event>, stream: string, context: string) {
    && sent != []
    && (sent[0].kind.ContextConnected? || sent[0].kind.ContextDisconnected?)
    && (forall i :: EventFits(sent, stream, context, i))
  }

  function Last(sent: seq<Event>): Event
    requires sent != []
  {
    sent[|sent| - 1]
  }

  ghost predicate SubOk(s: Sub, history: seq<Event>, contexts: map<string, Projection>, sequence: nat) {
    && StreamOk(s.sent, s.stream, s.context)
    && Last(s.sent).sequence <= sequence
    && |s.queue| <= |s.sent| && s.queue == s.sent[|s.sent| - |s.queue|..]
    && |s.queue| <= QUEUE_DEPTH + 1
    && (s.live ==>
          && |s.queue| <= QUEUE_DEPTH
          && !Last(s.sent).kind.StreamGap?
          && Fold(s.sent) == ProjectionOf(contexts, s.context))
    && (Last(s.sent).kind.StreamGap? ==>
          var gap := Last(s.sent);
          && gap.firstDropped == gap.sequence
          && Fold(s.sent[..|s.sent| - 1]) == ViewAt(history, s.context, gap.firstDropped))
  }

  ghost predicate SubscriberOk(h: Hub, id: nat) {
    id in h.subs ==> SubOk(h.subs[id], h.history, h.contexts, h.sequence)
  }

  ghost predicate HubInv(h: Hub) {
    && (forall c :: ContextOk(h.contexts, c))
    && (forall c :: Told(h, c))
    && (forall i :: Dated(h.history, h.sequence, i))
    && (forall id :: SubscriberOk(h, id))
  }

  // ---- history -------------------------------------------------------------

  lemma {:induction false} BoundsAgree(history: seq<Event>, c: string, a: nat, b: nat)
    requires forall i :: 0 <= i < |history| ==> history[i].sequence < a && history[i].sequence < b
    ensures Before(history, c, a) == Before(history, c, b)
  {
    if history != [] {
      BoundsAgree(history[..|history| - 1], c, a, b);
    }
  }

  lemma RaiseBound(h: Hub, c: string, sequence: nat)
    requires (forall i :: Dated(h.history, h.sequence, i)) && h.sequence <= sequence
    ensures ViewAt(h.history, c, sequence + 1) == ViewAt(h.history, c, h.sequence + 1)
  {
    forall i | 0 <= i < |h.history| ensures h.history[i].sequence <= h.sequence {
      assert Dated(h.history, h.sequence, i);
    }
    BoundsAgree(h.history, c, sequence + 1, h.sequence + 1);
  }

  /** A published event changes no earlier view, and moves its own context's view by one step. */
  lemma ViewAfterPublish(h: Hub, e: Event, c: string)
    requires (forall i :: Dated(h.history, h.sequence, i)) && e.sequence == h.sequence + 1
    ensures ViewAt(h.history + [e], c, e.sequence + 1) ==
            (var v := ViewAt(h.history, c, h.sequence + 1); if e.context == c then Learn(v, e) else v)
    ensures forall bound: nat :: bound <= e.sequence ==>
            ViewAt(h.history + [e], c, bound) == ViewAt(h.history, c, bound)
  {
    RaiseBound(h, c, e.sequence);
    BeforeAppend(h.history, e, c, e.sequence + 1);
    FoldAppend(Before(h.history, c, e.sequence + 1), e);
    assert Before(h.history, c, e.sequence + 1) + [] == Before(h.history, c, e.sequence + 1);
    forall bound: nat | bound <= e.sequence ensures ViewAt(h.history + [e], c, bound) == ViewAt(h.history, c, bound) {
      BeforeAppend(h.history, e, c, bound);
      assert Before(h.history, c, bound) + [] == Before(h.history, c, bound);
    }
  }

  // ---- subscribers ---------------------------------------------------------

  lemma StreamGrows(sent: seq<Event>, stream: string, context: string, e: Event)
    requires StreamOk(sent, stream, context) && !Last(sent).kind.StreamGap?
    requires Validate(e) && e.stream == stream && e.context == context && !e.snapshot &&
             Last(sent).sequence < e.sequence
    ensures StreamOk(sent + [e], stream, context)
  {
    var after := sent + [e];
    assert after[0] == sent[0];
    forall i: nat ensures EventFits(after, stream, context, i) {
      assert EventFits(sent, stream, context, i);
      if i + 1 == |sent| { assert after[i] == Last(sent); }
    }
  }

  lemma FoldIgnoresStream(v: Projection, e: Event, stream: string)
    ensures Learn(v, e.(stream := stream)) == Learn(v, e)
  {
  }

  /** What publishing may assume of its event and its new projection. */
  ghost predicate Publishable(h: Hub, e: Event, contexts: map<string, Projection>) {
    && e.sequence == h.sequence + 1
    && ValidBody(e) && !e.snapshot && !e.kind.StreamGap?
    && e.context in contexts && contexts == h.contexts[e.context := contexts[e.context]]
    && ProjectionOk(contexts[e.context])
    && Learn(ProjectionOf(h.contexts, e.context), e) == contexts[e.context]
  }

  lemma BystanderOk(h: Hub, s: Sub, e: Event, contexts: map<string, Projection>)
    requires HubInv(h) && Publishable(h, e, contexts) && SubOk(s, h.history, h.contexts, h.sequence)
    requires !s.live || s.context != e.context
    ensures SubOk(s, h.history + [e], contexts, e.sequence)
  {
    hide StreamOk, Fold, ViewAt, ValidBody, Learn, ProjectionOk, ContextOk, SubscriberOk, Told;
    ViewAfterPublish(h, e, s.context);
  }

  lemma ReceiverOk(h: Hub, s: Sub, e: Event, contexts: map<string, Projection>)
    requires HubInv(h) && Publishable(h, e, contexts) && SubOk(s, h.history, h.contexts, h.sequence)
    requires s.live && s.context == e.context && |s.queue| < QUEUE_DEPTH
    ensures SubOk(Offer(s, e), h.history + [e], contexts, e.sequence)
  {
    hide ValidLabel, SortedPeers, ValidPeer, ValidStream, Fold, ViewAt, ProjectionOk, ContextOk, SubscriberOk;
    var value := e.(stream := s.stream);
    var t := Offer(s, e);
    assert EventFits(s.sent, s.stream, s.context, 0);
    StreamGrows(s.sent, s.stream, s.context, value);
    FoldAppend(s.sent, value);
    FoldIgnoresStream(Fold(s.sent), e, s.stream);
    assert Last(t.sent) == value;
  }

  /** The gap tells the truth: what was sent before it is the projection just before the first lost event. */
  lemma OverflowOk(h: Hub, s: Sub, e: Event, contexts: map<string, Projection>)
    requires HubInv(h) && Publishable(h, e, contexts) && SubOk(s, h.history, h.contexts, h.sequence)
    requires s.live && s.context == e.context && |s.queue| >= QUEUE_DEPTH
    ensures SubOk(Offer(s, e), h.history + [e], contexts, e.sequence)
  {
    hide ValidLabel, SortedPeers, ValidPeer, ValidStream, Fold, ViewAt, ProjectionOk, ContextOk, SubscriberOk;
    var gap := GapFor(e, s.stream);
    var t := Offer(s, e);
    assert EventFits(s.sent, s.stream, s.context, 0);
    StreamGrows(s.sent, s.stream, s.context, gap);
    assert t.sent[..|t.sent| - 1] == s.sent;
    assert Last(t.sent) == gap;
    ViewAfterPublish(h, e, s.context);
    assert Told(h, s.context);
  }

  lemma OfferOk(h: Hub, s: Sub, e: Event, contexts: map<string, Projection>)
    requires HubInv(h) && Publishable(h, e, contexts) && SubOk(s, h.history, h.contexts, h.sequence)
    ensures SubOk(Offer(s, e), h.history + [e], contexts, e.sequence)
  {
    hide SubOk, Publishable, HubInv, GapFor;
    if !s.live || s.context != e.context {
      BystanderOk(h, s, e, contexts);
    } else if |s.queue| < QUEUE_DEPTH {
      ReceiverOk(h, s, e, contexts);
    } else {
      OverflowOk(h, s, e, contexts);
    }
  }

  lemma PublishTells(h: Hub, e: Event, contexts: map<string, Projection>, c: string)
    requires HubInv(h) && Publishable(h, e, contexts)
    ensures ContextOk(contexts, c) && Told(Publish(h, e, contexts), c)
  {
    hide ValidPeer, SortedPeers, Fold, ViewAt, ProjectionOk, SubscriberOk, ValidLabel;
    assert ContextOk(h.contexts, c) && Told(h, c);
    ViewAfterPublish(h, e, c);
  }

  lemma PublishOffers(h: Hub, e: Event, contexts: map<string, Projection>, id: nat)
    requires HubInv(h) && Publishable(h, e, contexts)
    ensures SubscriberOk(Publish(h, e, contexts), id)
  {
    hide SubOk, Told, ContextOk, Publishable;
    assert SubscriberOk(h, id);
    if id in h.subs { OfferOk(h, h.subs[id], e, contexts); }
  }

  lemma PublishKeeps(h: Hub, e: Event, contexts: map<string, Projection>)
    requires HubInv(h) && Publishable(h, e, contexts)
    ensures HubInv(Publish(h, e, contexts))
  {
    hide ContextOk, Told, SubscriberOk, ValidBody, Learn, ProjectionOk;
    var g := Publish(h, e, contexts);
    forall c ensures ContextOk(contexts, c) && Told(g, c) { PublishTells(h, e, contexts, c); }
    forall i: nat ensures Dated(g.history, g.sequence, i) { assert Dated(h.history, h.sequence, i); }
    forall id: nat ensures SubscriberOk(g, id) { PublishOffers(h, e, contexts, id); }
  }

  // ---- operations ----------------------------------------------------------

  lemma ProjectionFits(h: Hub, context: string)
    requires HubInv(h)
    ensures ProjectionOk(ProjectionOf(h.contexts, context))
  {
    assert ContextOk(h.contexts, context);
  }

  lemma SnapshotIsValid(h: Hub, context: string, stream: string, at: nat)
    requires HubInv(h) && ValidLabel(context) && ValidStream(stream) && at > 0
    ensures Validate(Snapshot(h, context, stream, at))
  {
    hide ValidLabel, ValidStream, SortedPeers, PeerList, Told, SubscriberOk;
    var p := ProjectionOf(h.contexts, context);
    ProjectionFits(h, context);
    if p.connected { ListIsSorted(p); }
  }

  lemma SnapshotFolds(h: Hub, context: string, stream: string, at: nat)
    requires HubInv(h)
    ensures Fold([Snapshot(h, context, stream, at)]) == ProjectionOf(h.contexts, context)
  {
    hide Fold, Index, PeerList, Told, SubscriberOk, ValidPeer;
    var e, p := Snapshot(h, context, stream, at), ProjectionOf(h.contexts, context);
    ProjectionFits(h, context);
    if p.connected { ListThenIndex(p.peers); }
    FoldAppend([], e);
    assert [] + [e] == [e];
  }

  lemma FirstEvent(h: Hub, context: string, stream: string, at: nat)
    requires HubInv(h) && ValidLabel(context) && ValidStream(stream) && at > 0
    ensures var e := Snapshot(h, context, stream, at);
            SubOk(Sub(stream, context, [e], [e], true), h.history, h.contexts, e.sequence)
  {
    hide HubInv, Validate, Fold, ProjectionOf, PeerList, ViewAt, ValidLabel, ValidStream;
    var e := Snapshot(h, context, stream, at);
    SnapshotIsValid(h, context, stream, at);
    SnapshotFolds(h, context, stream, at);
    forall i: nat ensures EventFits([e], stream, context, i) {}
  }

  lemma SubscribeKeeps(h: Hub, id: nat, context: string, stream: string, at: nat)
    requires HubInv(h) && id !in h.subs && ValidStream(stream) && at > 0
    ensures HubInv(Subscribe(h, id, context, stream, at).0)
  {
    hide PeerList, ViewAt, StreamOk, ProjectionOk, LiveSubs;
    var g := Subscribe(h, id, context, stream, at).0;
    if g != h {
      forall c ensures Told(g, c) {
        assert Told(h, c);
        RaiseBound(h, c, g.sequence);
      }
      forall i: nat ensures Dated(g.history, g.sequence, i) { assert Dated(h.history, h.sequence, i); }
      forall x: nat ensures SubscriberOk(g, x) {
        assert SubscriberOk(h, x);
        if x == id { FirstEvent(h, context, stream, at); }
      }
    }
  }

  function BaselineEvent(h: Hub, context: string, p: Projection, at: nat): Event {
    Next(h, context, ContextConnected, at).(peers := Some(PeerList(p.peers)))
  }

  lemma BaselineIsPublishable(h: Hub, context: string, p: Projection, at: nat)
    requires ValidLabel(context) && at > 0 && ProjectionOk(p) && p.connected
    ensures Publishable(h, BaselineEvent(h, context, p, at), h.contexts[context := p])
  {
    hide ValidLabel, ValidPeer, PeerList, Index, SortedPeers;
    ListIsSorted(p);
    ListThenIndex(p.peers);
  }

  lemma ConnectKeeps(h: Hub, context: string, baseline: seq<Peer>, at: nat)
    requires HubInv(h) && at > 0
    ensures HubInv(Connect(h, context, baseline, at).0)
  {
    if ValidLabel(context) && |baseline| <= MAX_PEERS && UniquePeers(baseline) && !h.closed {
      var p := Projection(true, Index(baseline));
      assert ProjectionOk(p) by { IndexIsOk(baseline); }
      BaselineIsPublishable(h, context, p, at);
      PublishKeeps(h, BaselineEvent(h, context, p, at), h.contexts[context := p]);
    }
  }

  lemma DisconnectKeeps(h: Hub, context: string, at: nat)
    requires HubInv(h) && at > 0
    ensures HubInv(Disconnect(h, context, at))
  {
    if !h.closed && ProjectionOf(h.contexts, context).connected {
      assert ContextOk(h.contexts, context);
      assert forall k :: KeyedPeer(Nothing.peers, k);
      assert forall a, b :: PeersApart(Nothing.peers, a, b);
      PublishKeeps(h, Next(h, context, ContextDisconnected, at), h.contexts[context := Nothing]);
    }
  }

  lemma DropKeeps(h: Hub, context: string, key: string, at: nat)
    requires HubInv(h) && at > 0 && context in h.contexts && h.contexts[context].connected &&
             key in h.contexts[context].peers
    ensures HubInv(Drop(h, context, key, at))
  {
    hide ValidLabel, Fold, ViewAt, Told, SubscriberOk, Dated;
    var v := h.contexts[context];
    assert ContextOk(h.contexts, context);
    assert KeyedPeer(v.peers, key);
    var after := v.(peers := v.peers - {key});
    assert ProjectionOk(after) by {
      forall k ensures KeyedPeer(after.peers, k) { assert KeyedPeer(v.peers, k); }
      forall a, b ensures PeersApart(after.peers, a, b) { assert PeersApart(v.peers, a, b); }
      assert after.peers.Keys == v.peers.Keys - {key};
    }
    PublishKeeps(h, PeerEvent(h, context, PeerOffline, v.peers[key], at), h.contexts[context := after]);
  }

  lemma AddKeeps(h: Hub, context: string, p: Peer, at: nat)
    requires HubInv(h) && at > 0 && context in h.contexts && h.contexts[context].connected && ValidPeer(p)
    requires Lower(p.name) !in h.contexts[context].peers && |h.contexts[context].peers| < MAX_PEERS
    requires !HeldElsewhere(h.contexts[context].peers, p)
    ensures HubInv(Add(h, context, p, at))
  {
    hide ValidLabel, Fold, ViewAt, Told, SubscriberOk, Dated;
    var v := h.contexts[context];
    assert ContextOk(h.contexts, context);
    var after := v.(peers := v.peers[Lower(p.name) := p]);
    assert ProjectionOk(after) by {
      forall k ensures KeyedPeer(after.peers, k) { assert KeyedPeer(v.peers, k); }
      forall a, b ensures PeersApart(after.peers, a, b) { assert PeersApart(v.peers, a, b); }
      assert after.peers.Keys == v.peers.Keys + {Lower(p.name)};
    }
    PublishKeeps(h, PeerEvent(h, context, PeerOnline, p, at), h.contexts[context := after]);
  }

  lemma JoinKeeps(h: Hub, context: string, p: Peer, at: nat, later: nat)
    requires HubInv(h) && at > 0 && later > 0
    ensures HubInv(Join(h, context, p, at, later).0)
  {
    var v := ProjectionOf(h.contexts, context);
    var key := Lower(p.name);
    if ValidPeer(p) && !h.closed && v.connected && !HeldElsewhere(v.peers, p) {
      assert ContextOk(h.contexts, context);
      if key !in v.peers {
        if |v.peers| < MAX_PEERS { AddKeeps(h, context, p, at); }
      } else if v.peers[key].device != p.device {
        DropKeeps(h, context, key, at);
        var g := Drop(h, context, key, at);
        assert |g.contexts[context].peers| < MAX_PEERS by {
          assert g.contexts[context].peers.Keys == v.peers.Keys - {key};
        }
        AddKeeps(g, context, p, later);
      }
    }
  }

  lemma LeaveKeeps(h: Hub, context: string, device: string, at: nat)
    requires HubInv(h) && at > 0
    ensures HubInv(Leave(h, context, device, at))
  {
    var v := ProjectionOf(h.contexts, context);
    if !h.closed && v.connected {
      forall key | Known(v.peers, device, key) ensures HubInv(Drop(h, context, key, at)) {
        DropKeeps(h, context, key, at);
      }
    }
  }

  /** Closing channels: of one subscriber, or of all at once. */
  function Detach(h: Hub, ids: set<nat>): Hub {
    h.(subs := map id | id in h.subs :: if id in ids then h.subs[id].(live := false) else h.subs[id])
  }

  /** `Close` */
  function Shutdown(h: Hub): Hub {
    Detach(h, h.subs.Keys).(closed := true)
  }

  /** The consumer takes the oldest event of its channel. */
  function Receive(h: Hub, id: nat): Hub {
    if id in h.subs && h.subs[id].queue != [] then
      h.(subs := h.subs[id := h.subs[id].(queue := h.subs[id].queue[1..])])
    else h
  }

  lemma DetachKeeps(h: Hub, ids: set<nat>)
    requires HubInv(h)
    ensures HubInv(Detach(h, ids))
  {
    var g := Detach(h, ids);
    forall c ensures Told(g, c) { assert Told(h, c); }
    forall id: nat ensures SubscriberOk(g, id) { assert SubscriberOk(h, id); }
  }

  lemma ShutdownKeeps(h: Hub)
    requires HubInv(h)
    ensures HubInv(Shutdown(h))
  {
    DetachKeeps(h, h.subs.Keys);
    var d, g := Detach(h, h.subs.Keys), Shutdown(h);
    forall c ensures Told(g, c) { assert Told(d, c); }
    forall id: nat ensures SubscriberOk(g, id) { assert SubscriberOk(d, id); }
  }

  lemma TakenOk(s: Sub, history: seq<Event>, contexts: map<string, Projection>, sequence: nat)
    requires SubOk(s, history, contexts, sequence) && s.queue != []
    ensures SubOk(s.(queue := s.queue[1..]), history, contexts, sequence)
  {
    hide StreamOk, Fold, ViewAt, ProjectionOf;
    var n := |s.sent| - |s.queue|;
    assert s.sent[n..][1..] == s.sent[n + 1..];
  }

  lemma ReceiveKeeps(h: Hub, id: nat)
    requires HubInv(h)
    ensures HubInv(Receive(h, id))
  {
    hide SubOk, ViewAt, ContextOk, Dated;
    var g := Receive(h, id);
    forall c ensures Told(g, c) { assert Told(h, c); }
    forall x: nat ensures SubscriberOk(g, x) {
      assert SubscriberOk(h, x);
      if g != h && x == id { TakenOk(h.subs[x], h.history, h.contexts, h.sequence); }
    }
  }

  // ---- runs ----------------------------------------------------------------

  datatype HubOp =
    | SubscribeOp(id: nat, context: string, stream: string, at: nat)
    | ConnectOp(context: string, baseline: seq<Peer>, at: nat)
    | DisconnectOp(context: string, at: nat)
    | JoinOp(context: string, peer: Peer, at: nat, later: nat)
    | LeaveOp(context: string, device: string, at: nat)
    | UnsubscribeOp(id: nat)
    | CloseOp
    | ReceiveOp(id: nat)

  ghost function Apply(h: Hub, op: HubOp): Hub {
    match op
    case SubscribeOp(id, context, stream, at) => Subscribe(h, id, context, stream, at).0
    case ConnectOp(context, baseline, at) => Connect(h, context, baseline, at).0
    case DisconnectOp(context, at) => Disconnect(h, context, at)
    case JoinOp(context, peer, at, later) => Join(h, context, peer, at, later).0
    case LeaveOp(context, device, at) => Leave(h, context, device, at)
    case UnsubscribeOp(id) => Detach(h, {id})
    case CloseOp => if h.closed then h else Shutdown(h)
    case ReceiveOp(id) => Receive(h, id)
  }

  /** Subscriptions are new objects, stream identities are sixteen random bytes, the clock is not zero. */
  ghost predicate Sane(h: Hub, op: HubOp) {
    match op
    case SubscribeOp(id, _, stream, at) => id !in h.subs && ValidStream(stream) && at > 0
    case ConnectOp(_, _, at) => at > 0
    case DisconnectOp(_, at) => at > 0
    case JoinOp(_, _, at, later) => at > 0 && later > 0
    case LeaveOp(_, _, at) => at > 0
    case _ => true
  }

  ghost function Run(h: Hub, ops: seq<HubOp>): Hub
    decreases |ops|
  {
    if ops == [] then h else Run(Apply(h, ops[0]), ops[1..])
  }

  ghost predicate SaneRun(h: Hub, ops: seq<HubOp>)
    decreases |ops|
  {
    ops == [] || (Sane(h, ops[0]) && SaneRun(Apply(h, ops[0]), ops[1..]))
  }

  lemma EmptyHubIsSound()
    ensures HubInv(EmptyHub)
  {
    forall c ensures Told(EmptyHub, c) {}
  }

  lemma ApplyKeeps(h: Hub, op: HubOp)
    requires HubInv(h) && Sane(h, op)
    ensures HubInv(Apply(h, op))
  {
    match op
    case SubscribeOp(id, context, stream, at) => SubscribeKeeps(h, id, context, stream, at);
    case ConnectOp(context, baseline, at) => ConnectKeeps(h, context, baseline, at);
    case DisconnectOp(context, at) => DisconnectKeeps(h, context, at);
    case JoinOp(context, peer, at, later) => JoinKeeps(h, context, peer, at, later);
    case LeaveOp(context, device, at) => LeaveKeeps(h, context, device, at);
    case UnsubscribeOp(id) => DetachKeeps(h, {id});
    case CloseOp => ShutdownKeeps(h);
    case ReceiveOp(id) => ReceiveKeeps(h, id);
  }

  lemma {:induction false} RunKeeps(h: Hub, ops: seq<HubOp>)
    requires HubInv(h) && SaneRun(h, ops)
    ensures HubInv(Run(h, ops))
    decreases |ops|
  {
    if ops != [] {
      ApplyKeeps(h, ops[0]);
      RunKeeps(Apply(h, ops[0]), ops[1..]);
    }
  }

  // ---- the past --------------------------------------------------------------

  /** Later hubs only add events, and give them later numbers. */
  ghost predicate Grows(h: Hub, g: Hub) {
    && h.history <= g.history
    && h.sequence <= g.sequence
    && forall i :: |h.history| <= i < |g.history| ==> g.history[i].sequence > h.sequence
  }

  lemma GrowsTwice(h: Hub, g: Hub, k: Hub)
    requires Grows(h, g) && Grows(g, k)
    ensures Grows(h, k)
  {
    forall i | |h.history| <= i < |k.history| ensures k.history[i].sequence > h.sequence {
      if i < |g.history| { assert k.history[i] == g.history[i]; }
    }
  }

  lemma PublishGrows(h: Hub, e: Event, contexts: map<string, Projection>)
    requires e.sequence == h.sequence + 1
    ensures Grows(h, Publish(h, e, contexts))
  {
  }

  /** A join that takes a label over from another device publishes twice. */
  predicate Replaces(h: Hub, op: HubOp) {
    && op.JoinOp?
    && ValidLabel(op.context) && ValidPeer(op.peer) && !h.closed && op.context in h.contexts
    && var v := h.contexts[op.context];
       && v.connected && !HeldElsewhere(v.peers, op.peer)
       && Lower(op.peer.name) in v.peers && v.peers[Lower(op.peer.name)].device != op.peer.device
  }

  /** What the first of its two events announces: the label is free. */
  function Vacated(h: Hub, op: HubOp): Hub
    requires Replaces(h, op)
  {
    Drop(h, op.context, Lower(op.peer.name), op.at)
  }

  lemma ReplacingJoin(h: Hub, op: HubOp)
    requires Replaces(h, op)
    ensures Apply(h, op) == Add(Vacated(h, op), op.context, op.peer, op.later)
    ensures Grows(h, Vacated(h, op)) && Grows(Vacated(h, op), Apply(h, op)) && Grows(h, Apply(h, op))
    ensures Vacated(h, op).sequence == h.sequence + 1 && Apply(h, op).sequence == h.sequence + 2
  {
    var v := Vacated(h, op);
    GrowsTwice(h, v, Add(v, op.context, op.peer, op.later));
  }

  lemma OtherJoin(h: Hub, op: HubOp)
    requires op.JoinOp? && !Replaces(h, op)
    ensures Grows(h, Apply(h, op)) && Apply(h, op).sequence <= h.sequence + 1
  {
  }

  /** Every operation publishes at most one event, but for a replacing join. */
  lemma ApplyGrows(h: Hub, op: HubOp)
    ensures Grows(h, Apply(h, op))
    ensures Apply(h, op).sequence <= h.sequence + (if Replaces(h, op) then 2 else 1)
  {
    match op
    case JoinOp(_, _, _, _) => if Replaces(h, op) { ReplacingJoin(h, op); } else { OtherJoin(h, op); }
    case _ =>
  }

  lemma {:induction false} RunGrows(h: Hub, ops: seq<HubOp>)
    ensures Grows(h, Run(h, ops))
    decreases |ops|
  {
    if ops != [] {
      ApplyGrows(h, ops[0]);
      RunGrows(Apply(h, ops[0]), ops[1..]);
      GrowsTwice(h, Apply(h, ops[0]), Run(Apply(h, ops[0]), ops[1..]));
    }
  }

  lemma {:induction false} LaterEventsDoNotCount(history: seq<Event>, more: seq<Event>, c: string, bound: nat)
    requires forall i :: 0 <= i < |more| ==> more[i].sequence >= bound
    ensures Before(history + more, c, bound) == Before(history, c, bound)
  {
    if more == [] {
      assert history + more == history;
    } else {
      var n := |more| - 1;
      assert history + more == (history + more[..n]) + [more[n]];
      BeforeAppend(history + more[..n], more[n], c, bound);
      LaterEventsDoNotCount(history, more[..n], c, bound);
    }
  }

  /** What the published events tell about an earlier moment is what the hub held at that moment. */
  lemma PastIsTold(h: Hub, g: Hub, c: string)
    requires HubInv(h) && Grows(h, g)
    ensures ViewAt(g.history, c, h.sequence + 1) == ProjectionOf(h.contexts, c)
  {
    hide Before, Fold, ContextOk, SubscriberOk;
    var more := g.history[|h.history|..];
    assert g.history == h.history + more;
    assert forall i :: 0 <= i < |more| ==> more[i] == g.history[|h.history| + i];
    LaterEventsDoNotCount(h.history, more, c, h.sequence + 1);
    assert Told(h, c);
  }

  /**
   `v` is the projection just before event `q`, which `op` published from `h`. Between its two
   events a replacing join has announced the old peer's leave, so the label counts as free.
   */
  ghost predicate JustBefore(h: Hub, op: HubOp, c: string, q: nat, v: Projection) {
    || (q == h.sequence + 1 && v == ProjectionOf(h.contexts, c))
    || (q == h.sequence + 2 && Replaces(h, op) && v == ProjectionOf(Vacated(h, op).contexts, c))
  }

  lemma ToldJustBefore(h: Hub, op: HubOp, g: Hub, c: string, q: nat)
    requires HubInv(h) && Sane(h, op) && Grows(Apply(h, op), g)
    requires h.sequence < q <= Apply(h, op).sequence
    ensures JustBefore(h, op, c, q, ViewAt(g.history, c, q))
  {
    hide HubInv, ViewAt;
    ApplyGrows(h, op);
    if q == h.sequence + 1 {
      GrowsTwice(h, Apply(h, op), g);
      PastIsTold(h, g, c);
    } else {
      ReplacingJoin(h, op);
      var mid := Vacated(h, op);
      assert HubInv(mid) by { DropKeeps(h, op.context, Lower(op.peer.name), op.at); }
      GrowsTwice(mid, Apply(h, op), g);
      PastIsTold(mid, g, c);
    }
  }

  /** Every number was given out by some operation of the run, and the past before it is told truthfully. */
  lemma {:induction false} ToldThroughout(h: Hub, ops: seq<HubOp>, c: string, q: nat) returns (k: nat)
    requires HubInv(h) && SaneRun(h, ops) && h.sequence < q <= Run(h, ops).sequence
    ensures k < |ops| && JustBefore(Run(h, ops[..k]), ops[k], c, q, ViewAt(Run(h, ops).history, c, q))
    decreases |ops|
  {
    hide HubInv, JustBefore, Apply, ViewAt;
    var g, rest := Apply(h, ops[0]), ops[1..];
    if q <= g.sequence {
      RunGrows(g, rest);
      ToldJustBefore(h, ops[0], Run(g, rest), c, q);
      k := 0;
    } else {
      ApplyKeeps(h, ops[0]);
      var j := ToldThroughout(g, rest, c, q);
      k := j + 1;
      assert ops[..k][0] == ops[0] && ops[..k][1..] == rest[..j];
    }
  }

  /** Some operation of the run published event `q`, and `v` is the hub's projection just before. */
  ghost predicate HeldJustBefore(ops: seq<HubOp>, c: string, q: nat, v: Projection) {
    exists k :: 0 <= k < |ops| && JustBefore(Run(EmptyHub, ops[..k]), ops[k], c, q, v)
  }

  /**
   After every run: folding all that a live subscription was sent gives exactly the
   hub's projection of its context. A stream that overflowed ends in its gap, and
   the fold up to the gap is what the hub held just before the first dropped event.
   */
  lemma StreamsAgreeWithTheHub(ops: seq<HubOp>, id: nat)
    requires SaneRun(EmptyHub, ops) && id in Run(EmptyHub, ops).subs
    ensures var h := Run(EmptyHub, ops);
            var s := h.subs[id];
            && s.sent != []
            && (s.live ==> Fold(s.sent) == ProjectionOf(h.contexts, s.context))
            && (forall i :: 0 <= i < |s.sent| - 1 ==> !s.sent[i].kind.StreamGap?)
            && (Last(s.sent).kind.StreamGap? ==>
                  && !s.live
                  && HeldJustBefore(ops, s.context, Last(s.sent).firstDropped, Fold(s.sent[..|s.sent| - 1])))
  {
    EmptyHubIsSound();
    RunKeeps(EmptyHub, ops);
    var h := Run(EmptyHub, ops);
    assert SubscriberOk(h, id);
    var s := h.subs[id];
    forall i | 0 <= i < |s.sent| - 1 ensures !s.sent[i].kind.StreamGap? {
      assert EventFits(s.sent, s.stream, s.context, i);
    }
    if Last(s.sent).kind.StreamGap? {
      var q := Last(s.sent).firstDropped;
      assert q > 0 by { assert EventFits(s.sent, s.stream, s.context, |s.sent| - 1); }
      var k := ToldThroughout(EmptyHub, ops, s.context, q);
    }
  }

  /** The channel has one slot more than the depth, and that slot is kept for the gap. */
  lemma SendsNeverBlock(ops: seq<HubOp>, id: nat)
    requires SaneRun(EmptyHub, ops) && id in Run(EmptyHub, ops).subs
    ensures var s := Run(EmptyHub, ops).subs[id];
            |s.queue| <= QUEUE_DEPTH + 1 && (s.live ==> |s.queue| <= QUEUE_DEPTH)
  {
    EmptyHubIsSound();
    RunKeeps(EmptyHub, ops);
    assert SubscriberOk(Run(EmptyHub, ops), id);
  }

  // ---- the client ----------------------------------------------------------

  /** `watchEventValidator` */
  datatype Client = Client(context: string, stream: string, sequence: nat, seen: bool)

  /** `Decode`: the next state and the event, or a refusal. */
  function Decode(v: Client, d: Document): Option<(Client, Event)> {
    var r := DecodeStrict(d);
    if r.None? then None
    else
      var e := r.value;
      if e.context != v.context || (v.seen && e.stream != v.stream) || (v.seen && e.sequence <= v.sequence) ||
         (!v.seen && (!e.snapshot || (!e.kind.ContextConnected? && !e.kind.ContextDisconnected?))) ||
         (v.seen && e.snapshot)
      then None
      else Some((Client(v.context, if v.seen then v.stream else e.stream, e.sequence, true), e))
  }

  /** Feed the wire forms of some events to the client, one after the other. */
  function Consume(v: Client, events: seq<Event>): Option<Client> {
    if events == [] then Some(v)
    else
      var before := Consume(v, events[..|events| - 1]);
      var d := Marshal(events[|events| - 1]);
      if before.None? || d.None? then None
      else
        var r := Decode(before.value, d.value);
        if r.None? then None else Some(r.value.0)
  }

  lemma DecodeAccepts(v: Client, e: Event)
    requires Validate(e) && e.context == v.context
    requires if v.seen then e.stream == v.stream && v.sequence < e.sequence && !e.snapshot
             else e.snapshot && (e.kind.ContextConnected? || e.kind.ContextDisconnected?)
    ensures Marshal(e).Some? && Decode(v, Marshal(e).value) == Some((Client(v.context, e.stream, e.sequence, true), e))
  {
    WireRoundTrip(e);
  }

  lemma ConsumeStep(v: Client, events: seq<Event>, e: Event, before: Client, after: Client)
    requires events != [] && events[|events| - 1] == e && Consume(v, events[..|events| - 1]) == Some(before)
    requires Marshal(e).Some? && Decode(before, Marshal(e).value) == Some((after, e))
    ensures Consume(v, events) == Some(after)
  {
  }

  /** The client accepts every prefix of a well-formed stream and reads back each event. */
  lemma {:induction false} ClientAccepts(sent: seq<Event>, stream: string, context: string, n: nat)
    requires StreamOk(sent, stream, context) && n <= |sent|
    ensures Consume(Client(context, "", 0, false), sent[..n]) ==
            Some(if n == 0 then Client(context, "", 0, false) else Client(context, stream, sent[n - 1].sequence, true))
  {
    hide Decode, Marshal, Validate;
    if n > 0 {
      var start := Client(context, "", 0, false);
      var before := if n == 1 then start else Client(context, stream, sent[n - 2].sequence, true);
      var e := sent[n - 1];
      assert Consume(start, sent[..n - 1]) == Some(before) by { ClientAccepts(sent, stream, context, n - 1); }
      assert sent[..n][..n - 1] == sent[..n - 1] && sent[..n][n - 1] == e;
      assert EventFits(sent, stream, context, n - 1);
      DecodeAccepts(before, e);
      ConsumeStep(start, sent[..n], e, before, Client(context, stream, e.sequence, true));
    }
  }

  /** What a consumer has taken from its channel so far. */
  function Received(s: Sub): seq<Event>
    requires |s.queue| <= |s.sent|
  {
    s.sent[..|s.sent| - |s.queue|]
  }

  /** After every run, whatever a subscription has received passes the client's validator. */
  lemma ClientAcceptsEveryStream(ops: seq<HubOp>, id: nat)
    requires SaneRun(EmptyHub, ops) && id in Run(EmptyHub, ops).subs
    ensures var s := Run(EmptyHub, ops).subs[id];
            |s.queue| <= |s.sent| && Consume(Client(s.context, "", 0, false), Received(s)).Some?
  {
    EmptyHubIsSound();
    RunKeeps(EmptyHub, ops);
    assert SubscriberOk(Run(EmptyHub, ops), id);
    var s := Run(EmptyHub, ops).subs[id];
    ClientAccepts(s.sent, s.stream, s.context, |s.sent| - |s.queue|);
  }
}
