/** The versioned events of a context watch: their shape, their wire form, their checks. */
module WatchEvents {
  import opened Basics
  import opened Names
  import opened Text

  const VERSION := 1
  const MAX_PEERS := 255

  datatype Peer = Peer(device: string, name: string)

  datatype Kind = ContextConnected | ContextDisconnected | PeerOnline | PeerOffline | StreamGap | UnknownKind

  /** `observedAt` 0 is the zero time; `peers` and `peer` are `None` when nil. */
  datatype Event = Event(version: nat, stream: string, sequence: nat, observedAt: nat, context: string, kind: Kind,
                         snapshot: bool, peers: Option<seq<Peer>>, peer: Option<Peer>, firstDropped: nat, resync: bool)

  // ---- checks --------------------------------------------------------------

  predicate IsHexDigit(c: char) { '0' <= c <= '9' || 'a' <= c <= 'f' || 'A' <= c <= 'F' }

  /** Sixteen bytes of hexadecimal. */
  predicate ValidStream(s: string) {
    |s| == 32 && forall i :: 0 <= i < |s| ==> IsHexDigit(s[i])
  }

  predicate ValidPeer(p: Peer) { ValidDevice(p.device) && ValidLabel(p.name) }

  predicate UniquePeers(peers: seq<Peer>) {
    && (forall i :: 0 <= i < |peers| ==> ValidPeer(peers[i]))
    && (forall i, j :: 0 <= i < j < |peers| ==>
          peers[i].device != peers[j].device && Lower(peers[i].name) != Lower(peers[j].name))
  }

  /** `comparePeer(a, b) <= 0`: by folded label, then label, then device. */
  predicate PeerAtMost(a: Peer, b: Peer) {
    || Less(Lower(a.name), Lower(b.name))
    || (Lower(a.name) == Lower(b.name) && (Less(a.name, b.name) || (a.name == b.name && AtMost(a.device, b.device))))
  }

  predicate SortedPeers(peers: seq<Peer>) {
    UniquePeers(peers) && forall i :: 0 < i < |peers| ==> PeerAtMost(peers[i - 1], peers[i])
  }

  /** `Validate`, apart from the stream identity. */
  predicate ValidBody(e: Event) {
    && e.version == VERSION && e.sequence != 0 && e.observedAt != 0 && ValidLabel(e.context)
    && match e.kind
       case ContextConnected =>
         && e.peer.None? && e.firstDropped == 0 && !e.resync
         && e.peers.Some? && |e.peers.value| <= MAX_PEERS && SortedPeers(e.peers.value)
       case ContextDisconnected => e.peer.None? && e.peers.None? && e.firstDropped == 0 && !e.resync
       case PeerOnline => PeerEventOk(e)
       case PeerOffline => PeerEventOk(e)
       case StreamGap => !e.snapshot && e.peer.None? && e.peers.None? && e.firstDropped != 0 && e.resync
       case UnknownKind => false
  }

  /** `Validate` */
  predicate Validate(e: Event) { ValidStream(e.stream) && ValidBody(e) }

  predicate PeerEventOk(e: Event) {
    !e.snapshot && e.peer.Some? && ValidPeer(e.peer.value) && e.peers.None? && e.firstDropped == 0 && !e.resync
  }

  // ---- the wire form -------------------------------------------------------

  datatype Field = FVersion | FStream | FSequence | FObservedAt | FContext | FType | FSnapshot | FPeers | FPeer |
                   FFirstDropped | FResync | FOther(name: string)

  datatype Json = JNumber(n: nat) | JText(s: string) | JBool(b: bool) | JTime(at: nat) | JKind(kind: Kind) |
                  JPeers(peers: Option<seq<Peer>>) | JPeer(peer: Option<Peer>)

  type Document = map<Field, Json>

  const COMMON := {FVersion, FStream, FSequence, FObservedAt, FContext, FType}

  function Common(e: Event): Document {
    map[FVersion := JNumber(e.version), FStream := JText(e.stream), FSequence := JNumber(e.sequence),
        FObservedAt := JTime(e.observedAt), FContext := JText(e.context), FType := JKind(e.kind)]
  }

  function WithSnapshot(d: Document, snapshot: bool): Document {
    if snapshot then d[FSnapshot := JBool(true)] else d
  }

  /** `MarshalJSON` */
  function Marshal(e: Event): Option<Document> {
    match e.kind
    case ContextConnected => Some(WithSnapshot(Common(e), e.snapshot)[FPeers := JPeers(e.peers)])
    case ContextDisconnected => Some(WithSnapshot(Common(e), e.snapshot))
    case PeerOnline => Some(Common(e)[FPeer := JPeer(e.peer)])
    case PeerOffline => Some(Common(e)[FPeer := JPeer(e.peer)])
    case StreamGap => Some(Common(e)[FFirstDropped := JNumber(e.firstDropped)][FResync := JBool(e.resync)])
    case UnknownKind => None
  }

  predicate Typed(f: Field, v: Json) {
    match f
    case FVersion => v.JNumber?
    case FStream => v.JText?
    case FSequence => v.JNumber?
    case FObservedAt => v.JTime?
    case FContext => v.JText?
    case FType => v.JKind?
    case FSnapshot => v.JBool?
    case FPeers => v.JPeers?
    case FPeer => v.JPeer?
    case FFirstDropped => v.JNumber?
    case FResync => v.JBool?
    case FOther(_) => false
  }

  /** Unknown or ill-typed fields fail the strict decoder. */
  predicate WellTyped(d: Document) {
    forall f :: f in d ==> Typed(f, d[f])
  }

  function NumberAt(d: Document, f: Field): nat
    requires WellTyped(d) && f in {FVersion, FSequence, FFirstDropped}
  {
    if f in d then d[f].n else 0
  }

  function TextAt(d: Document, f: Field): string
    requires WellTyped(d) && f in {FStream, FContext}
  {
    if f in d then d[f].s else ""
  }

  function BoolAt(d: Document, f: Field): bool
    requires WellTyped(d) && f in {FSnapshot, FResync}
  {
    f in d && d[f].b
  }

  /** Absent fields take their zero value. */
  function Unmarshal(d: Document): Event
    requires WellTyped(d)
  {
    Event(NumberAt(d, FVersion), TextAt(d, FStream), NumberAt(d, FSequence),
          if FObservedAt in d then d[FObservedAt].at else 0, TextAt(d, FContext),
          if FType in d then d[FType].kind else UnknownKind, BoolAt(d, FSnapshot),
          if FPeers in d then d[FPeers].peers else None, if FPeer in d then d[FPeer].peer else None,
          NumberAt(d, FFirstDropped), BoolAt(d, FResync))
  }

  function Required(kind: Kind): set<Field> {
    match kind
    case ContextConnected => COMMON + {FPeers}
    case ContextDisconnected => COMMON
    case PeerOnline => COMMON + {FPeer}
    case PeerOffline => COMMON + {FPeer}
    case StreamGap => COMMON + {FFirstDropped, FResync}
    case UnknownKind => COMMON
  }

  function Allowed(kind: Kind): set<Field> {
    Required(kind) + (if kind.ContextConnected? || kind.ContextDisconnected? then {FSnapshot} else {})
  }

  /** `validFields` */
  predicate ValidFields(e: Event, fields: set<Field>) {
    && !e.kind.UnknownKind?
    && Required(e.kind) <= fields <= Allowed(e.kind)
    && (FSnapshot in fields ==> e.snapshot)
  }

  /** `DecodeStrict` */
  function DecodeStrict(d: Document): Option<Event> {
    if !WellTyped(d) then None
    else
      var e := Unmarshal(d);
      if ValidFields(e, d.Keys) && Validate(e) then Some(e) else None
  }

  /** What `Marshal` writes, field by field. */
  lemma MarshalShape(e: Event)
    requires !e.kind.UnknownKind?
    requires e.snapshot ==> e.kind.ContextConnected? || e.kind.ContextDisconnected?
    ensures Marshal(e).Some?
    ensures var d := Marshal(e).value;
            && d.Keys == Required(e.kind) + (if e.snapshot then {FSnapshot} else {})
            && d[FVersion] == JNumber(e.version) && d[FStream] == JText(e.stream) && d[FSequence] == JNumber(e.sequence)
            && d[FObservedAt] == JTime(e.observedAt) && d[FContext] == JText(e.context) && d[FType] == JKind(e.kind)
            && (e.snapshot ==> d[FSnapshot] == JBool(true))
            && (e.kind.ContextConnected? ==> d[FPeers] == JPeers(e.peers))
            && (e.kind.PeerOnline? || e.kind.PeerOffline? ==> d[FPeer] == JPeer(e.peer))
            && (e.kind.StreamGap? ==> d[FFirstDropped] == JNumber(e.firstDropped) && d[FResync] == JBool(e.resync))
  {
    var d := Marshal(e).value;
    assert Common(e).Keys == COMMON;
    assert WithSnapshot(Common(e), e.snapshot).Keys == COMMON + (if e.snapshot then {FSnapshot} else {});
  }

  /** Every valid event survives the wire. */
  lemma WireRoundTrip(e: Event)
    requires Validate(e)
    ensures Marshal(e).Some? && DecodeStrict(Marshal(e).value) == Some(e)
  {
    hide ValidLabel, ValidStream, SortedPeers, ValidPeer;
    var d := Marshal(e).value;
    MarshalIsTyped(e);
    assert Unmarshal(d) == e by { UnmarshalReturns(e); }
    assert ValidFields(e, d.Keys) by { MarshalShape(e); }
  }

  lemma MarshalIsTyped(e: Event)
    requires ValidBody(e)
    ensures Marshal(e).Some? && WellTyped(Marshal(e).value)
  {
    MarshalShape(e);
    var d := Marshal(e).value;
    forall f | f in d ensures Typed(f, d[f]) {}
  }

  lemma UnmarshalReturns(e: Event)
    requires ValidBody(e) && Marshal(e).Some? && WellTyped(Marshal(e).value)
    ensures Unmarshal(Marshal(e).value) == e
  {
    hide Marshal, ValidLabel, ValidStream, SortedPeers, ValidPeer, Typed;
    MarshalShape(e);
  }

  /** The fields the decoder insisted on are those the encoder writes. */
  lemma SameFields(d: Document, e: Event)
    requires WellTyped(d) && e == Unmarshal(d) && ValidFields(e, d.Keys)
    ensures Marshal(e).Some? && Marshal(e).value.Keys == d.Keys
  {
    hide Marshal;
    MarshalShape(e);
  }

  lemma SameValue(d: Document, e: Event, f: Field)
    requires WellTyped(d) && e == Unmarshal(d) && ValidFields(e, d.Keys) && f in d
    ensures Marshal(e).Some? && f in Marshal(e).value && Marshal(e).value[f] == d[f]
  {
    hide Marshal;
    MarshalShape(e);
    SameFields(d, e);
    assert Typed(f, d[f]);
  }

  /** And whatever decodes is valid, and is the one document of its event. */
  lemma DecodedIsValid(d: Document)
    ensures var e := DecodeStrict(d);
            e.Some? ==> Validate(e.value) && Marshal(e.value) == Some(d)
  {
    hide Marshal, Unmarshal, ValidFields, Validate;
    var r := DecodeStrict(d);
    if r.Some? {
      SameFields(d, r.value);
      forall f | f in d ensures Marshal(r.value).value[f] == d[f] { SameValue(d, r.value, f); }
      assert Marshal(r.value).value == d;
    }
  }
}
