/**
 The enrollment ledger of the rendezvous server: its tables and, for every
 operation of the membership store, the state it commits and what it answers.
 An operation that fails leaves the tables as they were, except for the
 settlement of expired rows that the source commits first.
 */
module Ledger {
  import opened Basics
  import opened Outcomes
  import opened FactLog
  import opened RowOrder
  import Commands
  import Text

  const PENDING_LIFETIME := 15 * 60
  const DEFAULT_MAX_PENDING := 64
  const MAX_MEMBERS := 256
  const SECOND := 1_000_000_000
  const DEFAULT_INVITE_LIFETIME := 8 * 3600 * SECOND
  const MIN_INVITE_LIFETIME := 60 * SECOND
  const MAX_INVITE_LIFETIME := 7 * 24 * 3600 * SECOND
  const MAX_ACTIVE_INVITES := 64
  const MAX_MEMBER_ACTIVE_INVITES := 16
  const MAX_MEMBER_INVITE_CREATES_PER_MINUTE := 5

  type InviteId = nat

  /** `keyOk`: the stored device key decodes to a public key, as every key does that a request stores. */
  datatype Pending = Pending(code: nat, device: DeviceId, name: string, createdAt: Time, expiresAt: Time, keyOk: bool)

  datatype Member = Member(enrollment: EnrollmentId, name: string, revision: nat, createdAt: Time,
                           revokedAt: Option<Time>)

  datatype Actor =
    | Local
    | MemberActor(device: DeviceId)
    | DeviceActor(device: DeviceId)
    | AdapterActor(id: string)
    | System

  /** `issuer` is `Local` or `MemberActor`. */
  datatype Invite = Invite(name: string, issuer: Actor, secret: nat, createdAt: Time, expiresAt: Time)

  datatype InviteAction = Created | Redeemed | Revoked | Expired

  /** The audit rows of invites; the other audit rows are never read back. */
  datatype Audit = Audit(at: Time, actor: Actor, action: InviteAction, invite: InviteId)

  /** `bells` counts doorbell notifications; it belongs to the channel, not to the database. */
  datatype Tables = Tables(log: Log, pending: map<EnrollmentId, Pending>, members: map<DeviceId, Member>,
                           invites: map<InviteId, Invite>, audit: seq<Audit>, registry: Commands.Registry,
                           maxPending: nat, bells: nat)

  // ---- queries -------------------------------------------------------------

  predicate Active(m: Member) { m.revokedAt.None? }

  function ActiveMembers(members: map<DeviceId, Member>): set<DeviceId> {
    set d | d in members && Active(members[d])
  }

  function Waiting(t: Tables): set<EnrollmentId> { t.pending.Keys }

  predicate IsActiveMember(t: Tables, device: DeviceId) {
    device in t.members && Active(t.members[device])
  }

  predicate NameOfMember(t: Tables, key: string) {
    exists d :: d in t.members && Text.Lower(t.members[d].name) == key
  }

  predicate NameOfPending(t: Tables, key: string) {
    exists e :: e in t.pending && Text.Lower(t.pending[e].name) == key
  }

  predicate NameOfInvite(t: Tables, key: string) {
    exists i :: i in t.invites && Text.Lower(t.invites[i].name) == key
  }

  predicate DeviceIsPending(t: Tables, device: DeviceId) {
    exists e :: e in t.pending && t.pending[e].device == device
  }

  predicate CodeIsPending(t: Tables, code: nat) {
    exists e :: e in t.pending && t.pending[e].code == code
  }

  predicate EnrollmentIsMember(t: Tables, e: EnrollmentId) {
    exists d :: d in t.members && t.members[d].enrollment == e
  }

  function Notify(t: Tables): Tables { t.(bells := t.bells + 1) }

  // ---- expiry --------------------------------------------------------------

  function PendingExpiry(t: Tables): map<EnrollmentId, Time> {
    map e | e in t.pending :: t.pending[e].expiresAt
  }

  function DuePending(t: Tables, now: Time): (due: seq<EnrollmentId>)
    ensures forall e :: e in due <==> e in t.pending && t.pending[e].expiresAt <= now
    ensures forall i, j :: 0 <= i < j < |due| ==> due[i] != due[j]
  {
    Ordered(PendingExpiry(t), set e | e in t.pending && t.pending[e].expiresAt <= now)
  }

  function ExpireOne(t: Tables, e: EnrollmentId, now: Time): Option<Tables>
    requires e in t.pending
  {
    var p := t.pending[e];
    match Insert(t.log, Entry(PendingExpired, e, p.device, p.name, now, None, None))
    case None => None
    case Some(log) =>
      Some(t.(log := log,
              registry := Commands.RejectFor(t.registry, e, Commands.EnrollmentExpired, now, None),
              pending := t.pending - {e}))
  }

  ghost predicate Rows(t: Tables, rows: seq<EnrollmentId>) {
    && (forall i :: 0 <= i < |rows| ==> rows[i] in t.pending)
    && (forall i, j :: 0 <= i < j < |rows| ==> rows[i] != rows[j])
  }

  ghost function ExpireAll(t: Tables, rows: seq<EnrollmentId>, now: Time): Option<Tables>
    requires Rows(t, rows)
    decreases |rows|
  {
    if rows == [] then Some(t)
    else
      match ExpireOne(t, rows[0], now)
      case None => None
      case Some(u) =>
        assert forall i :: 0 <= i < |rows[1..]| ==> rows[1..][i] == rows[i + 1];
        ExpireAll(u, rows[1..], now)
  }

  /** `deleteExpired` */
  ghost function SettlePending(t: Tables, now: Time): Option<Tables> {
    ExpireAll(t, DuePending(t, now), now)
  }

  function InviteExpiry(t: Tables): map<InviteId, Time> {
    map i | i in t.invites :: t.invites[i].expiresAt
  }

  function DueInvites(t: Tables, now: Time): (due: seq<InviteId>)
    ensures forall i :: i in due <==> i in t.invites && t.invites[i].expiresAt <= now
    ensures forall i, j :: 0 <= i < j < |due| ==> due[i] != due[j]
  {
    Ordered(InviteExpiry(t), set i | i in t.invites && t.invites[i].expiresAt <= now)
  }

  function Records(ids: seq<InviteId>, at: Time, actor: Actor, action: InviteAction): seq<Audit> {
    seq(|ids|, i requires 0 <= i < |ids| => Audit(at, actor, action, ids[i]))
  }

  /** Take invites out of the table and put the matching records into the audit. */
  function CloseInvites(t: Tables, ids: seq<InviteId>, at: Time, actor: Actor, action: InviteAction): Tables {
    t.(invites := t.invites - (set i | i in ids), audit := t.audit + Records(ids, at, actor, action))
  }

  /** `deleteExpiredInvites` */
  function ExpireInvites(t: Tables, now: Time): Tables {
    CloseInvites(t, DueInvites(t, now), now, System, Expired)
  }

  /** `SettleExpired` */
  ghost function SettleExpired(t: Tables, now: Time): Option<Tables> {
    match SettlePending(t, now)
    case None => None
    case Some(u) =>
      var v := ExpireInvites(u, now);
      Some(if DuePending(t, now) == [] then v else Notify(v))
  }

  // ---- enrollment ----------------------------------------------------------

  datatype Enrollment = Enrolled | Waits(code: nat, expiresAt: Time)

  /** The answer to a device that is already known, if it is. */
  function KnownDevice(t: Tables, device: DeviceId, name: string): Option<Result<Enrollment>> {
    if device in t.members then
      var m := t.members[device];
      if Text.Lower(m.name) != Text.Lower(name) then Some(Err(MembershipConflict))
      else if !Active(m) then Some(Err(MembershipRevoked))
      else Some(Ok(Enrolled))
    else if NameOfMember(t, Text.Lower(name)) then Some(Err(MembershipConflict))
    else None
  }

  /** The answer to a device that already waits. */
  function WaitingDevice(p: Pending, name: string): Result<Enrollment> {
    if Text.Lower(p.name) != Text.Lower(name) then Err(MembershipConflict) else Ok(Waits(p.code, p.expiresAt))
  }

  /** Insert a pending row and its admission fact. */
  function Admit(t: Tables, e: EnrollmentId, p: Pending): Result<Tables> {
    var room := Waiting(t);
    var active := |ActiveMembers(t.members)|;
    if !CanReserve(t.log, room, active, 3) then Err(FactCapacity)
    else if e in t.pending || CodeIsPending(t, p.code) || DeviceIsPending(t, p.device) ||
            NameOfPending(t, Text.Lower(p.name)) then Err(ConstraintViolation)
    else
      match Insert(Reserved(t.log, room, active, 3),
                   Entry(PendingAdmitted, e, p.device, p.name, p.createdAt, Some(p.expiresAt), None))
      case None => Err(FactOrderViolation)
      case Some(log) => Ok(t.(log := log, pending := t.pending[e := p]))
  }

  /** The transaction of `RequestEnrollment`; `code` and `newId` are what it draws at random. */
  ghost function Request(t: Tables, device: DeviceId, name: string, code: nat, newId: EnrollmentId, now: Time)
    : (Tables, Result<Enrollment>)
  {
    match KnownDevice(t, device, name)
    case Some(answer) => (t, answer)
    case None =>
      if DeviceIsPending(t, device) then
        var e :| e in t.pending && t.pending[e].device == device;
        (t, WaitingDevice(t.pending[e], name))
      else if NameOfPending(t, Text.Lower(name)) || NameOfInvite(t, Text.Lower(name)) then (t, Err(MembershipConflict))
      else if |t.pending| >= t.maxPending then (t, Err(MembershipCapacity))
      else
        match Admit(t, newId, Pending(code, device, name, now, now + PENDING_LIFETIME, true))
        case Err(error) => (t, Err(error))
        case Ok(u) => (Notify(u), Ok(Waits(code, now + PENDING_LIFETIME)))
  }

  ghost function RequestEnrollment(t: Tables, device: DeviceId, name: string, code: nat, newId: EnrollmentId, now: Time)
    : (Tables, Result<Enrollment>)
  {
    if !Text.ValidLabel(name) then (t, Err(MembershipInvalid))
    else
      match SettleExpired(t, now)
      case None => (t, Err(FactOrderViolation))
      case Some(s) => Request(s, device, name, code, newId, now)
  }

  // ---- approval ------------------------------------------------------------

  /** Turn a pending row into a member row and append the approval fact. */
  function Enroll(t: Tables, e: EnrollmentId, now: Time): Result<Tables>
    requires e in t.pending
  {
    var p := t.pending[e];
    if p.device in t.members || NameOfMember(t, Text.Lower(p.name)) || EnrollmentIsMember(t, e)
    then Err(ConstraintViolation)
    else
      match Insert(t.log, Entry(MemberApproved, e, p.device, p.name, now, None, Some(1)))
      case None => Err(FactOrderViolation)
      case Some(log) =>
        Ok(t.(log := log, pending := t.pending - {e},
              members := t.members[p.device := Member(e, p.name, 1, now, None)]))
  }

  /** Who may approve: the operator, or a member that is still active. */
  function Approver(t: Tables, actor: Actor): Option<ErrorCode> {
    match actor
    case Local => None
    case MemberActor(device) => if IsActiveMember(t, device) then None else Some(MembershipRevoked)
    case _ => Some(MembershipInvalid)
  }

  /** The approval of one waiting enrollment, once the actor and the code are known to be good. */
  function ApproveWaiting(t: Tables, e: EnrollmentId, now: Time): (Tables, Result<Member>)
    requires e in t.pending
  {
    if |ActiveMembers(t.members)| >= MAX_MEMBERS then (t, Err(MembershipCapacity))
    else if !t.pending[e].keyOk then (t, Err(KeyUndecodable))
    else
      match Enroll(t, e, now)
      case Err(error) => (t, Err(error))
      case Ok(u) =>
        var v := u.(registry := Commands.RejectFor(u.registry, e, Commands.SettledElsewhere, now, None));
        (Notify(v), Ok(Member(e, t.pending[e].name, 1, now, None)))
  }

  ghost function ApproveSettled(t: Tables, code: nat, actor: Actor, now: Time): (Tables, Result<Member>) {
    if Approver(t, actor).Some? then (t, Err(Approver(t, actor).value))
    else if !CodeIsPending(t, code) then (t, Err(MembershipNotFound))
    else
      var e :| e in t.pending && t.pending[e].code == code;
      ApproveWaiting(t, e, now)
  }

  ghost function Approve(t: Tables, code: nat, actor: Actor, now: Time): (Tables, Result<Member>) {
    match SettleExpired(t, now)
    case None => (t, Err(FactOrderViolation))
    case Some(s) => ApproveSettled(s, code, actor, now)
  }

  /** The newest retained fact that ended the enrollment's wait. */
  function Terminal(rows: seq<Fact>, e: EnrollmentId): Option<Kind> {
    if rows == [] then None
    else
      var f := rows[|rows| - 1].entry;
      if f.enrollment == e && (f.kind.MemberApproved? || f.kind.PendingExpired?) then Some(f.kind)
      else Terminal(rows[..|rows| - 1], e)
  }

  /** `missingPendingRejection` */
  function MissingPendingRejection(rows: seq<Fact>, e: EnrollmentId): Commands.Rejection {
    match Terminal(rows, e)
    case None => Commands.NotPending
    case Some(kind) => if kind.PendingExpired? then Commands.EnrollmentExpired else Commands.SettledElsewhere
  }

  /** The transaction of `ApproveAdapterCommand` for a receipt that is still admitted. */
  function Execute(t: Tables, r: Commands.Receipt, now: Time): Result<Tables> {
    var e := r.enrollment;
    if e !in t.pending then
      Ok(t.(registry := Commands.RejectFor(t.registry, e, MissingPendingRejection(t.log.rows, e), now, None)))
    else if |ActiveMembers(t.members)| >= MAX_MEMBERS then
      Ok(t.(registry := Commands.RejectOne(t.registry, r.key, Commands.MemberCapacity, now)))
    else if !t.pending[e].keyOk then
      Ok(t.(registry := Commands.RejectOne(t.registry, r.key, Commands.InvalidEnrollmentKey, now)))
    else
      match Enroll(t, e, now)
      case Err(error) => Err(error)
      case Ok(u) =>
        var p := t.pending[e];
        Ok(Notify(u.(registry := Commands.CommitFor(u.registry, e, r.key, p.device, p.name, now))))
  }

  function ApproveAdapterSettled(t: Tables, adapter: string, command: string, now: Time)
    : (Tables, Result<Commands.Receipt>)
  {
    match Commands.Lookup(t.registry.receipts, Commands.Key(adapter, command))
    case None => (t, Err(ReceiptNotFound))
    case Some(r) =>
      if !r.state.Admitted? then (t, Ok(r))
      else
        match Execute(t, r, now)
        case Err(error) => (t, Err(error))
        case Ok(u) => (u, Commands.QueryCommand(u.registry, adapter, command))
  }

  ghost function ApproveAdapterCommand(t: Tables, adapter: string, command: string, now: Time)
    : (Tables, Result<Commands.Receipt>)
  {
    if !Commands.ValidAdapterId(adapter) then (t, Err(AdapterInvalid))
    else if !Commands.CommandId.Canonical(command) then (t, Err(CommandInvalid))
    else
      match SettleExpired(t, now)
      case None => (t, Err(FactOrderViolation))
      case Some(s) => ApproveAdapterSettled(s, adapter, command, now)
  }

  // ---- revocation ----------------------------------------------------------

  function IssuedBy(t: Tables, device: DeviceId): (ids: seq<InviteId>)
    ensures forall i :: i in ids <==> i in t.invites && t.invites[i].issuer == MemberActor(device)
    ensures forall i, j :: 0 <= i < j < |ids| ==> ids[i] != ids[j]
  {
    Ordered(map i | i in t.invites :: t.invites[i].createdAt,
            set i | i in t.invites && t.invites[i].issuer == MemberActor(device))
  }

  /** The audit trigger accepts `invite.revoked` only from the operator or a member. */
  predicate MayRevokeInvites(actor: Actor) { actor.Local? || actor.MemberActor? }

  /** Mark a member revoked, append the fact and close the invites it issued. */
  function Expel(t: Tables, device: DeviceId, actor: Actor, now: Time): Result<Tables>
    requires device in t.members
  {
    var m := t.members[device];
    match Insert(t.log, Entry(MemberRevoked, m.enrollment, device, m.name, now, None, Some(m.revision + 1)))
    case None => Err(FactOrderViolation)
    case Some(log) =>
      var u := t.(log := log, members := t.members[device := m.(revision := m.revision + 1, revokedAt := Some(now))]);
      if IssuedBy(u, device) != [] && !MayRevokeInvites(actor) then Err(ConstraintViolation)
      else Ok(CloseInvites(u, IssuedBy(u, device), now, actor, Revoked))
  }

  function Revoke(t: Tables, device: DeviceId, expectedRevision: int, actor: Actor, now: Time)
    : (Tables, Result<Member>)
  {
    if actor.AdapterActor? || actor.System? || expectedRevision <= 0 then (t, Err(MembershipInvalid))
    else
      var s := ExpireInvites(t, now);
      if device !in s.members then (t, Err(MembershipNotFound))
      else if !Active(s.members[device]) then (t, Err(MembershipRevoked))
      else if s.members[device].revision != expectedRevision then (t, Err(MembershipConflict))
      else
        match Expel(s, device, actor, now)
        case Err(error) => (t, Err(error))
        case Ok(u) => (Notify(u), Ok(u.members[device]))
  }

  // ---- invites -------------------------------------------------------------

  predicate ValidInviteActor(actor: Actor) { actor.Local? || actor.MemberActor? }

  predicate InviteActorActive(t: Tables, actor: Actor) {
    actor.MemberActor? ==> IsActiveMember(t, actor.device)
  }

  /** The member's recorded creations later than a moment: the rate query. */
  function CreatedAfter(audit: seq<Audit>, device: DeviceId, after: Time): nat {
    if audit == [] then 0
    else
      var a := audit[|audit| - 1];
      CreatedAfter(audit[..|audit| - 1], device, after) +
      (if a.action.Created? && a.actor == MemberActor(device) && a.at > after then 1 else 0)
  }

  function InvitesOf(t: Tables, device: DeviceId): set<InviteId> {
    set i | i in t.invites && t.invites[i].issuer == MemberActor(device)
  }

  predicate WithinMemberLimits(t: Tables, issuer: Actor, now: Time) {
    issuer.MemberActor? ==>
      && |InvitesOf(t, issuer.device)| < MAX_MEMBER_ACTIVE_INVITES
      && CreatedAfter(t.audit, issuer.device, now - 60) < MAX_MEMBER_INVITE_CREATES_PER_MINUTE
  }

  function OpenInvite(t: Tables, id: InviteId, invite: Invite, now: Time): Result<Tables> {
    if !InviteActorActive(t, invite.issuer) then Err(MembershipRevoked)
    else if NameOfMember(t, Text.Lower(invite.name)) || NameOfPending(t, Text.Lower(invite.name)) ||
            NameOfInvite(t, Text.Lower(invite.name)) then Err(InviteLabelUnavailable)
    else if |t.invites| >= MAX_ACTIVE_INVITES || !WithinMemberLimits(t, invite.issuer, now) then Err(InviteCapacity)
    else if id in t.invites then Err(ConstraintViolation)
    else Ok(t.(invites := t.invites[id := invite], audit := t.audit + [Audit(now, invite.issuer, Created, id)]))
  }

  /** Lifetimes are nanoseconds; zero asks for the default. */
  function Span(lifetime: int): int {
    if lifetime == 0 then DEFAULT_INVITE_LIFETIME else lifetime
  }

  predicate ValidSpan(span: int) {
    MIN_INVITE_LIFETIME <= span <= MAX_INVITE_LIFETIME && span % SECOND == 0
  }

  function NewInvite(name: string, span: int, issuer: Actor, secret: nat, now: Time): Invite {
    Invite(name, issuer, secret, now, now + span / SECOND)
  }

  /** `newId` and `secret` are what the source draws at random. */
  function CreateInvite(t: Tables, name: string, lifetime: int, issuer: Actor, newId: InviteId, secret: nat, now: Time)
    : (Tables, Result<Invite>)
  {
    if !Text.ValidLabel(name) || !ValidSpan(Span(lifetime)) || !ValidInviteActor(issuer)
    then (t, Err(MembershipInvalid))
    else
      var invite := NewInvite(name, Span(lifetime), issuer, secret, now);
      match OpenInvite(ExpireInvites(t, now), newId, invite, now)
      case Err(error) => (t, Err(error))
      case Ok(u) => (u, Ok(invite))
  }

  function RevokeInvite(t: Tables, id: InviteId, actor: Actor, now: Time): (Tables, Result<Invite>) {
    if !ValidInviteActor(actor) then (t, Err(MembershipInvalid))
    else
      var s := ExpireInvites(t, now);
      if !InviteActorActive(s, actor) then (t, Err(MembershipRevoked))
      else if id !in s.invites then (t, Err(InviteUnavailable))
      else (CloseInvites(s, [id], now, actor, Revoked), Ok(s.invites[id]))
  }

  /**
   A presented token: does its server tag match, whose invite, and which secret.
   The stored verifier is a hash of the invite's own fields and its secret, taken
   to be injective.
   */
  datatype Token = Token(ourServer: bool, invite: InviteId, secret: nat)

  predicate TokenMatches(t: Tables, token: Token, name: string)
    requires token.invite in t.invites
  {
    token.ourServer && t.invites[token.invite].secret == token.secret && t.invites[token.invite].name == name
  }

  predicate RedeemConflict(t: Tables, device: DeviceId, key: string) {
    device in t.members || NameOfMember(t, key) || DeviceIsPending(t, device) || NameOfPending(t, key)
  }

  /** Make the holder a member without any enrollment fact. */
  function Join(t: Tables, token: Token, device: DeviceId, name: string, newId: EnrollmentId, now: Time): Result<Tables>
    requires token.invite in t.invites
  {
    if EnrollmentIsMember(t, newId) then Err(ConstraintViolation)
    else
      var u := t.(members := t.members[device := Member(newId, name, 1, now, None)]);
      Ok(CloseInvites(u, [token.invite], now, DeviceActor(device), Redeemed))
  }

  /**
   `RedeemInvite`. Refusals commit the expiry of other invites, and a refusal for
   want of log space also commits the rows its reservation loop pruned.
   */
  function RedeemInvite(t: Tables, token: Token, device: DeviceId, name: string, newId: EnrollmentId, now: Time)
    : (Tables, Result<Member>)
  {
    if !Text.ValidLabel(name) then (t, Err(MembershipInvalid))
    else
      var s := ExpireInvites(t, now);
      if token.invite !in s.invites || !TokenMatches(s, token, name) || RedeemConflict(s, device, Text.Lower(name))
      then (s, Err(InviteUnavailable))
      else if |ActiveMembers(s.members)| >= MAX_MEMBERS then (s, Err(EnrollmentUnavailable))
      else
        var active := |ActiveMembers(s.members)|;
        var u := s.(log := Reserved(s.log, Waiting(s), active, 1));
        if !CanReserve(s.log, Waiting(s), active, 1) then (u, Err(EnrollmentUnavailable))
        else
          match Join(u, token, device, name, newId, now)
          case Err(error) => (t, Err(error))
          case Ok(v) => (v, Ok(Member(newId, name, 1, now, None)))
  }

  // ---- maintenance and reads -----------------------------------------------

  function PruneFacts(t: Tables, now: Time): (Tables, nat) {
    var n := AgedPrefix(t.log.rows, Waiting(t), now);
    var u := t.(log := DropOldest(t.log, n));
    (if n == 0 then u else Notify(u), n)
  }

  function PruneReceipts(t: Tables, now: Time): Tables {
    t.(registry := Commands.PruneReceipts(t.registry, now))
  }

  /** What a snapshot says about one waiting enrollment. */
  datatype Row = Row(device: DeviceId, name: string, createdAt: Time, expiresAt: Time)

  function View(pending: map<EnrollmentId, Pending>): map<EnrollmentId, Row> {
    map e | e in pending :: Row(pending[e].device, pending[e].name, pending[e].createdAt, pending[e].expiresAt)
  }

  datatype Snapshot = Snapshot(order: seq<EnrollmentId>, rows: map<EnrollmentId, Row>, highWater: nat)

  function ReadSnapshot(t: Tables): Snapshot {
    Snapshot(Ordered(map e | e in t.pending :: t.pending[e].createdAt, t.pending.Keys), View(t.pending),
             HighWater(t.log))
  }

  /**
   `CurrentPendingSnapshot` for an adapter: expiry is settled in the transaction
   that reads. The error for more rows than `maxPending` rolls the expiry back.
   */
  ghost function PendingSnapshot(t: Tables, adapter: string, credential: nat, now: Time): (Tables, Result<Snapshot>) {
    if !Commands.ValidAdapterId(adapter) then (t, Err(AdapterInvalid))
    else if !Commands.Authorized(t.registry, adapter, credential) then (t, Err(AdapterUnauthorized))
    else
      match SettlePending(t, now)
      case None => (t, Err(FactOrderViolation))
      case Some(s) =>
        if |s.pending| > t.maxPending then (t, Err(PendingOverflow))
        else (if DuePending(t, now) == [] then s else Notify(s), Ok(ReadSnapshot(s)))
  }
}
