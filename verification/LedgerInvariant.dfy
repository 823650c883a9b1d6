/** What every reachable state of the ledger satisfies, and that each table change keeps it. */
module LedgerInvariant {
  import opened Basics
  import opened FactLog
  import opened Ledger

  // ---- the invariant -------------------------------------------------------

  /** How one fact changes the waiting set a consumer rebuilds. */
  function Step(rows: map<EnrollmentId, Row>, f: Entry): map<EnrollmentId, Row> {
    match f.kind
    case PendingAdmitted =>
      rows[f.enrollment := Row(f.device, f.name, f.occurredAt, if f.expiresAt.Some? then f.expiresAt.value else 0)]
    case PendingExpired => rows - {f.enrollment}
    case MemberApproved => rows - {f.enrollment}
    case MemberRevoked => rows
  }

  function Fold(rows: map<EnrollmentId, Row>, facts: seq<Fact>): map<EnrollmentId, Row> {
    if facts == [] then rows
    else Step(Fold(rows, facts[..|facts| - 1]), facts[|facts| - 1].entry)
  }

  lemma {:induction false} FoldConcat(rows: map<EnrollmentId, Row>, a: seq<Fact>, b: seq<Fact>)
    ensures Fold(rows, a + b) == Fold(Fold(rows, a), b)
  {
    if b == [] {
      assert a + b == a;
    } else {
      assert (a + b)[..|a + b| - 1] == a + b[..|b| - 1];
      FoldConcat(rows, a, b[..|b| - 1]);
    }
  }

  /** The orders in which one enrollment's facts may appear. */
  predicate LegalLife(kinds: seq<Kind>) {
    || kinds == []
    || kinds == [PendingAdmitted]
    || kinds == [PendingAdmitted, PendingExpired]
    || kinds == [PendingAdmitted, MemberApproved]
    || kinds == [PendingAdmitted, MemberApproved, MemberRevoked]
    || kinds == [MemberRevoked]
  }

  /** A waiting enrollment has its admission in the log, retained, and nothing else. */
  ghost predicate Waits(log: Log, waiting: set<EnrollmentId>, e: EnrollmentId) {
    e in waiting ==> KindsOf(log.history, e) == [PendingAdmitted] && KindsOf(log.rows, e) == [PendingAdmitted]
  }

  /**
   Members that joined by invite or before the fact log existed have no earlier facts,
   and a member revoked before the log existed has none at all.
   */
  ghost predicate MemberLife(log: Log, m: Member) {
    var kinds := KindsOf(log.history, m.enrollment);
    if Active(m) then kinds == [] || kinds == [PendingAdmitted, MemberApproved]
    else kinds == [] || kinds == [MemberRevoked] || kinds == [PendingAdmitted, MemberApproved, MemberRevoked]
  }

  ghost predicate MemberLives(log: Log, members: map<DeviceId, Member>, d: DeviceId) {
    d in members ==> MemberLife(log, members[d])
  }

  ghost predicate Lives(log: Log, waiting: set<EnrollmentId>, members: map<DeviceId, Member>) {
    && (forall e :: LegalLife(KindsOf(log.history, e)))
    && (forall e :: Waits(log, waiting, e))
    && (forall d :: MemberLives(log, members, d))
  }

  /** The reservation scheme. */
  ghost predicate Budget(rows: seq<Fact>, pending: map<EnrollmentId, Pending>, members: map<DeviceId, Member>,
                         maxPending: nat) {
    && |pending| <= DEFAULT_MAX_PENDING && maxPending <= DEFAULT_MAX_PENDING
    && |ActiveMembers(members)| <= MAX_MEMBERS
    && Occupancy(rows, pending.Keys, |ActiveMembers(members)|) <= MAX_FACT_ROWS
  }

  function KeyOf(name: string): string { Text.Lower(name) }

  ghost predicate PendingApart(pending: map<EnrollmentId, Pending>, a: EnrollmentId, b: EnrollmentId) {
    a in pending && b in pending && a != b ==>
      && pending[a].code != pending[b].code
      && pending[a].device != pending[b].device
      && KeyOf(pending[a].name) != KeyOf(pending[b].name)
  }

  ghost predicate PendingDistinct(pending: map<EnrollmentId, Pending>) {
    forall a, b :: PendingApart(pending, a, b)
  }

  ghost predicate MembersApart(members: map<DeviceId, Member>, a: DeviceId, b: DeviceId) {
    a in members && b in members && a != b ==>
      KeyOf(members[a].name) != KeyOf(members[b].name) && members[a].enrollment != members[b].enrollment
  }

  ghost predicate MembersDistinct(members: map<DeviceId, Member>) {
    forall a, b :: MembersApart(members, a, b)
  }

  ghost predicate InvitesApart(invites: map<InviteId, Invite>, a: InviteId, b: InviteId) {
    a in invites && b in invites && a != b ==> KeyOf(invites[a].name) != KeyOf(invites[b].name)
  }

  ghost predicate InvitesDistinct(invites: map<InviteId, Invite>) {
    forall a, b :: InvitesApart(invites, a, b)
  }

  ghost predicate MemberNotPending(members: map<DeviceId, Member>, pending: map<EnrollmentId, Pending>, d: DeviceId,
                                   e: EnrollmentId) {
    d in members && e in pending ==> d != pending[e].device && KeyOf(members[d].name) != KeyOf(pending[e].name)
  }

  ghost predicate MembersVersusPending(members: map<DeviceId, Member>, pending: map<EnrollmentId, Pending>) {
    forall d, e :: MemberNotPending(members, pending, d, e)
  }

  ghost predicate InviteNotPending(invites: map<InviteId, Invite>, pending: map<EnrollmentId, Pending>, i: InviteId,
                                   e: EnrollmentId) {
    i in invites && e in pending ==> KeyOf(invites[i].name) != KeyOf(pending[e].name)
  }

  ghost predicate InvitesVersusPending(invites: map<InviteId, Invite>, pending: map<EnrollmentId, Pending>) {
    forall i, e :: InviteNotPending(invites, pending, i, e)
  }

  ghost predicate InviteNotMember(invites: map<InviteId, Invite>, members: map<DeviceId, Member>, i: InviteId,
                                  d: DeviceId) {
    i in invites && d in members ==> KeyOf(invites[i].name) != KeyOf(members[d].name)
  }

  ghost predicate InvitesVersusMembers(invites: map<InviteId, Invite>, members: map<DeviceId, Member>) {
    forall i, d :: InviteNotMember(invites, members, i, d)
  }

  ghost predicate IssuerActive(invites: map<InviteId, Invite>, members: map<DeviceId, Member>, i: InviteId) {
    i in invites ==>
      var issuer := invites[i].issuer;
      issuer.Local? || (issuer.MemberActor? && issuer.device in members && Active(members[issuer.device]))
  }

  ghost predicate IssuersActive(invites: map<InviteId, Invite>, members: map<DeviceId, Member>) {
    forall i :: IssuerActive(invites, members, i)
  }

  /** No label, device, code or enrollment stands for two things at once. */
  ghost predicate Identities(pending: map<EnrollmentId, Pending>, members: map<DeviceId, Member>,
                             invites: map<InviteId, Invite>) {
    && PendingDistinct(pending)
    && MembersDistinct(members)
    && InvitesDistinct(invites)
    && MembersVersusPending(members, pending)
    && InvitesVersusPending(invites, pending)
    && InvitesVersusMembers(invites, members)
    && IssuersActive(invites, members)
  }

  function Tally(audit: seq<Audit>, id: InviteId, action: InviteAction): nat {
    if audit == [] then 0
    else
      var a := audit[|audit| - 1];
      Tally(audit[..|audit| - 1], id, action) + (if a.invite == id && a.action == action then 1 else 0)
  }

  function Total(audit: seq<Audit>, action: InviteAction): nat {
    if audit == [] then 0
    else Total(audit[..|audit| - 1], action) + (if audit[|audit| - 1].action == action then 1 else 0)
  }

  function Ended(audit: seq<Audit>, id: InviteId): nat {
    Tally(audit, id, Redeemed) + Tally(audit, id, Revoked) + Tally(audit, id, Expired)
  }

  /** Each invite is created once and is either open or ended, in exactly one way. */
  ghost predicate InviteBalanced(invites: map<InviteId, Invite>, audit: seq<Audit>, id: InviteId) {
    && Tally(audit, id, Created) <= 1
    && Tally(audit, id, Created) == (if id in invites then 1 else 0) + Ended(audit, id)
  }

  ghost predicate Conserved(invites: map<InviteId, Invite>, audit: seq<Audit>) {
    && (forall id :: InviteBalanced(invites, audit, id))
    && Total(audit, Created) == |invites| + Total(audit, Redeemed) + Total(audit, Revoked) + Total(audit, Expired)
  }

  /** The member's creations in the window after `lo` and up to `hi`. */
  function CreatedWithin(audit: seq<Audit>, device: DeviceId, lo: Time, hi: Time): nat {
    if audit == [] then 0
    else
      var a := audit[|audit| - 1];
      CreatedWithin(audit[..|audit| - 1], device, lo, hi) +
      (if a.action.Created? && a.actor == MemberActor(device) && lo < a.at <= hi then 1 else 0)
  }

  ghost predicate WindowOk(audit: seq<Audit>, device: DeviceId, lo: Time) {
    CreatedWithin(audit, device, lo, lo + 60) <= MAX_MEMBER_INVITE_CREATES_PER_MINUTE
  }

  /** No member creates more than five invites in any sixty consecutive seconds. */
  ghost predicate RateLimited(audit: seq<Audit>) {
    forall device, lo :: WindowOk(audit, device, lo)
  }

  ghost predicate Approved(history: seq<Fact>, e: EnrollmentId) {
    MemberApproved in KindsOf(history, e)
  }

  /** Every committed command approved its own enrollment, and that once. */
  ghost predicate ApprovalsLogged(history: seq<Fact>, commits: seq<Commands.Commit>) {
    && (forall c :: c in commits ==> Approved(history, c.enrollment))
    && (forall i, j :: 0 <= i < j < |commits| ==> commits[i].enrollment != commits[j].enrollment)
  }

  ghost predicate LogInv(t: Tables) {
    && Wellformed(t.log)
    && Fold(map[], t.log.history) == View(t.pending)
    && Lives(t.log, t.pending.Keys, t.members)
    && Budget(t.log.rows, t.pending, t.members, t.maxPending)
    && ApprovalsLogged(t.log.history, t.registry.commits)
  }

  ghost predicate Inv(t: Tables) {
    && LogInv(t)
    && Identities(t.pending, t.members, t.invites)
    && Conserved(t.invites, t.audit)
    && RateLimited(t.audit)
    && Commands.Valid(t.registry)
  }

  /** A state reached later: nothing recorded is taken back. */
  ghost predicate Follows(t: Tables, u: Tables) {
    && t.log.history <= u.log.history
    && t.log.floor <= u.log.floor
    && t.audit <= u.audit
    && Commands.Later(t.registry, u.registry)
    && t.maxPending == u.maxPending
    && t.bells <= u.bells
    && (|u.log.history| > |t.log.history| ==> u.bells > t.bells)
  }

  lemma FollowsIsTransitive(t: Tables, u: Tables, v: Tables)
    requires Follows(t, u) && Follows(u, v)
    ensures Follows(t, v)
  {
    Commands.LaterIsTransitive(t.registry, u.registry, v.registry);
  }

  // ---- facts about the log -------------------------------------------------

  lemma AppendKinds(log: Log, entry: Entry, e: EnrollmentId)
    ensures KindsOf(Append(log, entry).history, e) ==
            KindsOf(log.history, e) + (if e == entry.enrollment then [entry.kind] else [])
    ensures KindsOf(Append(log, entry).rows, e) ==
            KindsOf(log.rows, e) + (if e == entry.enrollment then [entry.kind] else [])
  {
    var f := Fact(log.last + 1, entry);
    KindsOfAppend(log.history, f, e);
    KindsOfAppend(log.rows, f, e);
  }

  lemma RetainedKinds(log: Log, e: EnrollmentId)
    requires Wellformed(log)
    ensures KindsOf(log.history, e) == KindsOf(log.history[..log.floor], e) + KindsOf(log.rows, e)
  {
    assert log.history == log.history[..log.floor] + log.rows;
    KindsOfConcat(log.history[..log.floor], log.rows, e);
  }

  /** The order check accepts an expiry and an approval of whatever waits. */
  lemma WaitingCanSettle(log: Log, waiting: set<EnrollmentId>, members: map<DeviceId, Member>, e: EnrollmentId)
    requires Lives(log, waiting, members) && e in waiting
    ensures OrderOk(log.rows, PendingExpired, e) && OrderOk(log.rows, MemberApproved, e)
  {
    assert Waits(log, waiting, e);
    assert multiset([PendingAdmitted])[PendingExpired] == 0;
  }

  /** The order check accepts the revocation of any active member. */
  lemma ActiveCanBeRevoked(log: Log, waiting: set<EnrollmentId>, members: map<DeviceId, Member>, d: DeviceId)
    requires Wellformed(log) && Lives(log, waiting, members) && d in members && Active(members[d])
    ensures OrderOk(log.rows, MemberRevoked, members[d].enrollment)
  {
    var e := members[d].enrollment;
    assert MemberLives(log, members, d);
    RetainedKinds(log, e);
    var gone, kept := KindsOf(log.history[..log.floor], e), KindsOf(log.rows, e);
    if gone + kept == [] {
      assert kept == [];
    } else {
      var all := [PendingAdmitted, MemberApproved];
      assert |gone| <= 2 && kept == all[|gone|..];
      assert |gone| == 0 ==> kept == all;
      assert |gone| == 1 ==> kept == [MemberApproved];
      assert |gone| == 2 ==> kept == [];
    }
  }

  /** A new identity can be admitted. */
  lemma UnseenCanBeAdmitted(log: Log, e: EnrollmentId)
    requires Wellformed(log) && KindsOf(log.history, e) == []
    ensures OrderOk(log.rows, PendingAdmitted, e)
  {
    RetainedKinds(log, e);
    assert KindsOf(log.rows, e) == [];
  }

  lemma {:induction false} KindHasFact(facts: seq<Fact>, e: EnrollmentId, kind: Kind)
    requires kind in KindsOf(facts, e)
    ensures exists i :: 0 <= i < |facts| && facts[i].entry.enrollment == e && facts[i].entry.kind == kind
  {
    var n := |facts| - 1;
    if facts[n].entry.enrollment == e && facts[n].entry.kind == kind {
    } else {
      KindHasFact(facts[..n], e, kind);
      var i :| 0 <= i < n && facts[..n][i].entry.enrollment == e && facts[..n][i].entry.kind == kind;
      assert facts[i] == facts[..n][i];
    }
  }

  /** Pruning unprotected rows never loses the admission of something that waits. */
  lemma DropKeepsWaiting(log: Log, waiting: set<EnrollmentId>, n: nat, e: EnrollmentId)
    requires Waits(log, waiting, e) && e in waiting && n <= FreePrefix(log.rows, waiting)
    ensures Waits(DropOldest(log, n), waiting, e)
  {
    var gone, kept := log.rows[..n], log.rows[n..];
    assert log.rows == gone + kept;
    KindsOfConcat(gone, kept, e);
    if KindsOf(gone, e) != [] {
      assert (KindsOf(gone, e) + KindsOf(kept, e))[0] == KindsOf(gone, e)[0];
      assert KindsOf(gone, e)[0] == PendingAdmitted;
      KindHasFact(gone, e, PendingAdmitted);
      assert false;
    }
  }

  lemma DropKeepsLives(log: Log, waiting: set<EnrollmentId>, members: map<DeviceId, Member>, n: nat)
    requires Lives(log, waiting, members) && n <= FreePrefix(log.rows, waiting)
    ensures Lives(DropOldest(log, n), waiting, members)
  {
    var after := DropOldest(log, n);
    forall e ensures LegalLife(KindsOf(after.history, e)) { assert LegalLife(KindsOf(log.history, e)); }
    forall e ensures Waits(after, waiting, e) {
      assert Waits(log, waiting, e);
      if e in waiting { DropKeepsWaiting(log, waiting, n, e); }
    }
    forall d ensures MemberLives(after, members, d) { assert MemberLives(log, members, d); }
  }

  // ---- the log part, change by change --------------------------------------

  /** Facts of one enrollment leave every other life as it was. */
  lemma OthersKeepLives(log: Log, entry: Entry, waiting: set<EnrollmentId>, members: map<DeviceId, Member>)
    requires Lives(log, waiting, members)
    ensures var after := Append(log, entry);
            && (forall e :: e != entry.enrollment ==> LegalLife(KindsOf(after.history, e)))
            && (forall e :: e != entry.enrollment ==> Waits(after, waiting, e))
            && (forall d :: d in members && members[d].enrollment != entry.enrollment ==>
                  MemberLives(after, members, d))
  {
    var after := Append(log, entry);
    forall e | e != entry.enrollment
      ensures KindsOf(after.history, e) == KindsOf(log.history, e) && KindsOf(after.rows, e) == KindsOf(log.rows, e)
    {
      AppendKinds(log, entry, e);
    }
    forall e | e != entry.enrollment ensures LegalLife(KindsOf(after.history, e)) {
      assert LegalLife(KindsOf(log.history, e));
    }
    forall e | e != entry.enrollment ensures Waits(after, waiting, e) { assert Waits(log, waiting, e); }
    forall d | d in members && members[d].enrollment != entry.enrollment ensures MemberLives(after, members, d) {
      assert MemberLives(log, members, d);
    }
  }

  lemma FoldAppend(log: Log, entry: Entry)
    ensures Fold(map[], Append(log, entry).history) == Step(Fold(map[], log.history), entry)
  {
    var f := Fact(log.last + 1, entry);
    assert (log.history + [f])[..|log.history + [f]| - 1] == log.history;
  }

  lemma ApprovalsStay(log: Log, entry: Entry, commits: seq<Commands.Commit>)
    requires ApprovalsLogged(log.history, commits)
    ensures ApprovalsLogged(Append(log, entry).history, commits)
  {
    forall c | c in commits ensures Approved(Append(log, entry).history, c.enrollment) {
      assert Approved(log.history, c.enrollment);
      AppendKinds(log, entry, c.enrollment);
    }
  }

  /** Nothing that waits is the enrollment of a member. */
  lemma WaitingIsNoMember(log: Log, waiting: set<EnrollmentId>, members: map<DeviceId, Member>, e: EnrollmentId)
    requires Lives(log, waiting, members) && e in waiting
    ensures forall d :: d in members ==> members[d].enrollment != e
  {
    assert Waits(log, waiting, e);
    forall d | d in members ensures members[d].enrollment != e { assert MemberLives(log, members, d); }
  }

  lemma RemovedSize<T>(m: map<nat, T>, e: nat)
    requires e in m
    ensures |m - {e}| == |m| - 1
  {
    assert (m - {e}).Keys == m.Keys - {e};
  }

  lemma LivesExpire(log: Log, entry: Entry, waiting: set<EnrollmentId>, members: map<DeviceId, Member>)
    requires Lives(log, waiting, members) && entry.enrollment in waiting && entry.kind == PendingExpired
    ensures Lives(Append(log, entry), waiting - {entry.enrollment}, members)
  {
    var id, after := entry.enrollment, Append(log, entry);
    assert Waits(log, waiting, id);
    OthersKeepLives(log, entry, waiting, members);
    WaitingIsNoMember(log, waiting, members, id);
    AppendKinds(log, entry, id);
    assert [PendingAdmitted] + [PendingExpired] == [PendingAdmitted, PendingExpired];
    forall e ensures Waits(after, waiting - {id}, e) { if e != id { assert Waits(after, waiting, e); } }
    forall d ensures MemberLives(after, members, d) {}
  }

  lemma LivesAdmit(log: Log, entry: Entry, after: Log, waiting: set<EnrollmentId>, members: map<DeviceId, Member>)
    requires Wellformed(log) && Lives(log, waiting, members) && entry.kind == PendingAdmitted &&
             after == Append(log, entry)
    requires KindsOf(log.history, entry.enrollment) == []
    requires forall d :: d in members ==> members[d].enrollment != entry.enrollment
    ensures Lives(after, waiting + {entry.enrollment}, members)
  {
    var id := entry.enrollment;
    assert KindsOf(after.history, id) == [PendingAdmitted] && KindsOf(after.rows, id) == [PendingAdmitted] by {
      RetainedKinds(log, id);
      AppendKinds(log, entry, id);
      assert [] + [PendingAdmitted] == [PendingAdmitted];
    }
    OthersKeepLives(log, entry, waiting, members);
    forall e ensures Waits(after, waiting + {id}, e) { if e != id { assert Waits(after, waiting, e); } }
    forall d ensures MemberLives(after, members, d) {}
  }

  lemma LivesEnroll(log: Log, entry: Entry, waiting: set<EnrollmentId>, members: map<DeviceId, Member>, d: DeviceId,
                    m: Member)
    requires Lives(log, waiting, members) && entry.enrollment in waiting && entry.kind == MemberApproved
    requires m.enrollment == entry.enrollment && Active(m)
    ensures Lives(Append(log, entry), waiting - {entry.enrollment}, members[d := m])
  {
    var id, after := entry.enrollment, Append(log, entry);
    assert Waits(log, waiting, id);
    OthersKeepLives(log, entry, waiting, members);
    WaitingIsNoMember(log, waiting, members, id);
    AppendKinds(log, entry, id);
    assert [PendingAdmitted] + [MemberApproved] == [PendingAdmitted, MemberApproved];
    forall e ensures Waits(after, waiting - {id}, e) { if e != id { assert Waits(after, waiting, e); } }
    var joined := members[d := m];
    forall x ensures MemberLives(after, joined, x) {
      if x != d && x in members { assert MemberLives(after, members, x); }
    }
  }

  /** A member's life ends with its revocation, whether or not its admission was logged. */
  lemma RevokedLife(kinds: seq<Kind>)
    requires kinds == [] || kinds == [PendingAdmitted, MemberApproved]
    ensures LegalLife(kinds + [MemberRevoked]) && kinds != [PendingAdmitted]
    ensures kinds + [MemberRevoked] == [MemberRevoked] ||
            kinds + [MemberRevoked] == [PendingAdmitted, MemberApproved, MemberRevoked]
  {
    if kinds == [] {
      assert kinds + [MemberRevoked] == [MemberRevoked];
    } else {
      assert kinds + [MemberRevoked] == [PendingAdmitted, MemberApproved, MemberRevoked];
    }
  }

  lemma OtherMembersLive(log: Log, entry: Entry, waiting: set<EnrollmentId>, members: map<DeviceId, Member>,
                         d: DeviceId)
    requires Lives(log, waiting, members) && MembersDistinct(members) && d in members &&
             entry.enrollment == members[d].enrollment
    ensures forall x :: x in members && x != d ==> MemberLives(Append(log, entry), members, x)
  {
    OthersKeepLives(log, entry, waiting, members);
    forall x | x in members && x != d ensures MemberLives(Append(log, entry), members, x) {
      assert MembersApart(members, x, d);
    }
  }

  lemma OneLifeChanges(log: Log, entry: Entry, waiting: set<EnrollmentId>, members: map<DeviceId, Member>)
    requires Lives(log, waiting, members) && KindsOf(log.history, entry.enrollment) != [PendingAdmitted]
    requires LegalLife(KindsOf(Append(log, entry).history, entry.enrollment))
    ensures forall e :: LegalLife(KindsOf(Append(log, entry).history, e))
    ensures forall e :: Waits(Append(log, entry), waiting, e)
  {
    OthersKeepLives(log, entry, waiting, members);
    assert Waits(log, waiting, entry.enrollment);
    assert Waits(Append(log, entry), waiting, entry.enrollment);
  }

  lemma ReplaceLife(log: Log, members: map<DeviceId, Member>, d: DeviceId, m: Member)
    requires MemberLife(log, m) && forall x :: x in members && x != d ==> MemberLives(log, members, x)
    ensures var left := members[d := m]; forall x :: MemberLives(log, left, x)
  {
    var left := members[d := m];
    forall x ensures MemberLives(log, left, x) {
      assert x in members && x != d ==> MemberLives(log, members, x);
    }
  }

  lemma LivesExpel(log: Log, entry: Entry, waiting: set<EnrollmentId>, members: map<DeviceId, Member>, d: DeviceId,
                   m: Member)
    requires Lives(log, waiting, members) && MembersDistinct(members) && d in members && Active(members[d]) &&
             !Active(m)
    requires entry.kind == MemberRevoked && entry.enrollment == members[d].enrollment == m.enrollment
    ensures Lives(Append(log, entry), waiting, members[d := m])
  {
    var id, after := entry.enrollment, Append(log, entry);
    assert MemberLives(log, members, d);
    AppendKinds(log, entry, id);
    RevokedLife(KindsOf(log.history, id));
    OneLifeChanges(log, entry, waiting, members);
    OtherMembersLive(log, entry, waiting, members, d);
    ReplaceLife(after, members, d, m);
  }

  lemma ViewRemove(pending: map<EnrollmentId, Pending>, e: EnrollmentId)
    ensures View(pending - {e}) == View(pending) - {e}
    ensures (pending - {e}).Keys == pending.Keys - {e}
  {
  }

  lemma ViewAdd(pending: map<EnrollmentId, Pending>, e: EnrollmentId, p: Pending)
    ensures View(pending[e := p]) == View(pending)[e := Row(p.device, p.name, p.createdAt, p.expiresAt)]
    ensures pending[e := p].Keys == pending.Keys + {e}
  {
  }

  /** The parts of the log invariant an append decides by itself. */
  lemma AppendKeepsRecords(t: Tables, entry: Entry)
    requires LogInv(t)
    ensures var after := Append(t.log, entry);
            && Wellformed(after)
            && Fold(map[], after.history) == Step(View(t.pending), entry)
            && ApprovalsLogged(after.history, t.registry.commits)
            && after.history == t.log.history + [Fact(t.log.last + 1, entry)]
            && |after.rows| == |t.log.rows| + 1
  {
    AppendKeepsWellformed(t.log, entry);
    FoldAppend(t.log, entry);
    ApprovalsStay(t.log, entry, t.registry.commits);
  }

  ghost predicate ExpiredFrom(t: Tables, u: Tables, entry: Entry) {
    && entry.enrollment in t.pending && entry.kind == PendingExpired
    && u.log == Append(t.log, entry)
    && u.pending == t.pending - {entry.enrollment}
    && u.members == t.members
    && u.maxPending == t.maxPending
    && u.registry.commits == t.registry.commits
  }

  /** An expiry swaps one waiting enrollment, worth two slots, for one fact. */
  lemma ExpiryKeepsLog(t: Tables, u: Tables, entry: Entry)
    requires LogInv(t) && ExpiredFrom(t, u, entry)
    ensures LogInv(u)
  {
    AppendKeepsRecords(t, entry);
    ViewRemove(t.pending, entry.enrollment);
    RemovedSize(t.pending, entry.enrollment);
    assert Lives(u.log, u.pending.Keys, u.members) by { LivesExpire(t.log, entry, t.pending.Keys, t.members); }
  }

  lemma ExpireOneKeepsLog(t: Tables, e: EnrollmentId, now: Time)
    requires LogInv(t) && e in t.pending
    ensures var u := ExpireOne(t, e, now);
            var entry := Entry(PendingExpired, e, t.pending[e].device, t.pending[e].name, now, None, None);
            u.Some? && ExpiredFrom(t, u.value, entry) && LogInv(u.value)
  {
    var entry := Entry(PendingExpired, e, t.pending[e].device, t.pending[e].name, now, None, None);
    assert OrderOk(t.log.rows, PendingExpired, e) by { WaitingCanSettle(t.log, t.pending.Keys, t.members, e); }
    var u := ExpireOne(t, e, now);
    assert ExpiredFrom(t, u.value, entry);
    assert LogInv(u.value) by { ExpiryKeepsLog(t, u.value, entry); }
  }

  /** A reservation prunes only what it may, and leaves the rest of the invariant alone. */
  lemma DropKeepsLog(t: Tables, n: nat)
    requires LogInv(t) && n <= FreePrefix(t.log.rows, t.pending.Keys)
    ensures LogInv(t.(log := DropOldest(t.log, n)))
  {
    DropOldestKeepsWellformed(t.log, n);
    DropKeepsLives(t.log, t.pending.Keys, t.members, n);
  }

  /** An admission takes its own slot and the two its settlement and revocation will need. */
  lemma AdmissionKeepsLog(t: Tables, e: EnrollmentId, p: Pending)
    requires LogInv(t) && |t.pending| < DEFAULT_MAX_PENDING && e !in t.pending
    requires KindsOf(t.log.history, e) == [] && (forall d :: d in t.members ==> t.members[d].enrollment != e)
    requires Occupancy(t.log.rows, t.pending.Keys, |ActiveMembers(t.members)|) + 3 <= MAX_FACT_ROWS
    ensures var entry := Entry(PendingAdmitted, e, p.device, p.name, p.createdAt, Some(p.expiresAt), None);
            && OrderOk(t.log.rows, PendingAdmitted, e)
            && LogInv(t.(log := Append(t.log, entry), pending := t.pending[e := p]))
  {
    var entry := Entry(PendingAdmitted, e, p.device, p.name, p.createdAt, Some(p.expiresAt), None);
    var u := t.(log := Append(t.log, entry), pending := t.pending[e := p]);
    assert OrderOk(t.log.rows, PendingAdmitted, e) by { UnseenCanBeAdmitted(t.log, e); }
    assert LogInv(u) by {
      AppendKeepsRecords(t, entry);
      ViewAdd(t.pending, e, p);
      assert |u.pending| == |t.pending| + 1;
      assert Lives(u.log, u.pending.Keys, u.members) by { LivesAdmit(t.log, entry, u.log, t.pending.Keys, t.members); }
    }
  }

  lemma ReservedKeepsLog(t: Tables, need: nat)
    requires LogInv(t)
    ensures var active := |ActiveMembers(t.members)|;
            var s := t.(log := Reserved(t.log, t.pending.Keys, active, need));
            && LogInv(s)
            && s.log.history == t.log.history && s.log.floor >= t.log.floor
            && (CanReserve(t.log, t.pending.Keys, active, need) ==>
                  Occupancy(s.log.rows, s.pending.Keys, active) + need <= MAX_FACT_ROWS)
  {
    var excess := Excess(t.log, t.pending.Keys, |ActiveMembers(t.members)|, need);
    var n := Min(excess, FreePrefix(t.log.rows, t.pending.Keys));
    DropKeepsLog(t, n);
    DropOldestKeepsWellformed(t.log, n);
  }

  lemma ActiveAfterJoin(members: map<DeviceId, Member>, d: DeviceId, m: Member)
    requires d !in members && Active(m)
    ensures ActiveMembers(members[d := m]) == ActiveMembers(members) + {d}
    ensures |ActiveMembers(members[d := m])| == |ActiveMembers(members)| + 1
  {
    assert d !in ActiveMembers(members);
  }

  lemma ActiveAfterRevoke(members: map<DeviceId, Member>, d: DeviceId, m: Member)
    requires d in members && Active(members[d]) && !Active(m)
    ensures ActiveMembers(members[d := m]) == ActiveMembers(members) - {d}
    ensures |ActiveMembers(members[d := m])| == |ActiveMembers(members)| - 1
  {
    assert d in ActiveMembers(members);
  }

  /** An approval turns the two reserved slots into the approval fact and the member's own slot. */
  lemma EnrollKeepsLog(t: Tables, e: EnrollmentId, now: Time)
    requires LogInv(t) && e in t.pending && t.pending[e].device !in t.members
    requires |ActiveMembers(t.members)| < MAX_MEMBERS
    ensures var p := t.pending[e];
            var entry := Entry(MemberApproved, e, p.device, p.name, now, None, Some(1));
            && OrderOk(t.log.rows, MemberApproved, e)
            && LogInv(t.(log := Append(t.log, entry), pending := t.pending - {e},
                         members := t.members[p.device := Member(e, p.name, 1, now, None)]))
  {
    hide Wellformed, Fold, Lives, ApprovalsLogged;
    var p := t.pending[e];
    var m := Member(e, p.name, 1, now, None);
    var entry := Entry(MemberApproved, e, p.device, p.name, now, None, Some(1));
    var u := t.(log := Append(t.log, entry), pending := t.pending - {e}, members := t.members[p.device := m]);
    assert OrderOk(t.log.rows, MemberApproved, e) by { WaitingCanSettle(t.log, t.pending.Keys, t.members, e); }
    assert LogInv(u) by {
      AppendKeepsRecords(t, entry);
      ViewRemove(t.pending, e);
      RemovedSize(t.pending, e);
      ActiveAfterJoin(t.members, p.device, m);
      assert Lives(u.log, u.pending.Keys, u.members) by {
        LivesEnroll(t.log, entry, t.pending.Keys, t.members, p.device, m);
      }
    }
  }

  ghost predicate ExpelledFrom(t: Tables, u: Tables, entry: Entry, d: DeviceId, m: Member) {
    && d in t.members && Active(t.members[d]) && !Active(m)
    && entry.kind == MemberRevoked && entry.enrollment == t.members[d].enrollment == m.enrollment
    && u.log == Append(t.log, entry)
    && u.members == t.members[d := m]
    && u.pending == t.pending
    && u.maxPending == t.maxPending
    && u.registry.commits == t.registry.commits
  }

  /** A revocation spends the member's own slot on the revocation fact. */
  lemma RevocationKeepsLog(t: Tables, u: Tables, entry: Entry, d: DeviceId, m: Member)
    requires LogInv(t) && MembersDistinct(t.members) && ExpelledFrom(t, u, entry, d, m)
    ensures LogInv(u)
  {
    AppendKeepsRecords(t, entry);
    assert Budget(u.log.rows, u.pending, u.members, u.maxPending) by { ActiveAfterRevoke(t.members, d, m); }
    assert Lives(u.log, u.pending.Keys, u.members) by { LivesExpel(t.log, entry, t.pending.Keys, t.members, d, m); }
  }

  /** Joining by invite appends no fact but takes the slot its revocation will need. */
  lemma JoinKeepsLog(t: Tables, d: DeviceId, m: Member)
    requires LogInv(t) && d !in t.members && Active(m) && KindsOf(t.log.history, m.enrollment) == []
    requires |ActiveMembers(t.members)| < MAX_MEMBERS
    requires Occupancy(t.log.rows, t.pending.Keys, |ActiveMembers(t.members)|) + 1 <= MAX_FACT_ROWS
    ensures LogInv(t.(members := t.members[d := m]))
  {
    var u := t.(members := t.members[d := m]);
    assert Lives(u.log, u.pending.Keys, u.members) by {
      forall x ensures MemberLives(u.log, u.members, x) { if x != d { assert MemberLives(t.log, t.members, x); } }
    }
    ActiveAfterJoin(t.members, d, m);
  }

  /** A commit belongs to an enrollment whose approval has just been logged for the first time. */
  lemma CommitKeepsLog(t: Tables, u: Tables, c: Commands.Commit)
    requires LogInv(t) && LogInv(u) && t.registry.commits == u.registry.commits
    requires c.enrollment in t.pending && Approved(u.log.history, c.enrollment)
    ensures ApprovalsLogged(u.log.history, u.registry.commits + [c])
  {
    assert Waits(t.log, t.pending.Keys, c.enrollment);
    forall x | x in t.registry.commits ensures x.enrollment != c.enrollment {
      assert Approved(t.log.history, x.enrollment);
    }
  }

  // ---- identities ----------------------------------------------------------

  lemma IdentitiesShrink(t: Tables, pending: map<EnrollmentId, Pending>, invites: map<InviteId, Invite>)
    requires Identities(t.pending, t.members, t.invites)
    requires forall e :: e in pending ==> e in t.pending && pending[e] == t.pending[e]
    requires forall i :: i in invites ==> i in t.invites && invites[i] == t.invites[i]
    ensures Identities(pending, t.members, invites)
  {
    forall a, b ensures PendingApart(pending, a, b) { assert PendingApart(t.pending, a, b); }
    forall a, b ensures InvitesApart(invites, a, b) { assert InvitesApart(t.invites, a, b); }
    forall d, e ensures MemberNotPending(t.members, pending, d, e) {
      assert MemberNotPending(t.members, t.pending, d, e);
    }
    forall i, e ensures InviteNotPending(invites, pending, i, e) {
      assert InviteNotPending(t.invites, t.pending, i, e);
    }
    forall i, d ensures InviteNotMember(invites, t.members, i, d) {
      assert InviteNotMember(t.invites, t.members, i, d);
    }
    forall i ensures IssuerActive(invites, t.members, i) { assert IssuerActive(t.invites, t.members, i); }
  }

  lemma IdentitiesAdmit(t: Tables, e: EnrollmentId, p: Pending)
    requires Identities(t.pending, t.members, t.invites) && e !in t.pending && p.device !in t.members
    requires !CodeIsPending(t, p.code) && !DeviceIsPending(t, p.device)
    requires !NameOfPending(t, KeyOf(p.name)) && !NameOfMember(t, KeyOf(p.name)) && !NameOfInvite(t, KeyOf(p.name))
    ensures Identities(t.pending[e := p], t.members, t.invites)
  {
    var after := t.pending[e := p];
    forall a, b ensures PendingApart(after, a, b) { assert PendingApart(t.pending, a, b); }
    forall d, x ensures MemberNotPending(t.members, after, d, x) {
      assert MemberNotPending(t.members, t.pending, d, x);
    }
    forall i, x ensures InviteNotPending(t.invites, after, i, x) {
      assert InviteNotPending(t.invites, t.pending, i, x);
    }
  }

  /** An approval never meets a taken device, label or enrollment. */
  lemma EnrollMeetsNoConflict(t: Tables, e: EnrollmentId)
    requires Lives(t.log, t.pending.Keys, t.members) && MembersVersusPending(t.members, t.pending) && e in t.pending
    ensures t.pending[e].device !in t.members
    ensures !NameOfMember(t, KeyOf(t.pending[e].name)) && !EnrollmentIsMember(t, e)
  {
    forall d | d in t.members ensures d != t.pending[e].device && KeyOf(t.members[d].name) != KeyOf(t.pending[e].name) {
      assert MemberNotPending(t.members, t.pending, d, e);
    }
    WaitingIsNoMember(t.log, t.pending.Keys, t.members, e);
  }

  lemma IdentitiesEnroll(t: Tables, e: EnrollmentId, now: Time)
    requires Identities(t.pending, t.members, t.invites) && e in t.pending && !EnrollmentIsMember(t, e)
    ensures var p := t.pending[e];
            Identities(t.pending - {e}, t.members[p.device := Member(e, p.name, 1, now, None)], t.invites)
  {
    var p := t.pending[e];
    var pending, members := t.pending - {e}, t.members[p.device := Member(e, p.name, 1, now, None)];
    forall a, b ensures PendingApart(pending, a, b) { assert PendingApart(t.pending, a, b); }
    forall a, b ensures MembersApart(members, a, b) {
      assert MembersApart(t.members, a, b);
      assert MemberNotPending(t.members, t.pending, a, e) && MemberNotPending(t.members, t.pending, b, e);
    }
    forall d, x ensures MemberNotPending(members, pending, d, x) {
      assert MemberNotPending(t.members, t.pending, d, x);
      assert PendingApart(t.pending, e, x);
    }
    forall i, x ensures InviteNotPending(t.invites, pending, i, x) {
      assert InviteNotPending(t.invites, t.pending, i, x);
    }
    forall i, d ensures InviteNotMember(t.invites, members, i, d) {
      assert InviteNotMember(t.invites, t.members, i, d);
      assert InviteNotPending(t.invites, t.pending, i, e);
    }
    forall i ensures IssuerActive(t.invites, members, i) { assert IssuerActive(t.invites, t.members, i); }
  }

  /** Marking a member revoked and closing its invites keeps every issuer active. */
  lemma IdentitiesExpel(t: Tables, d: DeviceId, m: Member, invites: map<InviteId, Invite>)
    requires Identities(t.pending, t.members, t.invites) && d in t.members
    requires m.name == t.members[d].name && m.enrollment == t.members[d].enrollment
    requires forall i :: i in invites ==>
               i in t.invites && invites[i] == t.invites[i] && invites[i].issuer != MemberActor(d)
    ensures Identities(t.pending, t.members[d := m], invites)
  {
    var members := t.members[d := m];
    IdentitiesShrink(t, t.pending, invites);
    forall a, b ensures MembersApart(members, a, b) { assert MembersApart(t.members, a, b); }
    forall x, e ensures MemberNotPending(members, t.pending, x, e) {
      assert MemberNotPending(t.members, t.pending, x, e);
    }
    forall i, x ensures InviteNotMember(invites, members, i, x) { assert InviteNotMember(t.invites, t.members, i, x); }
    forall i ensures IssuerActive(invites, members, i) { assert IssuerActive(t.invites, t.members, i); }
  }

  lemma IdentitiesOpen(t: Tables, id: InviteId, invite: Invite)
    requires Identities(t.pending, t.members, t.invites) && ValidInviteActor(invite.issuer) &&
             InviteActorActive(t, invite.issuer)
    requires !NameOfPending(t, KeyOf(invite.name)) && !NameOfMember(t, KeyOf(invite.name)) &&
             !NameOfInvite(t, KeyOf(invite.name))
    ensures Identities(t.pending, t.members, t.invites[id := invite])
  {
    var invites := t.invites[id := invite];
    forall a, b ensures InvitesApart(invites, a, b) { assert InvitesApart(t.invites, a, b); }
    forall i, e ensures InviteNotPending(invites, t.pending, i, e) {
      assert InviteNotPending(t.invites, t.pending, i, e);
    }
    forall i, d ensures InviteNotMember(invites, t.members, i, d) {
      assert InviteNotMember(t.invites, t.members, i, d);
    }
    forall i ensures IssuerActive(invites, t.members, i) { assert IssuerActive(t.invites, t.members, i); }
  }

  lemma IdentitiesJoin(t: Tables, d: DeviceId, m: Member, id: InviteId)
    requires Identities(t.pending, t.members, t.invites) && id in t.invites &&
             KeyOf(m.name) == KeyOf(t.invites[id].name)
    requires d !in t.members && Active(m) && !DeviceIsPending(t, d) && !EnrollmentIsMember(t, m.enrollment)
    ensures Identities(t.pending, t.members[d := m], t.invites - {id})
  {
    var members, invites := t.members[d := m], t.invites - {id};
    IdentitiesShrink(t, t.pending, invites);
    forall a, b ensures MembersApart(members, a, b) {
      assert MembersApart(t.members, a, b);
      assert InviteNotMember(t.invites, t.members, id, a) && InviteNotMember(t.invites, t.members, id, b);
    }
    forall x, e ensures MemberNotPending(members, t.pending, x, e) {
      assert MemberNotPending(t.members, t.pending, x, e);
      assert InviteNotPending(t.invites, t.pending, id, e);
    }
    forall i, x ensures InviteNotMember(invites, members, i, x) {
      assert InviteNotMember(t.invites, t.members, i, x);
      assert InvitesApart(t.invites, i, id);
    }
    forall i ensures IssuerActive(invites, members, i) { assert IssuerActive(t.invites, t.members, i); }
  }

  // ---- the invite books ----------------------------------------------------

  lemma TallyAppend(audit: seq<Audit>, a: Audit, id: InviteId, action: InviteAction)
    ensures Tally(audit + [a], id, action) == Tally(audit, id, action) +
            (if a.invite == id && a.action == action then 1 else 0)
    ensures Total(audit + [a], action) == Total(audit, action) + (if a.action == action then 1 else 0)
  {
    assert (audit + [a])[..|audit + [a]| - 1] == audit;
  }

  lemma BalanceAppend(audit: seq<Audit>, a: Audit, id: InviteId)
    ensures Tally(audit + [a], id, Created) == Tally(audit, id, Created) +
            (if a.invite == id && a.action.Created? then 1 else 0)
    ensures Ended(audit + [a], id) == Ended(audit, id) + (if a.invite == id && !a.action.Created? then 1 else 0)
  {
    TallyAppend(audit, a, id, Created);
    TallyAppend(audit, a, id, Redeemed);
    TallyAppend(audit, a, id, Revoked);
    TallyAppend(audit, a, id, Expired);
  }

  lemma TotalsAppend(audit: seq<Audit>, a: Audit)
    ensures Total(audit + [a], Created) == Total(audit, Created) + (if a.action.Created? then 1 else 0)
    ensures Total(audit + [a], Redeemed) + Total(audit + [a], Revoked) + Total(audit + [a], Expired) ==
            Total(audit, Redeemed) + Total(audit, Revoked) + Total(audit, Expired) +
            (if a.action.Created? then 0 else 1)
  {
    TallyAppend(audit, a, 0, Created);
    TallyAppend(audit, a, 0, Redeemed);
    TallyAppend(audit, a, 0, Revoked);
    TallyAppend(audit, a, 0, Expired);
  }

  lemma OpenKeepsConserved(invites: map<InviteId, Invite>, audit: seq<Audit>, id: InviteId, invite: Invite, a: Audit)
    requires Conserved(invites, audit) && id !in invites && Tally(audit, id, Created) == 0
    requires a.invite == id && a.action == Created
    ensures Conserved(invites[id := invite], audit + [a])
  {
    var open, books := invites[id := invite], audit + [a];
    forall x ensures InviteBalanced(open, books, x) {
      assert InviteBalanced(invites, audit, x);
      BalanceAppend(audit, a, x);
    }
    TotalsAppend(audit, a);
  }

  lemma CloseKeepsConserved(invites: map<InviteId, Invite>, audit: seq<Audit>, a: Audit)
    requires Conserved(invites, audit) && a.invite in invites && a.action != Created
    ensures Conserved(invites - {a.invite}, audit + [a])
  {
    var open, books := invites - {a.invite}, audit + [a];
    forall x ensures InviteBalanced(open, books, x) {
      assert InviteBalanced(invites, audit, x);
      BalanceAppend(audit, a, x);
    }
    TotalsAppend(audit, a);
    RemovedSize(invites, a.invite);
  }

  lemma WithinAppend(audit: seq<Audit>, a: Audit, device: DeviceId, lo: Time, hi: Time)
    ensures CreatedWithin(audit + [a], device, lo, hi) == CreatedWithin(audit, device, lo, hi) +
            (if a.action.Created? && a.actor == MemberActor(device) && lo < a.at <= hi then 1 else 0)
  {
    assert (audit + [a])[..|audit + [a]| - 1] == audit;
  }

  /** The rate query counts every creation of the window, whatever order the clock recorded them in. */
  lemma {:induction false} WindowIsCounted(audit: seq<Audit>, device: DeviceId, lo: Time, hi: Time, after: Time)
    requires after <= lo
    ensures CreatedWithin(audit, device, lo, hi) <= CreatedAfter(audit, device, after)
  {
    if audit != [] {
      WindowIsCounted(audit[..|audit| - 1], device, lo, hi, after);
    }
  }

  lemma OtherRecordsKeepRate(audit: seq<Audit>, a: Audit)
    requires RateLimited(audit) && !a.action.Created?
    ensures RateLimited(audit + [a])
  {
    var after := audit + [a];
    forall device, lo ensures WindowOk(after, device, lo) {
      assert WindowOk(audit, device, lo);
      WithinAppend(audit, a, device, lo, lo + 60);
    }
  }

  lemma OpenKeepsRate(audit: seq<Audit>, a: Audit)
    requires RateLimited(audit) && a.action.Created?
    requires a.actor.MemberActor? ==>
               CreatedAfter(audit, a.actor.device, a.at - 60) < MAX_MEMBER_INVITE_CREATES_PER_MINUTE
    ensures RateLimited(audit + [a])
  {
    var after := audit + [a];
    forall device, lo ensures WindowOk(after, device, lo) {
      assert WindowOk(audit, device, lo);
      WithinAppend(audit, a, device, lo, lo + 60);
      if a.actor == MemberActor(device) && lo < a.at <= lo + 60 {
        WindowIsCounted(audit, device, lo, lo + 60, a.at - 60);
      }
    }
  }

  /** Closing a list of invites is closing them one by one. */
  lemma CloseInvitesPeels(t: Tables, ids: seq<InviteId>, at: Time, actor: Actor, action: InviteAction)
    requires ids != []
    ensures var last := ids[|ids| - 1];
            var s := CloseInvites(t, ids[..|ids| - 1], at, actor, action);
            CloseInvites(t, ids, at, actor, action) ==
            s.(invites := s.invites - {last}, audit := s.audit + [Audit(at, actor, action, last)])
  {
    var n := |ids| - 1;
    var s := CloseInvites(t, ids[..n], at, actor, action);
    assert ids == ids[..n] + [ids[n]];
    assert t.invites - (set i | i in ids) == s.invites - {ids[n]};
    assert Records(ids, at, actor, action) == Records(ids[..n], at, actor, action) + [Audit(at, actor, action, ids[n])];
    assert t.audit + Records(ids, at, actor, action) == s.audit + [Audit(at, actor, action, ids[n])];
  }

  lemma CloseOneKeepsBooks(s: Tables, u: Tables, a: Audit)
    requires Conserved(s.invites, s.audit) && RateLimited(s.audit) && a.action != Created && a.invite in s.invites
    requires u.invites == s.invites - {a.invite} && u.audit == s.audit + [a]
    ensures Conserved(u.invites, u.audit) && RateLimited(u.audit)
  {
    CloseKeepsConserved(s.invites, s.audit, a);
    OtherRecordsKeepRate(s.audit, a);
  }

  ghost predicate Chosen(invites: map<InviteId, Invite>, ids: seq<InviteId>) {
    && (forall i :: i in ids ==> i in invites)
    && (forall i, j :: 0 <= i < j < |ids| ==> ids[i] != ids[j])
  }

  lemma ChosenFront(invites: map<InviteId, Invite>, ids: seq<InviteId>)
    requires Chosen(invites, ids) && ids != []
    ensures var front, last := ids[..|ids| - 1], ids[|ids| - 1];
            Chosen(invites, front) && last in invites - (set i | i in front)
  {
  }

  lemma {:induction false} CloseInvitesKeepsBooks(t: Tables, ids: seq<InviteId>, at: Time, actor: Actor,
                                                  action: InviteAction)
    requires Conserved(t.invites, t.audit) && RateLimited(t.audit) && action != Created
    requires Chosen(t.invites, ids)
    ensures var u := CloseInvites(t, ids, at, actor, action);
            Conserved(u.invites, u.audit) && RateLimited(u.audit)
  {
    var u := CloseInvites(t, ids, at, actor, action);
    if ids == [] {
      assert u.invites == t.invites && u.audit == t.audit;
    } else {
      var n := |ids| - 1;
      var s := CloseInvites(t, ids[..n], at, actor, action);
      ChosenFront(t.invites, ids);
      CloseInvitesKeepsBooks(t, ids[..n], at, actor, action);
      CloseInvitesPeels(t, ids, at, actor, action);
      CloseOneKeepsBooks(s, u, Audit(at, actor, action, ids[n]));
    }
  }
}
