/**
 The states a server may start from. The migration that introduces the fact log finds
 members and waiting enrollments in the older tables: it logs one admission for each
 row that waits and none for members, whether active or revoked.
 */
module LedgerStart {
  import opened Basics
  import opened FactLog
  import opened Ledger
  import opened LedgerInvariant
  import C = Commands

  function AdmissionOf(e: EnrollmentId, p: Pending): Entry {
    Entry(PendingAdmitted, e, p.device, p.name, p.createdAt, Some(p.expiresAt), None)
  }

  /** The tables after the migration, with the waiting rows inserted in the given order. */
  function Migrated(order: seq<EnrollmentId>, pending: map<EnrollmentId, Pending>, members: map<DeviceId, Member>,
                    maxPending: nat): Tables
    requires forall i :: 0 <= i < |order| ==> order[i] in pending
  {
    if order == [] then
      Tables(EmptyLog, map[], members, map[], [], C.EmptyRegistry, maxPending, 0)
    else
      var t := Migrated(order[..|order| - 1], pending, members, maxPending);
      var e := order[|order| - 1];
      t.(log := Append(t.log, AdmissionOf(e, pending[e])), pending := t.pending[e := pending[e]])
  }

  /** What the older tables guarantee: their UNIQUE columns and caps, and identities drawn fresh. */
  ghost predicate Migratable(order: seq<EnrollmentId>, pending: map<EnrollmentId, Pending>,
                             members: map<DeviceId, Member>,
                             maxPending: nat) {
    && 1 <= maxPending <= DEFAULT_MAX_PENDING
    && |order| <= DEFAULT_MAX_PENDING
    && |ActiveMembers(members)| <= MAX_MEMBERS
    && (forall i :: 0 <= i < |order| ==> order[i] in pending)
    && (forall i, j :: 0 <= i < j < |order| ==> order[i] != order[j])
    && (forall d, e :: d in members && e in pending ==> members[d].enrollment != e)
  }

  /** What the migration has done when the rows of `order` are in. */
  ghost predicate Logged(t: Tables, order: seq<EnrollmentId>, pending: map<EnrollmentId, Pending>,
                         members: map<DeviceId, Member>, maxPending: nat) {
    && t.members == members && t.maxPending == maxPending
    && t.invites == map[] && t.audit == [] && t.registry == C.EmptyRegistry
    && |t.log.rows| == |order| == |t.pending|
    && (forall e :: e in t.pending <==> e in order)
    && (forall e :: e in t.pending ==> e in pending && t.pending[e] == pending[e])
    && (forall e :: e !in order ==> KindsOf(t.log.history, e) == [])
  }

  lemma NothingLogged(pending: map<EnrollmentId, Pending>, members: map<DeviceId, Member>, maxPending: nat)
    requires Migratable([], pending, members, maxPending)
    ensures var t := Migrated([], pending, members, maxPending);
            LogInv(t) && Logged(t, [], pending, members, maxPending)
  {
    var t := Migrated([], pending, members, maxPending);
    forall e ensures LegalLife(KindsOf(t.log.history, e)) {}
    forall d ensures MemberLives(t.log, t.members, d) {}
    forall e ensures LedgerInvariant.Waits(t.log, t.pending.Keys, e) {}
  }

  lemma OneMoreLogged(t: Tables, front: seq<EnrollmentId>, e: EnrollmentId, pending: map<EnrollmentId, Pending>,
                      members: map<DeviceId, Member>, maxPending: nat)
    requires Logged(t, front, pending, members, maxPending) && e in pending && e !in front
    ensures var u := t.(log := Append(t.log, AdmissionOf(e, pending[e])), pending := t.pending[e := pending[e]]);
            Logged(u, front + [e], pending, members, maxPending)
  {
    var u := t.(log := Append(t.log, AdmissionOf(e, pending[e])), pending := t.pending[e := pending[e]]);
    assert |u.pending| == |t.pending| + 1 by { assert u.pending.Keys == t.pending.Keys + {e}; }
    forall x | x !in front + [e] ensures KindsOf(u.log.history, x) == [] {
      AppendKinds(t.log, AdmissionOf(e, pending[e]), x);
    }
  }

  lemma HasRoom(t: Tables, order: seq<EnrollmentId>, pending: map<EnrollmentId, Pending>,
                members: map<DeviceId, Member>,
                maxPending: nat)
    requires Logged(t, order, pending, members, maxPending) && |order| < DEFAULT_MAX_PENDING
    requires |ActiveMembers(members)| <= MAX_MEMBERS
    ensures Occupancy(t.log.rows, t.pending.Keys, |ActiveMembers(t.members)|) + 3 <= MAX_FACT_ROWS
  {
    assert |t.pending.Keys| == |t.pending|;
  }

  /** The admissions of the migration are admissions like any other. */
  lemma {:induction false} MigratedKeepsLog(order: seq<EnrollmentId>, pending: map<EnrollmentId, Pending>,
                                            members: map<DeviceId, Member>, maxPending: nat)
    requires Migratable(order, pending, members, maxPending)
    ensures var t := Migrated(order, pending, members, maxPending);
            LogInv(t) && Logged(t, order, pending, members, maxPending)
  {
    if order == [] {
      NothingLogged(pending, members, maxPending);
    } else {
      var n := |order| - 1;
      var front, e := order[..n], order[n];
      assert order == front + [e] && e !in front;
      MigratedKeepsLog(front, pending, members, maxPending);
      var t := Migrated(front, pending, members, maxPending);
      HasRoom(t, front, pending, members, maxPending);
      AdmissionKeepsLog(t, e, pending[e]);
      OneMoreLogged(t, front, e, pending, members, maxPending);
    }
  }

  /** The books of a server without invites are in balance. */
  lemma NoInvitesYet(t: Tables)
    requires t.invites == map[] && t.audit == []
    ensures Conserved(t.invites, t.audit) && RateLimited(t.audit)
  {
    forall id ensures InviteBalanced(t.invites, t.audit, id) {}
    forall device, lo ensures WindowOk(t.audit, device, lo) {}
  }

  /**
   A migrated server starts sound, in whatever order its waiting rows are logged and for
   every configured limit: with members that are active or already revoked, and none of
   them in the log.
   */
  lemma MigratedStoreIsSound(order: seq<EnrollmentId>, pending: map<EnrollmentId, Pending>,
                             members: map<DeviceId, Member>,
                             maxPending: nat)
    requires Migratable(order, pending, members, maxPending) && (forall e :: e in pending ==> e in order)
    requires Identities(pending, members, map[])
    ensures var t := Migrated(order, pending, members, maxPending);
            Inv(t) && t.pending == pending && t.members == members
  {
    hide Wellformed, Fold, Lives, ApprovalsLogged, Identities, Conserved, RateLimited;
    var t := Migrated(order, pending, members, maxPending);
    MigratedKeepsLog(order, pending, members, maxPending);
    assert t.pending == pending;
    NoInvitesYet(t);
    assert C.Valid(C.EmptyRegistry);
  }

  /** A fresh server is a migrated one with empty tables. */
  lemma FreshStoreIsSound(maxPending: nat)
    requires 1 <= maxPending <= DEFAULT_MAX_PENDING
    ensures Inv(Migrated([], map[], map[], maxPending))
  {
    assert ActiveMembers(map[]) == {};
    MigratedStoreIsSound([], map[], map[], maxPending);
  }
}
