/** Every operation of the membership store keeps the ledger invariant. */
module LedgerOperations {
  import opened Basics
  import opened Outcomes
  import opened FactLog
  import opened Ledger
  import opened LedgerInvariant

  /** Within one transaction: records only grow, and the doorbell has not rung yet. */
  ghost predicate Extends(t: Tables, u: Tables) {
    && t.log.history <= u.log.history
    && t.log.floor <= u.log.floor
    && t.audit <= u.audit
    && Commands.Later(t.registry, u.registry)
    && t.maxPending == u.maxPending
    && t.bells == u.bells
  }

  lemma ExtendsIsTransitive(t: Tables, u: Tables, v: Tables)
    requires Extends(t, u) && Extends(u, v)
    ensures Extends(t, v)
  {
    Commands.LaterIsTransitive(t.registry, u.registry, v.registry);
  }

  lemma ExtendsItself(t: Tables)
    requires Inv(t)
    ensures Extends(t, t) && Follows(t, t)
  {
    Commands.NoChange(t.registry);
  }

  lemma Ring(t: Tables, u: Tables)
    requires Inv(u) && Extends(t, u)
    ensures Inv(Notify(u)) && Follows(t, Notify(u))
  {
    assert LogInv(Notify(u));
  }

  lemma Silent(t: Tables, u: Tables)
    requires Extends(t, u) && |u.log.history| == |t.log.history|
    ensures Follows(t, u)
  {
  }

  // ---- expiry --------------------------------------------------------------

  function Without(pending: map<EnrollmentId, Pending>, rows: seq<EnrollmentId>): map<EnrollmentId, Pending> {
    pending - (set e | e in rows)
  }

  /** An expiry removes the given rows, logs one fact each, and leaves the rest alone. */
  ghost predicate OnlyExpires(t: Tables, u: Tables, rows: seq<EnrollmentId>) {
    && u.pending == Without(t.pending, rows)
    && u.members == t.members && u.invites == t.invites && u.audit == t.audit
    && u.registry.adapters == t.registry.adapters && u.registry.admissions == t.registry.admissions
    && |u.log.history| == |t.log.history| + |rows|
  }

  lemma ExpireOneSettles(t: Tables, e: EnrollmentId, now: Time)
    requires LogInv(t) && Commands.Valid(t.registry) && e in t.pending
    ensures var u := ExpireOne(t, e, now);
            && u.Some? && LogInv(u.value) && Commands.Valid(u.value.registry)
            && Extends(t, u.value) && OnlyExpires(t, u.value, [e])
  {
    hide LogInv, OrderOk, Commands.Valid, Commands.Later, Commands.KeepsAdmitted;
    ExpireOneKeepsLog(t, e, now);
    Commands.RejectForKeeps(t.registry, e, Commands.EnrollmentExpired, now, None);
    assert (set x | x in [e]) == {e};
  }

  lemma ExpireOneKeeps(t: Tables, e: EnrollmentId, now: Time)
    requires Inv(t) && e in t.pending
    ensures var u := ExpireOne(t, e, now);
            u.Some? && Inv(u.value) && Extends(t, u.value) && OnlyExpires(t, u.value, [e])
  {
    hide LogInv, Extends, Conserved, RateLimited, Commands.Valid, ExpireOne;
    ExpireOneSettles(t, e, now);
    var u := ExpireOne(t, e, now).value;
    assert Identities(u.pending, u.members, u.invites) by { IdentitiesShrink(t, u.pending, t.invites); }
  }

  lemma WithoutSteps(pending: map<EnrollmentId, Pending>, rows: seq<EnrollmentId>)
    requires rows != []
    ensures Without(Without(pending, [rows[0]]), rows[1..]) == Without(pending, rows)
  {
    assert rows == [rows[0]] + rows[1..];
  }

  lemma RowsStep(t: Tables, rows: seq<EnrollmentId>, u: Tables)
    requires rows != [] && Rows(t, rows) && u.pending == Without(t.pending, [rows[0]])
    ensures Rows(u, rows[1..])
  {
  }

  ghost predicate Settles(t: Tables, u: Option<Tables>, rows: seq<EnrollmentId>) {
    u.Some? && Inv(u.value) && Extends(t, u.value) && OnlyExpires(t, u.value, rows)
  }

  lemma SettlesNothing(t: Tables)
    requires Inv(t)
    ensures Settles(t, Some(t), [])
  {
    ExtendsItself(t);
    assert Without(t.pending, []) == t.pending;
  }

  lemma SettlesBoth(t: Tables, mid: Tables, u: Tables, rows: seq<EnrollmentId>)
    requires rows != [] && Extends(t, mid) && OnlyExpires(t, mid, [rows[0]]) && Extends(mid, u) &&
             OnlyExpires(mid, u, rows[1..])
    ensures Extends(t, u) && OnlyExpires(t, u, rows)
  {
    hide Commands.Later;
    ExtendsIsTransitive(t, mid, u);
    WithoutSteps(t.pending, rows);
  }

  lemma {:induction false} ExpireAllKeeps(t: Tables, rows: seq<EnrollmentId>, now: Time)
    requires Inv(t) && Rows(t, rows)
    ensures Settles(t, ExpireAll(t, rows, now), rows)
    decreases |rows|
  {
    hide Inv, Extends, ExpireOne;
    if rows == [] {
      SettlesNothing(t);
    } else {
      var mid := ExpireOne(t, rows[0], now);
      assert Settles(t, mid, [rows[0]]) by { ExpireOneKeeps(t, rows[0], now); }
      assert Rows(mid.value, rows[1..]) by { RowsStep(t, rows, mid.value); }
      ExpireAllKeeps(mid.value, rows[1..], now);
      SettlesBoth(t, mid.value, ExpireAll(mid.value, rows[1..], now).value, rows);
    }
  }

  /** Settling expired enrollments always succeeds: pruning never blocked it. */
  lemma SettlePendingKeeps(t: Tables, now: Time)
    requires Inv(t)
    ensures var u := SettlePending(t, now);
            u.Some? && Inv(u.value) && Extends(t, u.value) && OnlyExpires(t, u.value, DuePending(t, now))
  {
    hide Inv, Extends, OnlyExpires, ExpireAll;
    ExpireAllKeeps(t, DuePending(t, now), now);
  }

  lemma WhatIsLeftIsCurrent(t: Tables, now: Time, u: Tables)
    requires u.pending == Without(t.pending, DuePending(t, now))
    ensures forall e :: e in u.pending ==> u.pending[e].expiresAt > now
  {
  }

  lemma CloseInvitesKeeps(t: Tables, ids: seq<InviteId>, at: Time, actor: Actor, action: InviteAction)
    requires Inv(t) && action != Created && Chosen(t.invites, ids)
    ensures var u := CloseInvites(t, ids, at, actor, action); Inv(u) && Extends(t, u)
  {
    hide Wellformed, Fold, Lives, Budget, ApprovalsLogged, Identities, Commands.Valid, Commands.KeepsAdmitted;
    var u := CloseInvites(t, ids, at, actor, action);
    assert Conserved(u.invites, u.audit) && RateLimited(u.audit) by {
      CloseInvitesKeepsBooks(t, ids, at, actor, action);
    }
    assert Identities(u.pending, u.members, u.invites) by { IdentitiesShrink(t, t.pending, u.invites); }
    assert LogInv(u);
    Commands.NoChange(t.registry);
  }

  lemma ExpireInvitesKeeps(t: Tables, now: Time)
    requires Inv(t)
    ensures var u := ExpireInvites(t, now); Inv(u) && Extends(t, u)
  {
    CloseInvitesKeeps(t, DueInvites(t, now), now, System, Expired);
  }

  lemma SettleExpiredKeeps(t: Tables, now: Time)
    requires Inv(t)
    ensures var u := SettleExpired(t, now);
            && u.Some? && Inv(u.value) && Follows(t, u.value)
            && u.value.members == t.members
            && u.value.pending == Without(t.pending, DuePending(t, now))
  {
    hide Inv, Extends, Follows, SettlePending;
    var s := SettlePending(t, now);
    assert s.Some? && Inv(s.value) && Extends(t, s.value) && OnlyExpires(t, s.value, DuePending(t, now)) by {
      SettlePendingKeeps(t, now);
    }
    var v := ExpireInvites(s.value, now);
    assert Inv(v) && Extends(s.value, v) by { ExpireInvitesKeeps(s.value, now); }
    assert Extends(t, v) by { ExtendsIsTransitive(t, s.value, v); }
    var u := if DuePending(t, now) == [] then v else Notify(v);
    assert Inv(u) && Follows(t, u) by {
      if DuePending(t, now) == [] { Silent(t, v); } else { Ring(t, v); }
    }
    assert SettleExpired(t, now) == Some(u);
  }

  // ---- enrollment ----------------------------------------------------------

  /** An identity drawn at random collides with nothing the ledger has ever held. */
  ghost predicate Unseen(t: Tables, e: EnrollmentId) {
    KindsOf(t.log.history, e) == [] && e !in t.pending && !EnrollmentIsMember(t, e)
  }

  lemma ExpireOneHistory(t: Tables, d: EnrollmentId, now: Time, e: EnrollmentId)
    requires Inv(t) && d in t.pending && e != d
    ensures var mid := ExpireOne(t, d, now);
            mid.Some? && Inv(mid.value) && mid.value.pending == Without(t.pending, [d]) &&
            KindsOf(mid.value.log.history, e) == KindsOf(t.log.history, e)
  {
    hide Inv;
    ExpireOneKeeps(t, d, now);
    AppendKinds(t.log, Entry(PendingExpired, d, t.pending[d].device, t.pending[d].name, now, None, None), e);
  }

  lemma {:induction false} ExpireAllHistory(t: Tables, rows: seq<EnrollmentId>, now: Time, e: EnrollmentId)
    requires Inv(t) && Rows(t, rows) && e !in rows
    ensures ExpireAll(t, rows, now).Some?
    ensures KindsOf(ExpireAll(t, rows, now).value.log.history, e) == KindsOf(t.log.history, e)
    decreases |rows|
  {
    hide Inv, ExpireOne;
    if rows != [] {
      var mid := ExpireOne(t, rows[0], now);
      assert mid.Some? && Inv(mid.value) && mid.value.pending == Without(t.pending, [rows[0]]) &&
             KindsOf(mid.value.log.history, e) == KindsOf(t.log.history, e) by { ExpireOneHistory(t, rows[0], now, e); }
      assert Rows(mid.value, rows[1..]) by { RowsStep(t, rows, mid.value); }
      ExpireAllHistory(mid.value, rows[1..], now, e);
    }
  }

  lemma UnseenStays(t: Tables, now: Time, e: EnrollmentId)
    requires Inv(t) && Unseen(t, e)
    ensures SettleExpired(t, now).Some? && Unseen(SettleExpired(t, now).value, e)
  {
    hide Inv, ExpireAll;
    var r := SettleExpired(t, now);
    var due := DuePending(t, now);
    assert r.Some? && r.value.members == t.members && r.value.pending == Without(t.pending, due) by {
      SettleExpiredKeeps(t, now);
    }
    assert KindsOf(r.value.log.history, e) == KindsOf(t.log.history, e) by {
      ExpireAllHistory(t, due, now, e);
    }
  }

  /** The columns an admission must find free. */
  ghost predicate Admissible(t: Tables, e: EnrollmentId, p: Pending) {
    && Unseen(t, e) && p.device !in t.members && |t.pending| < t.maxPending
    && !NameOfMember(t, KeyOf(p.name)) && !NameOfInvite(t, KeyOf(p.name))
  }

  /** Admission either keeps the invariant or fails, and it fails only for room or for a taken column. */
  lemma AdmitKeeps(t: Tables, e: EnrollmentId, p: Pending)
    requires Inv(t) && Admissible(t, e, p)
    ensures var r := Admit(t, e, p);
            && (r.Ok? ==> Inv(r.value) && Extends(t, r.value))
            && (r.Err? ==> r.error == FactCapacity || r.error == ConstraintViolation)
  {
    hide Wellformed, Fold, Lives, ApprovalsLogged, Identities, Conserved, RateLimited, Commands.Valid,
         Commands.Later, Commands.KeepsAdmitted;
    var active := |ActiveMembers(t.members)|;
    if CanReserve(t.log, t.pending.Keys, active, 3) &&
       !CodeIsPending(t, p.code) && !DeviceIsPending(t, p.device) && !NameOfPending(t, KeyOf(p.name))
    {
      var s := t.(log := Reserved(t.log, t.pending.Keys, active, 3));
      var entry := Entry(PendingAdmitted, e, p.device, p.name, p.createdAt, Some(p.expiresAt), None);
      var u := s.(log := Append(s.log, entry), pending := s.pending[e := p]);
      assert LogInv(s) && s.log.history == t.log.history && s.log.floor >= t.log.floor &&
             Occupancy(s.log.rows, s.pending.Keys, active) + 3 <= MAX_FACT_ROWS by { ReservedKeepsLog(t, 3); }
      assert OrderOk(s.log.rows, PendingAdmitted, e) && LogInv(u) by { AdmissionKeepsLog(s, e, p); }
      assert Identities(u.pending, u.members, u.invites) by { IdentitiesAdmit(t, e, p); }
      assert Inv(u) && Extends(t, u) by { Commands.NoChange(t.registry); }
      assert Admit(t, e, p) == Ok(u);
    }
  }

  lemma RequestKeeps(t: Tables, device: DeviceId, name: string, code: nat, newId: EnrollmentId, now: Time)
    requires Inv(t) && Unseen(t, newId)
    ensures var (u, r) := Request(t, device, name, code, newId, now);
            && Inv(u) && Follows(t, u)
            && r != Err(FactOrderViolation)
            && (r == Err(ConstraintViolation) ==> CodeIsPending(t, code))
  {
    hide Inv, Extends, Follows, Reserved, Insert;
    var (u, r) := Request(t, device, name, code, newId, now);
    assert Follows(t, t) by { ExtendsItself(t); }
    var p := Pending(code, device, name, now, now + PENDING_LIFETIME, true);
    if KnownDevice(t, device, name).None? && !DeviceIsPending(t, device) && !NameOfPending(t, KeyOf(name)) &&
       !NameOfInvite(t, KeyOf(name)) && |t.pending| < t.maxPending
    {
      AdmitKeeps(t, newId, p);
      var a := Admit(t, newId, p);
      if a.Ok? {
        assert Inv(Notify(a.value)) && Follows(t, Notify(a.value)) by { Ring(t, a.value); }
      }
    }
  }

  lemma RequestEnrollmentKeeps(t: Tables, device: DeviceId, name: string, code: nat, newId: EnrollmentId, now: Time)
    requires Inv(t) && Unseen(t, newId)
    ensures var (u, r) := RequestEnrollment(t, device, name, code, newId, now);
            && Inv(u) && Follows(t, u)
            && r != Err(FactOrderViolation)
  {
    hide Inv, Follows, Unseen, Request, SettleExpired;
    if !Text.ValidLabel(name) {
      assert Follows(t, t) by { ExtendsItself(t); }
    } else {
      assert SettleExpired(t, now).Some? && Unseen(SettleExpired(t, now).value, newId) by {
        UnseenStays(t, now, newId);
      }
      var s := SettleExpired(t, now).value;
      assert Inv(s) && Follows(t, s) by { SettleExpiredKeeps(t, now); }
      var (u, r) := Request(s, device, name, code, newId, now);
      assert Inv(u) && Follows(s, u) && r != Err(FactOrderViolation) by {
        RequestKeeps(s, device, name, code, newId, now);
      }
      assert Follows(t, u) by { FollowsIsTransitive(t, s, u); }
      assert RequestEnrollment(t, device, name, code, newId, now) == (u, r);
    }
  }

  // ---- approval ------------------------------------------------------------

  /** In every reachable state the approval of a waiting enrollment goes through. */
  lemma EnrollKeeps(t: Tables, e: EnrollmentId, now: Time)
    requires Inv(t) && e in t.pending && |ActiveMembers(t.members)| < MAX_MEMBERS
    ensures var r := Enroll(t, e, now);
            && r.Ok? && Inv(r.value) && Extends(t, r.value)
            && r.value.registry == t.registry
            && r.value.pending == t.pending - {e}
            && Approved(r.value.log.history, e)
  {
    hide Wellformed, Fold, Lives, Budget, ApprovalsLogged, Conserved, RateLimited, PendingDistinct,
         MembersDistinct, InvitesDistinct, MembersVersusPending, InvitesVersusPending, InvitesVersusMembers,
         IssuersActive, Commands.Valid, Commands.Later, Commands.KeepsAdmitted;
    assert t.pending[e].device !in t.members && !NameOfMember(t, KeyOf(t.pending[e].name)) &&
           !EnrollmentIsMember(t, e) by {
      EnrollMeetsNoConflict(t, e);
    }
    EnrollKeepsLog(t, e, now);
    var r := Enroll(t, e, now);
    var p := t.pending[e];
    assert Identities(r.value.pending, r.value.members, r.value.invites) by { IdentitiesEnroll(t, e, now); }
    AppendKinds(t.log, Entry(MemberApproved, e, p.device, p.name, now, None, Some(1)), e);
    Commands.NoChange(t.registry);
  }

  lemma RejectKeeps(t: Tables, e: EnrollmentId, code: Commands.Rejection, now: Time, except: Option<Commands.Key>)
    requires Inv(t)
    ensures var u := t.(registry := Commands.RejectFor(t.registry, e, code, now, except)); Inv(u) && Extends(t, u)
  {
    hide Wellformed, Fold, Lives, Budget, ApprovalsLogged, Identities, Conserved, RateLimited,
         Commands.Valid, Commands.Later, Commands.KeepsAdmitted;
    var u := t.(registry := Commands.RejectFor(t.registry, e, code, now, except));
    assert Commands.Transition(t.registry, u.registry) by { Commands.RejectForKeeps(t.registry, e, code, now, except); }
    assert LogInv(u);
  }

  /** An approval that settles one waiting enrollment, and the commands it leaves behind. */
  lemma ApproveOneKeeps(t: Tables, e: EnrollmentId, now: Time)
    requires Inv(t) && e in t.pending && |ActiveMembers(t.members)| < MAX_MEMBERS
    ensures var a := Enroll(t, e, now);
            && a.Ok?
            && var g := Commands.RejectFor(a.value.registry, e, Commands.SettledElsewhere, now, None);
               var v := a.value.(registry := g);
               Inv(Notify(v)) && Follows(t, Notify(v))
  {
    hide Inv, Extends, Follows, Enroll;
    assert Enroll(t, e, now).Ok? && Inv(Enroll(t, e, now).value) && Extends(t, Enroll(t, e, now).value) by {
      EnrollKeeps(t, e, now);
    }
    var a := Enroll(t, e, now).value;
    var v := a.(registry := Commands.RejectFor(a.registry, e, Commands.SettledElsewhere, now, None));
    assert Inv(v) && Extends(a, v) by { RejectKeeps(a, e, Commands.SettledElsewhere, now, None); }
    assert Extends(t, v) by { ExtendsIsTransitive(t, a, v); }
    Ring(t, v);
  }

  lemma ApproveWaitingKeeps(t: Tables, e: EnrollmentId, now: Time)
    requires Inv(t) && e in t.pending
    ensures var (u, r) := ApproveWaiting(t, e, now);
            && Inv(u) && Follows(t, u)
            && r != Err(FactOrderViolation) && r != Err(ConstraintViolation)
  {
    hide Inv, Follows, Enroll;
    assert Follows(t, t) by { ExtendsItself(t); }
    if |ActiveMembers(t.members)| < MAX_MEMBERS && t.pending[e].keyOk {
      ApproveOneKeeps(t, e, now);
    }
  }

  lemma ApproveSettledKeeps(t: Tables, code: nat, actor: Actor, now: Time)
    requires Inv(t)
    ensures var (u, r) := ApproveSettled(t, code, actor, now);
            && Inv(u) && Follows(t, u)
            && r != Err(FactOrderViolation) && r != Err(ConstraintViolation)
  {
    hide Inv, Follows, ApproveWaiting;
    assert Follows(t, t) by { ExtendsItself(t); }
    forall e | e in t.pending
      ensures var (u, r) := ApproveWaiting(t, e, now);
              && Inv(u) && Follows(t, u)
              && r != Err(FactOrderViolation) && r != Err(ConstraintViolation)
    {
      ApproveWaitingKeeps(t, e, now);
    }
  }

  lemma ApproveKeeps(t: Tables, code: nat, actor: Actor, now: Time)
    requires Inv(t)
    ensures var (u, r) := Approve(t, code, actor, now);
            && Inv(u) && Follows(t, u)
            && r != Err(FactOrderViolation) && r != Err(ConstraintViolation)
  {
    hide Inv, Follows, ApproveSettled;
    SettleExpiredKeeps(t, now);
    var s := SettleExpired(t, now).value;
    ApproveSettledKeeps(s, code, actor, now);
    FollowsIsTransitive(t, s, ApproveSettled(s, code, actor, now).0);
  }

  /** A command is rejected alone, and the rest of the store stays. */
  lemma RefuseKeeps(t: Tables, r: Commands.Receipt, code: Commands.Rejection, now: Time)
    requires Inv(t)
    ensures var u := t.(registry := Commands.RejectOne(t.registry, r.key, code, now)); Inv(u) && Follows(t, u)
  {
    hide Wellformed, Fold, Lives, Budget, ApprovalsLogged, Identities, Conserved, RateLimited, Commands.Valid,
         Commands.Later, Commands.KeepsAdmitted;
    var u := t.(registry := Commands.RejectOne(t.registry, r.key, code, now));
    assert Commands.Transition(t.registry, u.registry) by { Commands.RejectOneKeeps(t.registry, r.key, code, now); }
    assert LogInv(u);
  }

  /** Executing an admitted command settles it, and never fails on the tables. */
  lemma ExecuteKeeps(t: Tables, r: Commands.Receipt, now: Time)
    requires Inv(t) && r in t.registry.receipts && r.state.Admitted?
    ensures var u := Execute(t, r, now); u.Ok? && Inv(u.value) && Follows(t, u.value)
  {
    hide Wellformed, Fold, Lives, Budget, ApprovalsLogged, Identities, Conserved, RateLimited,
         Commands.Valid, Commands.Later, Commands.KeepsAdmitted, Extends;
    var e := r.enrollment;
    if e !in t.pending {
      var code := MissingPendingRejection(t.log.rows, e);
      RejectKeeps(t, e, code, now, None);
      Silent(t, t.(registry := Commands.RejectFor(t.registry, e, code, now, None)));
    } else if |ActiveMembers(t.members)| >= MAX_MEMBERS {
      RefuseKeeps(t, r, Commands.MemberCapacity, now);
    } else if !t.pending[e].keyOk {
      RefuseKeeps(t, r, Commands.InvalidEnrollmentKey, now);
    } else {
      ExecuteApproves(t, r, now);
    }
  }

  lemma ExecuteApproves(t: Tables, r: Commands.Receipt, now: Time)
    requires Inv(t) && r in t.registry.receipts && r.state.Admitted?
    requires r.enrollment in t.pending && |ActiveMembers(t.members)| < MAX_MEMBERS && t.pending[r.enrollment].keyOk
    ensures var u := Execute(t, r, now);
            && u.Ok? && Inv(u.value) && Follows(t, u.value)
            && Approved(u.value.log.history, r.enrollment) && r.enrollment !in u.value.pending
            && Commands.Commit(r.key, r.enrollment) in u.value.registry.commits
  {
    hide Wellformed, Fold, Lives, Budget, Identities, Conserved, RateLimited, Commands.Valid, Commands.Later,
         Commands.KeepsAdmitted, Enroll;
    var e := r.enrollment;
    var p := t.pending[e];
    var enrolled := Enroll(t, e, now);
    assert enrolled.Ok? && Inv(enrolled.value) && Extends(t, enrolled.value) &&
           enrolled.value.registry == t.registry && enrolled.value.pending == t.pending - {e} &&
           Approved(enrolled.value.log.history, e) by { EnrollKeeps(t, e, now); }
    var a := enrolled.value;
    var v := a.(registry := Commands.CommitFor(a.registry, e, r.key, p.device, p.name, now));
    assert Commands.Transition(a.registry, v.registry) by {
      Commands.CommitForKeeps(a.registry, r, p.device, p.name, now);
    }
    assert ApprovalsLogged(v.log.history, v.registry.commits) by { CommitKeepsLog(t, a, Commands.Commit(r.key, e)); }
    assert Inv(v) && Extends(a, v);
    assert Extends(t, v) by { ExtendsIsTransitive(t, a, v); }
    assert Inv(Notify(v)) && Follows(t, Notify(v)) by { Ring(t, v); }
    assert Execute(t, r, now) == Ok(Notify(v));
  }

  lemma ApproveAdapterSettledKeeps(t: Tables, adapter: string, command: string, now: Time)
    requires Inv(t)
    ensures var (u, r) := ApproveAdapterSettled(t, adapter, command, now);
            && Inv(u) && Follows(t, u)
            && r != Err(FactOrderViolation) && r != Err(ConstraintViolation)
  {
    hide Inv, Follows, Execute;
    assert Follows(t, t) by { ExtendsItself(t); }
    var found := Commands.Lookup(t.registry.receipts, Commands.Key(adapter, command));
    if found.Some? && found.value.state.Admitted? {
      ExecuteKeeps(t, found.value, now);
    }
  }

  lemma ApproveAdapterCommandKeeps(t: Tables, adapter: string, command: string, now: Time)
    requires Inv(t)
    ensures var (u, r) := ApproveAdapterCommand(t, adapter, command, now);
            && Inv(u) && Follows(t, u)
            && r != Err(FactOrderViolation) && r != Err(ConstraintViolation)
  {
    hide Inv, Follows, ApproveAdapterSettled, SettleExpired;
    if !Commands.ValidAdapterId(adapter) || !Commands.CommandId.Canonical(command) {
      ExtendsItself(t);
    } else {
      var s := SettleExpired(t, now);
      assert s.Some? && Inv(s.value) && Follows(t, s.value) by { SettleExpiredKeeps(t, now); }
      var done := ApproveAdapterSettled(s.value, adapter, command, now);
      assert Inv(done.0) && Follows(s.value, done.0) && done.1 != Err(FactOrderViolation) &&
             done.1 != Err(ConstraintViolation) by {
        ApproveAdapterSettledKeeps(s.value, adapter, command, now);
      }
      assert Follows(t, done.0) by { FollowsIsTransitive(t, s.value, done.0); }
      assert ApproveAdapterCommand(t, adapter, command, now) == done;
    }
  }

  // ---- revocation and invites ----------------------------------------------

  /** What a revocation writes, before it closes the member's invites. */
  function Expelled(t: Tables, d: DeviceId, now: Time): Tables
    requires d in t.members
  {
    var m := t.members[d];
    t.(log := Append(t.log, Entry(MemberRevoked, m.enrollment, d, m.name, now, None, Some(m.revision + 1))),
       members := t.members[d := m.(revision := m.revision + 1, revokedAt := Some(now))])
  }

  lemma ExpelledKeeps(t: Tables, d: DeviceId, now: Time)
    requires Inv(t) && d in t.members && Active(t.members[d])
    ensures LogInv(Expelled(t, d, now)) && Extends(t, Expelled(t, d, now))
  {
    hide LogInv, Conserved, RateLimited, Commands.Valid, Commands.KeepsAdmitted;
    var m := t.members[d];
    var after := m.(revision := m.revision + 1, revokedAt := Some(now));
    var entry := Entry(MemberRevoked, m.enrollment, d, m.name, now, None, Some(m.revision + 1));
    var u := Expelled(t, d, now);
    assert LogInv(u) by { RevocationKeepsLog(t, u, entry, d, after); }
    Commands.NoChange(t.registry);
  }

  lemma ExpelledClosed(t: Tables, d: DeviceId, u: Tables, v: Tables, actor: Actor, now: Time)
    requires Inv(t) && d in t.members && u == Expelled(t, d, now) && LogInv(u)
    requires v == CloseInvites(u, IssuedBy(u, d), now, actor, Revoked)
    ensures Inv(v)
  {
    assert Conserved(v.invites, v.audit) && RateLimited(v.audit) by {
      CloseInvitesKeepsBooks(u, IssuedBy(u, d), now, actor, Revoked);
    }
    assert Identities(v.pending, v.members, v.invites) by { IdentitiesExpel(t, d, u.members[d], v.invites); }
    assert LogInv(v);
  }

  /** In every reachable state the order check lets an active member be revoked. */
  lemma ExpelKeeps(t: Tables, d: DeviceId, actor: Actor, now: Time)
    requires Inv(t) && d in t.members && Active(t.members[d])
    ensures var r := Expel(t, d, actor, now);
            && (r.Ok? ==> Inv(r.value) && Extends(t, r.value))
            && (r.Err? <==> IssuedBy(t, d) != [] && !MayRevokeInvites(actor))
            && (r.Err? ==> r.error == ConstraintViolation)
  {
    hide Wellformed, Fold, Lives, Budget, ApprovalsLogged, Identities, Conserved, RateLimited,
         Commands.Valid, Commands.Later;
    assert OrderOk(t.log.rows, MemberRevoked, t.members[d].enrollment) by {
      ActiveCanBeRevoked(t.log, t.pending.Keys, t.members, d);
    }
    var u := Expelled(t, d, now);
    var ids := IssuedBy(u, d);
    assert ids == IssuedBy(t, d);
    var v := CloseInvites(u, ids, now, actor, Revoked);
    assert LogInv(u) && Extends(t, u) by { ExpelledKeeps(t, d, now); }
    assert Inv(v) by { ExpelledClosed(t, d, u, v, actor, now); }
    assert Extends(t, v);
    assert Expel(t, d, actor, now) == if ids != [] && !MayRevokeInvites(actor) then Err(ConstraintViolation) else Ok(v);
  }

  lemma RevokeSettled(t: Tables, s: Tables, device: DeviceId, actor: Actor, now: Time)
    requires Inv(s) && Extends(t, s) && device in s.members && Active(s.members[device])
    ensures var r := Expel(s, device, actor, now);
            && (r.Ok? ==> Inv(Notify(r.value)) && Follows(t, Notify(r.value)))
            && (r.Err? ==> r.error == ConstraintViolation)
            && (r.Err? <==> IssuedBy(s, device) != [] && !MayRevokeInvites(actor))
  {
    hide Inv, Extends, Follows, Expel;
    var r := Expel(s, device, actor, now);
    assert (r.Ok? ==> Inv(r.value) && Extends(s, r.value)) && (r.Err? ==> r.error == ConstraintViolation) &&
           (r.Err? <==> IssuedBy(s, device) != [] && !MayRevokeInvites(actor)) by {
      ExpelKeeps(s, device, actor, now);
    }
    if r.Ok? {
      assert Extends(t, r.value) by { ExtendsIsTransitive(t, s, r.value); }
      assert Inv(Notify(r.value)) && Follows(t, Notify(r.value)) by { Ring(t, r.value); }
    }
  }

  /** A revocation that passes every check. */
  predicate Revocable(s: Tables, device: DeviceId, expectedRevision: int) {
    device in s.members && Active(s.members[device]) && s.members[device].revision == expectedRevision
  }

  lemma RevokeKeeps(t: Tables, device: DeviceId, expectedRevision: int, actor: Actor, now: Time)
    requires Inv(t)
    ensures var (u, r) := Revoke(t, device, expectedRevision, actor, now);
            && Inv(u) && Follows(t, u)
            && r != Err(FactOrderViolation)
  {
    hide Inv, Follows, Extends, Insert, IssuedBy;
    assert Follows(t, t) by { ExtendsItself(t); }
    var s := ExpireInvites(t, now);
    if !actor.AdapterActor? && !actor.System? && expectedRevision > 0 && Revocable(s, device, expectedRevision) {
      var r := Expel(s, device, actor, now);
      assert (r.Ok? ==> Inv(Notify(r.value)) && Follows(t, Notify(r.value))) &&
             (r.Err? ==> r.error == ConstraintViolation) by {
        ExpireInvitesKeeps(t, now);
        RevokeSettled(t, s, device, actor, now);
      }
      assert Revoke(t, device, expectedRevision, actor, now) ==
             if r.Err? then (t, Err(r.error)) else (Notify(r.value), Ok(r.value.members[device]));
    }
  }

  lemma WhenExpelFails(s: Tables, d: DeviceId, actor: Actor, now: Time)
    requires d in s.members && OrderOk(s.log.rows, MemberRevoked, s.members[d].enrollment)
    ensures var r := Expel(s, d, actor, now);
            && (r.Err? ==> r.error == ConstraintViolation)
            && (r.Err? <==> IssuedBy(s, d) != [] && !MayRevokeInvites(actor))
  {
    assert IssuedBy(Expelled(s, d, now), d) == IssuedBy(s, d);
  }

  /** A schema trigger aborts a revocation exactly for a device actor and a member with open invites. */
  lemma WhenRevokeAborts(t: Tables, device: DeviceId, expectedRevision: int, actor: Actor, now: Time)
    requires Wellformed(t.log) && Lives(t.log, t.pending.Keys, t.members)
    ensures var s := ExpireInvites(t, now);
            Revoke(t, device, expectedRevision, actor, now).1 == Err(ConstraintViolation) <==>
              && actor.DeviceActor? && expectedRevision > 0
              && Revocable(s, device, expectedRevision) && IssuedBy(s, device) != []
  {
    var s := ExpireInvites(t, now);
    if Revocable(s, device, expectedRevision) {
      assert OrderOk(s.log.rows, MemberRevoked, s.members[device].enrollment) by {
        ActiveCanBeRevoked(t.log, t.pending.Keys, t.members, device);
      }
      WhenExpelFails(s, device, actor, now);
    }
  }

  lemma NeverOpened(t: Tables, id: InviteId)
    requires Conserved(t.invites, t.audit) && Tally(t.audit, id, Created) == 0
    ensures id !in t.invites
  {
    assert InviteBalanced(t.invites, t.audit, id);
  }

  lemma OpenInviteKeeps(t: Tables, id: InviteId, invite: Invite, now: Time)
    requires Inv(t) && ValidInviteActor(invite.issuer) && Tally(t.audit, id, Created) == 0
    ensures var r := OpenInvite(t, id, invite, now);
            (r.Ok? ==> Inv(r.value) && Extends(t, r.value)) && r != Err(ConstraintViolation)
  {
    hide Wellformed, Fold, Lives, Budget, ApprovalsLogged, Identities, Conserved, RateLimited, Commands.Valid,
         Commands.Later, Commands.KeepsAdmitted;
    assert id !in t.invites by { NeverOpened(t, id); }
    var r := OpenInvite(t, id, invite, now);
    if r.Ok? {
      var u := r.value;
      var a := Audit(now, invite.issuer, Created, id);
      assert Conserved(u.invites, u.audit) by { OpenKeepsConserved(t.invites, t.audit, id, invite, a); }
      assert RateLimited(u.audit) by { OpenKeepsRate(t.audit, a); }
      assert Identities(u.pending, u.members, u.invites) by { IdentitiesOpen(t, id, invite); }
      assert LogInv(u);
      Commands.NoChange(t.registry);
    }
  }

  lemma CreatedStays(t: Tables, now: Time, id: InviteId)
    requires Inv(t)
    ensures Tally(ExpireInvites(t, now).audit, id, Created) == Tally(t.audit, id, Created)
  {
    RecordsCreateNothing(t.audit, DueInvites(t, now), now, System, Expired, id);
  }

  lemma {:induction false} RecordsCreateNothing(audit: seq<Audit>, ids: seq<InviteId>, at: Time, actor: Actor,
                                                action: InviteAction, id: InviteId)
    requires action != Created
    ensures Tally(audit + Records(ids, at, actor, action), id, Created) == Tally(audit, id, Created)
  {
    if ids == [] {
      assert audit + Records(ids, at, actor, action) == audit;
    } else {
      var n := |ids| - 1;
      var a := Audit(at, actor, action, ids[n]);
      assert audit + Records(ids, at, actor, action) == audit + Records(ids[..n], at, actor, action) + [a];
      TallyAppend(audit + Records(ids[..n], at, actor, action), a, id, Created);
      RecordsCreateNothing(audit, ids[..n], at, actor, action, id);
    }
  }

  lemma OpenedKeeps(t: Tables, newId: InviteId, invite: Invite, now: Time)
    requires Inv(t) && Tally(t.audit, newId, Created) == 0 && ValidInviteActor(invite.issuer)
    ensures var r := OpenInvite(ExpireInvites(t, now), newId, invite, now);
            (r.Ok? ==> Inv(r.value) && Follows(t, r.value)) && r != Err(ConstraintViolation)
  {
    hide Inv, WithinMemberLimits;
    var s := ExpireInvites(t, now);
    assert Inv(s) && Extends(t, s) && s.log.history == t.log.history by { ExpireInvitesKeeps(t, now); }
    var r := OpenInvite(s, newId, invite, now);
    assert (r.Ok? ==> Inv(r.value) && Extends(s, r.value)) && r != Err(ConstraintViolation) by {
      CreatedStays(t, now, newId);
      OpenInviteKeeps(s, newId, invite, now);
    }
    if r.Ok? {
      assert Extends(t, r.value) by { ExtendsIsTransitive(t, s, r.value); }
      assert Follows(t, r.value) by { Silent(t, r.value); }
    }
  }

  lemma CreateInviteKeeps(t: Tables, name: string, lifetime: int, issuer: Actor, newId: InviteId, secret: nat,
                          now: Time)
    requires Inv(t) && Tally(t.audit, newId, Created) == 0
    ensures var (u, r) := CreateInvite(t, name, lifetime, issuer, newId, secret, now);
            Inv(u) && Follows(t, u) && r != Err(ConstraintViolation)
  {
    hide Inv, Follows, OpenInvite;
    assert Follows(t, t) by { ExtendsItself(t); }
    if ValidInviteActor(issuer) {
      OpenedKeeps(t, newId, NewInvite(name, Span(lifetime), issuer, secret, now), now);
    }
  }

  lemma RevokeInviteKeeps(t: Tables, id: InviteId, actor: Actor, now: Time)
    requires Inv(t)
    ensures var (u, r) := RevokeInvite(t, id, actor, now); Inv(u) && Follows(t, u)
  {
    hide Inv, Follows;
    assert Follows(t, t) by { ExtendsItself(t); }
    ExpireInvitesKeeps(t, now);
    var s := ExpireInvites(t, now);
    if ValidInviteActor(actor) && InviteActorActive(s, actor) && id in s.invites {
      CloseInvitesKeeps(s, [id], now, actor, Revoked);
      var u := CloseInvites(s, [id], now, actor, Revoked);
      ExtendsIsTransitive(t, s, u);
      Silent(t, u);
    }
  }

  lemma ReserveKeeps(t: Tables, need: nat)
    requires Inv(t)
    ensures var active := |ActiveMembers(t.members)|;
            var s := t.(log := Reserved(t.log, t.pending.Keys, active, need));
            Inv(s) && Extends(t, s) && s.log.history == t.log.history
  {
    hide Wellformed, Fold, Lives, Budget, ApprovalsLogged, Identities, Conserved, RateLimited,
         Commands.Valid, Commands.Later, Commands.KeepsAdmitted;
    var s := t.(log := Reserved(t.log, t.pending.Keys, |ActiveMembers(t.members)|, need));
    assert LogInv(s) && s.log.history == t.log.history && s.log.floor >= t.log.floor by { ReservedKeepsLog(t, need); }
    Commands.NoChange(t.registry);
  }

  lemma JoinKeeps(t: Tables, token: Token, device: DeviceId, name: string, newId: EnrollmentId, now: Time)
    requires Inv(t) && Unseen(t, newId) && token.invite in t.invites && TokenMatches(t, token, name)
    requires !RedeemConflict(t, device, KeyOf(name)) && |ActiveMembers(t.members)| < MAX_MEMBERS
    requires Occupancy(t.log.rows, t.pending.Keys, |ActiveMembers(t.members)|) + 1 <= MAX_FACT_ROWS
    ensures var r := Join(t, token, device, name, newId, now);
            r.Ok? && Inv(r.value) && Extends(t, r.value) && r.value.log == t.log
  {
    hide Wellformed, Fold, Lives, Budget, ApprovalsLogged, Identities, Conserved, RateLimited,
         Commands.Valid, Commands.Later, Commands.KeepsAdmitted;
    var m := Member(newId, name, 1, now, None);
    var r := Join(t, token, device, name, newId, now);
    var u := r.value;
    var a := Audit(now, DeviceActor(device), Redeemed, token.invite);
    assert u.invites == t.invites - {token.invite} && u.audit == t.audit + [a];
    assert LogInv(u) by {
      JoinKeepsLog(t, device, m);
      assert LogInv(t.(members := t.members[device := m]));
    }
    assert Conserved(u.invites, u.audit) by { CloseKeepsConserved(t.invites, t.audit, a); }
    assert RateLimited(u.audit) by { OtherRecordsKeepRate(t.audit, a); }
    assert Identities(u.pending, u.members, u.invites) by { IdentitiesJoin(t, device, m, token.invite); }
    Commands.NoChange(t.registry);
  }

  lemma RedeemSettled(t: Tables, s: Tables, token: Token, device: DeviceId, name: string, newId: EnrollmentId,
                      now: Time)
    requires Inv(s) && Extends(t, s) && s.log.history == t.log.history && Unseen(s, newId)
    requires token.invite in s.invites && TokenMatches(s, token, name) && !RedeemConflict(s, device, KeyOf(name))
    requires |ActiveMembers(s.members)| < MAX_MEMBERS
    ensures var u := s.(log := Reserved(s.log, s.pending.Keys, |ActiveMembers(s.members)|, 1));
            && Inv(u) && Follows(t, u)
            && (CanReserve(s.log, s.pending.Keys, |ActiveMembers(s.members)|, 1) ==>
                  var v := Join(u, token, device, name, newId, now);
                  v.Ok? && Inv(v.value) && Follows(t, v.value))
  {
    hide Wellformed, Fold, Lives, Budget, ApprovalsLogged, Identities, Conserved, RateLimited,
         Commands.Valid, Commands.Later, Join;
    var u := s.(log := Reserved(s.log, s.pending.Keys, |ActiveMembers(s.members)|, 1));
    assert Inv(u) && Extends(s, u) && u.log.history == s.log.history by { ReserveKeeps(s, 1); }
    assert Extends(t, u) by { ExtendsIsTransitive(t, s, u); }
    assert Follows(t, u) by { Silent(t, u); }
    if CanReserve(s.log, s.pending.Keys, |ActiveMembers(s.members)|, 1) {
      assert Occupancy(u.log.rows, u.pending.Keys, |ActiveMembers(u.members)|) + 1 <= MAX_FACT_ROWS by {
        ReservedKeepsLog(s, 1);
      }
      var v := Join(u, token, device, name, newId, now);
      assert v.Ok? && Inv(v.value) && Extends(u, v.value) && v.value.log == u.log by {
        JoinKeeps(u, token, device, name, newId, now);
      }
      assert Extends(t, v.value) by { ExtendsIsTransitive(t, u, v.value); }
      assert Follows(t, v.value) by { Silent(t, v.value); }
    }
  }

  lemma RedeemInviteKeeps(t: Tables, token: Token, device: DeviceId, name: string, newId: EnrollmentId, now: Time)
    requires Inv(t) && Unseen(t, newId)
    ensures var (u, r) := RedeemInvite(t, token, device, name, newId, now);
            Inv(u) && Follows(t, u) && r != Err(ConstraintViolation)
  {
    hide Inv, Follows;
    assert Follows(t, t) by { ExtendsItself(t); }
    var s := ExpireInvites(t, now);
    assert Inv(s) && Extends(t, s) by { ExpireInvitesKeeps(t, now); }
    assert Follows(t, s) by { Silent(t, s); }
    var (u, r) := RedeemInvite(t, token, device, name, newId, now);
    if Text.ValidLabel(name) && token.invite in s.invites && TokenMatches(s, token, name) &&
       !RedeemConflict(s, device, KeyOf(name)) && |ActiveMembers(s.members)| < MAX_MEMBERS
    {
      assert Inv(u) && Follows(t, u) && r != Err(ConstraintViolation) by {
        RedeemSettled(t, s, token, device, name, newId, now);
      }
    } else {
      assert (u == t || u == s) && r != Err(ConstraintViolation);
    }
  }

  // ---- maintenance ---------------------------------------------------------

  lemma PruneFactsKeeps(t: Tables, now: Time)
    requires Inv(t)
    ensures var (u, n) := PruneFacts(t, now);
            Inv(u) && Follows(t, u) && u.log.floor == t.log.floor + n && u.log.history == t.log.history
  {
    hide Lives, Budget, ApprovalsLogged, Fold, Identities, Conserved, RateLimited, Commands.Valid,
         Commands.KeepsAdmitted;
    var n := AgedPrefix(t.log.rows, Waiting(t), now);
    var u := t.(log := DropOldest(t.log, n));
    assert LogInv(u) by { DropKeepsLog(t, n); }
    DropOldestKeepsWellformed(t.log, n);
    Commands.NoChange(t.registry);
    assert Extends(t, u);
    if n == 0 { Silent(t, u); } else { Ring(t, u); }
  }

  lemma RegistryKeeps(t: Tables, registry: Commands.Registry)
    requires Inv(t) && Commands.Transition(t.registry, registry) && registry.commits == t.registry.commits
    ensures var u := t.(registry := registry); Inv(u) && Follows(t, u)
  {
    hide Wellformed, Fold, Lives, Budget, ApprovalsLogged, Identities, Conserved, RateLimited,
         Commands.Valid, Commands.Later, Commands.KeepsAdmitted;
    assert LogInv(t.(registry := registry));
  }

  lemma PruneReceiptsKeeps(t: Tables, now: Time)
    requires Inv(t)
    ensures Inv(PruneReceipts(t, now)) && Follows(t, PruneReceipts(t, now))
  {
    hide Wellformed, Fold, Lives, Budget, ApprovalsLogged, Identities, Conserved, RateLimited,
         Commands.Valid, Commands.Later, Follows;
    var g := Commands.PruneReceipts(t.registry, now);
    assert Commands.Transition(t.registry, g) by {
      Commands.PruneFromKeeps(t.registry, 0, now - Commands.RECEIPT_RETENTION);
    }
    RegistryKeeps(t, g);
  }

  /** Settling for a reader: the waiting rows that are not due are left, and the bell rings if any were. */
  lemma SettledForReader(t: Tables, now: Time)
    requires Inv(t)
    ensures var due := DuePending(t, now);
            var s := SettlePending(t, now);
            && s.Some? && s.value.pending == Without(t.pending, due)
            && (forall e :: e in s.value.pending ==> s.value.pending[e].expiresAt > now)
            && var u := if due == [] then s.value else Notify(s.value);
               Inv(u) && Follows(t, u)
  {
    hide Inv, Follows, Extends, SettlePending;
    var s := SettlePending(t, now);
    assert s.Some? && Inv(s.value) && Extends(t, s.value) && OnlyExpires(t, s.value, DuePending(t, now)) by {
      SettlePendingKeeps(t, now);
    }
    WhatIsLeftIsCurrent(t, now, s.value);
    if DuePending(t, now) == [] {
      assert Follows(t, s.value) by { Silent(t, s.value); }
    } else {
      assert Inv(Notify(s.value)) && Follows(t, Notify(s.value)) by { Ring(t, s.value); }
    }
  }

  /** A snapshot overflows exactly when more rows wait and are not due than the configured limit. */
  lemma PendingSnapshotKeeps(t: Tables, adapter: string, credential: nat, now: Time)
    requires Inv(t)
    ensures var (u, r) := PendingSnapshot(t, adapter, credential, now);
            && Inv(u) && Follows(t, u)
            && r != Err(FactOrderViolation)
            && (r == Err(PendingOverflow) <==>
                  && Commands.ValidAdapterId(adapter) && Commands.Authorized(t.registry, adapter, credential)
                  && |Without(t.pending, DuePending(t, now))| > t.maxPending)
            && (r.Ok? ==> r.value == ReadSnapshot(u) && forall e :: e in u.pending ==> u.pending[e].expiresAt > now)
  {
    hide Inv, Follows, SettlePending, Commands.ValidAdapterId;
    assert Follows(t, t) by { ExtendsItself(t); }
    SettledForReader(t, now);
  }
}
