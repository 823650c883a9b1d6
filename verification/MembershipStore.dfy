/**
 The membership store as the source writes it: transactions over the tables,
 loops that settle rows one by one, and a commit at the end. Every method is tied
 to the function of the ledger that says what it commits and answers.
 */
module MembershipStore {
  import opened Basics
  import opened Outcomes
  import opened FactLog
  import opened Ledger
  import opened LedgerInvariant
  import opened LedgerOperations
  import LedgerRuns

  // ---- helpers that work inside a transaction ------------------------------

  lemma ExpireAllTail(t: Tables, rows: seq<EnrollmentId>, now: Time)
    requires Rows(t, rows) && rows != []
    ensures match ExpireOne(t, rows[0], now)
            case None => ExpireAll(t, rows, now).None?
            case Some(u) => Rows(u, rows[1..]) && ExpireAll(t, rows, now) == ExpireAll(u, rows[1..], now)
  {
  }

  /** `deleteExpired`: the loop over the rows due, each with its fact and its rejected commands. */
  method DeleteExpired(tx: Tables, now: Time) returns (out: Option<Tables>, changed: bool)
    ensures out == SettlePending(tx, now)
    ensures changed <==> DuePending(tx, now) != []
  {
    var expired := DuePending(tx, now);
    changed := expired != [];
    var cur := tx;
    var i := 0;
    assert expired[0..] == expired;
    while i < |expired|
      invariant 0 <= i <= |expired|
      invariant Rows(cur, expired[i..])
      invariant SettlePending(tx, now) == ExpireAll(cur, expired[i..], now)
    {
      ExpireAllTail(cur, expired[i..], now);
      assert expired[i..][1..] == expired[i + 1..];
      var step := ExpireOne(cur, expired[i], now);
      if step.None? {
        return None, changed;
      }
      cur := step.value;
      i := i + 1;
    }
    out := Some(cur);
  }

  lemma CloseSome(t: Tables, ids: seq<InviteId>, i: nat, at: Time, actor: Actor, action: InviteAction)
    requires i < |ids|
    ensures var s := CloseInvites(t, ids[..i], at, actor, action);
            CloseInvites(t, ids[..i + 1], at, actor, action) ==
            s.(invites := s.invites - {ids[i]}, audit := s.audit + [Audit(at, actor, action, ids[i])])
  {
    CloseInvitesPeels(t, ids[..i + 1], at, actor, action);
    assert ids[..i + 1][..i] == ids[..i];
  }

  /** The loops of `deleteExpiredInvites` and `revokeIssuerInvites`: one delete and one audit row per invite. */
  method CloseEach(tx: Tables, ids: seq<InviteId>, at: Time, actor: Actor, action: InviteAction) returns (out: Tables)
    ensures out == CloseInvites(tx, ids, at, actor, action)
  {
    out := tx;
    var i := 0;
    while i < |ids|
      invariant 0 <= i <= |ids|
      invariant out == CloseInvites(tx, ids[..i], at, actor, action)
    {
      CloseSome(tx, ids, i, at, actor, action);
      out := out.(invites := out.invites - {ids[i]}, audit := out.audit + [Audit(at, actor, action, ids[i])]);
      i := i + 1;
    }
    assert ids[..i] == ids;
  }

  /** `missingPendingRejection`: scan the facts from the newest back. */
  method FindTerminal(rows: seq<Fact>, e: EnrollmentId) returns (code: Commands.Rejection)
    ensures code == MissingPendingRejection(rows, e)
  {
    var i := |rows|;
    assert rows[..i] == rows;
    while i > 0
      invariant 0 <= i <= |rows|
      invariant Terminal(rows, e) == Terminal(rows[..i], e)
    {
      var f := rows[i - 1].entry;
      assert rows[..i][..i - 1] == rows[..i - 1];
      if f.enrollment == e && f.kind.MemberApproved? {
        return Commands.SettledElsewhere;
      }
      if f.enrollment == e && f.kind.PendingExpired? {
        return Commands.EnrollmentExpired;
      }
      i := i - 1;
    }
    code := Commands.NotPending;
  }

  // ---- the store -----------------------------------------------------------

  /** The writes of `RequestEnrollment`: room in the log, the pending row under its UNIQUE columns, the fact. */
  method AdmitPending(t: Tables, e: EnrollmentId, p: Pending) returns (r: Result<Tables>)
    ensures r == Admit(t, e, p)
  {
    var log, room := EnsureFactCapacity(t.log, t.pending.Keys, |ActiveMembers(t.members)|, 3);
    if !room { return Err(FactCapacity); }
    if e in t.pending || CodeIsPending(t, p.code) || DeviceIsPending(t, p.device) ||
       NameOfPending(t, Text.Lower(p.name)) {
      return Err(ConstraintViolation);
    }
    var appended := Insert(log, Entry(PendingAdmitted, e, p.device, p.name, p.createdAt, Some(p.expiresAt), None));
    if appended.None? { return Err(FactOrderViolation); }
    return Ok(t.(log := appended.value, pending := t.pending[e := p]));
  }

  /** The writes of `Revoke`: the fact, the member row, and every invite the member issued. */
  method ExpelMember(t: Tables, device: DeviceId, actor: Actor, now: Time) returns (r: Result<Tables>)
    requires device in t.members
    ensures r == Expel(t, device, actor, now)
    ensures r.Ok? ==>
              var m := t.members[device];
              r.value.members == t.members[device := m.(revision := m.revision + 1, revokedAt := Some(now))]
  {
    var m := t.members[device];
    var after := m.(revision := m.revision + 1, revokedAt := Some(now));
    var appended := Insert(t.log, Entry(MemberRevoked, m.enrollment, device, m.name, now, None, Some(after.revision)));
    if appended.None? { return Err(FactOrderViolation); }
    var tx := t.(log := appended.value, members := t.members[device := after]);
    var issued := IssuedBy(tx, device);
    if issued != [] && !MayRevokeInvites(actor) { return Err(ConstraintViolation); }
    tx := CloseEach(tx, issued, now, actor, Revoked);
    return Ok(tx);
  }

  lemma AdmissionAnswers(t: Tables, adapter: string, credential: nat, command: string,
                         enrollment: Option<EnrollmentId>, nowMillis: int)
    requires Inv(t)
    ensures Commands.AdmitApprovalCommand(t.registry, adapter, credential, command, enrollment, nowMillis).1
            != Err(ReceiptCapacity)
    ensures Commands.Screen(t.registry, adapter, credential, command, enrollment, nowMillis).Admissible? ==>
              enrollment.Some? && adapter in t.registry.adapters
  {
    hide Commands.Screen, Commands.AdmitApprovalCommand, LogInv, Identities, Conserved, RateLimited;
    Commands.AdmissionKeeps(t.registry, adapter, credential, command, enrollment, nowMillis);
    Commands.ScreenIsSound(t.registry, adapter, credential, command, enrollment, nowMillis);
  }

  /** A configured limit that makes no sense falls back to the default. */
  function PendingLimit(limit: int): (r: nat)
    ensures 1 <= r <= DEFAULT_MAX_PENDING
  {
    if limit <= 0 || limit > DEFAULT_MAX_PENDING then DEFAULT_MAX_PENDING else limit
  }

  class Store {
    var db: Tables

    ghost predicate Valid()
      reads this
    {
      Inv(db)
    }

    /** `NewStore` over a sound database, as a migration or an earlier process left it. */
    constructor (tables: Tables, limit: int)
      requires Inv(tables.(maxPending := PendingLimit(limit)))
      ensures Valid() && db == tables.(maxPending := PendingLimit(limit))
    {
      db := tables.(maxPending := PendingLimit(limit));
    }

    method NotifyFacts()
      modifies this
      ensures db == Notify(old(db))
    {
      db := db.(bells := db.bells + 1);
    }

    method SettleExpired(now: Time)
      requires Valid()
      modifies this
      ensures Valid() && Some(db) == Ledger.SettleExpired(old(db), now)
    {
      SettleExpiredKeeps(db, now);
      var tx, changed := DeleteExpired(db, now);
      var done := CloseEach(tx.value, DueInvites(tx.value, now), now, System, Expired);
      db := done;
      if changed {
        NotifyFacts();
      }
    }

    method RequestEnrollment(device: DeviceId, name: string, code: nat, newId: EnrollmentId, now: Time)
      returns (r: Result<Enrollment>)
      requires Valid() && Unseen(db, newId)
      modifies this
      ensures Valid()
      ensures (db, r) == Ledger.RequestEnrollment(old(db), device, name, code, newId, now)
    {
      RequestEnrollmentKeeps(db, device, name, code, newId, now);
      if !Text.ValidLabel(name) {
        return Err(MembershipInvalid);
      }
      SettleExpired(now);
      r := RequestSettled(device, name, code, newId, now);
    }

    /** The transaction of `RequestEnrollment`, after what is due has been settled. */
    method RequestSettled(device: DeviceId, name: string, code: nat, newId: EnrollmentId, now: Time)
      returns (r: Result<Enrollment>)
      requires Valid()
      modifies this
      ensures (db, r) == Request(old(db), device, name, code, newId, now)
    {
      WaitingRowsAreApart(db);
      var key := Text.Lower(name);
      if device in db.members {
        var m := db.members[device];
        if Text.Lower(m.name) != key { return Err(MembershipConflict); }
        if !Active(m) { return Err(MembershipRevoked); }
        return Ok(Enrolled);
      }
      if NameOfMember(db, key) { return Err(MembershipConflict); }
      if DeviceIsPending(db, device) {
        var e :| e in db.pending && db.pending[e].device == device;
        if Text.Lower(db.pending[e].name) != key { return Err(MembershipConflict); }
        return Ok(Waits(db.pending[e].code, db.pending[e].expiresAt));
      }
      if NameOfPending(db, key) { return Err(MembershipConflict); }
      if NameOfInvite(db, key) { return Err(MembershipConflict); }
      if |db.pending| >= db.maxPending { return Err(MembershipCapacity); }
      var expires := now + PENDING_LIFETIME;
      var admitted := AdmitPending(db, newId, Pending(code, device, name, now, expires, true));
      if admitted.Err? { return Err(admitted.error); }
      db := admitted.value;
      NotifyFacts();
      return Ok(Waits(code, expires));
    }

    method Approve(code: nat, actor: Actor, now: Time) returns (r: Result<Member>)
      requires Valid()
      modifies this
      ensures Valid()
      ensures (db, r) == Ledger.Approve(old(db), code, actor, now)
    {
      ApproveKeeps(db, code, actor, now);
      SettleExpired(now);
      var refused := Approver(db, actor);
      if refused.Some? { return Err(refused.value); }
      if !CodeIsPending(db, code) { return Err(MembershipNotFound); }
      var e :| e in db.pending && db.pending[e].code == code;
      WaitingRowsAreApart(db);
      if |ActiveMembers(db.members)| >= MAX_MEMBERS { return Err(MembershipCapacity); }
      if !db.pending[e].keyOk { return Err(KeyUndecodable); }
      var name := db.pending[e].name;
      var enrolled := Enroll(db, e, now);
      if enrolled.Err? { return Err(enrolled.error); }
      var tx := enrolled.value;
      db := tx.(registry := Commands.RejectFor(tx.registry, e, Commands.SettledElsewhere, now, None));
      NotifyFacts();
      return Ok(Member(e, name, 1, now, None));
    }

    method ApproveAdapterCommand(adapter: string, command: string, now: Time) returns (r: Result<Commands.Receipt>)
      requires Valid()
      modifies this
      ensures Valid()
      ensures (db, r) == Ledger.ApproveAdapterCommand(old(db), adapter, command, now)
    {
      ApproveAdapterCommandKeeps(db, adapter, command, now);
      if !Commands.ValidAdapterId(adapter) { return Err(AdapterInvalid); }
      if !Commands.CommandId.Canonical(command) { return Err(CommandInvalid); }
      SettleExpired(now);
      var found := Commands.Lookup(db.registry.receipts, Commands.Key(adapter, command));
      if found.None? { return Err(ReceiptNotFound); }
      var receipt := found.value;
      if !receipt.state.Admitted? { return Ok(receipt); }
      var e := receipt.enrollment;
      if e !in db.pending {
        var code := FindTerminal(db.log.rows, e);
        db := db.(registry := Commands.RejectFor(db.registry, e, code, now, None));
        return Commands.QueryCommand(db.registry, adapter, command);
      }
      if |ActiveMembers(db.members)| >= MAX_MEMBERS {
        db := db.(registry := Commands.RejectOne(db.registry, receipt.key, Commands.MemberCapacity, now));
        return Commands.QueryCommand(db.registry, adapter, command);
      }
      var p := db.pending[e];
      if !p.keyOk {
        db := db.(registry := Commands.RejectOne(db.registry, receipt.key, Commands.InvalidEnrollmentKey, now));
        return Commands.QueryCommand(db.registry, adapter, command);
      }
      var enrolled := Enroll(db, e, now);
      if enrolled.Err? { return Err(enrolled.error); }
      var tx := enrolled.value;
      db := tx.(registry := Commands.CommitFor(tx.registry, e, receipt.key, p.device, p.name, now));
      NotifyFacts();
      return Commands.QueryCommand(db.registry, adapter, command);
    }

    method Revoke(device: DeviceId, expectedRevision: int, actor: Actor, now: Time) returns (r: Result<Member>)
      requires Valid()
      modifies this
      ensures Valid()
      ensures (db, r) == Ledger.Revoke(old(db), device, expectedRevision, actor, now)
    {
      RevokeKeeps(db, device, expectedRevision, actor, now);
      if actor.AdapterActor? || actor.System? || expectedRevision <= 0 { return Err(MembershipInvalid); }
      var tx := CloseEach(db, DueInvites(db, now), now, System, Expired);
      if device !in tx.members { return Err(MembershipNotFound); }
      var m := tx.members[device];
      if !Active(m) { return Err(MembershipRevoked); }
      if m.revision != expectedRevision { return Err(MembershipConflict); }
      var expelled := ExpelMember(tx, device, actor, now);
      if expelled.Err? { return Err(expelled.error); }
      db := expelled.value;
      NotifyFacts();
      return Ok(db.members[device]);
    }

    method CreateInvite(name: string, lifetime: int, issuer: Actor, newId: InviteId, secret: nat, now: Time)
      returns (r: Result<Invite>)
      requires Valid() && Tally(db.audit, newId, Created) == 0
      modifies this
      ensures Valid()
      ensures (db, r) == Ledger.CreateInvite(old(db), name, lifetime, issuer, newId, secret, now)
    {
      CreateInviteKeeps(db, name, lifetime, issuer, newId, secret, now);
      if !Text.ValidLabel(name) || !ValidSpan(Span(lifetime)) || !ValidInviteActor(issuer) {
        return Err(MembershipInvalid);
      }
      var invite := NewInvite(name, Span(lifetime), issuer, secret, now);
      var tx := CloseEach(db, DueInvites(db, now), now, System, Expired);
      var insertion := OpenInvite(tx, newId, invite, now);
      if insertion.Err? { return Err(insertion.error); }
      db := insertion.value;
      return Ok(invite);
    }

    method RevokeInvite(id: InviteId, actor: Actor, now: Time) returns (r: Result<Invite>)
      requires Valid()
      modifies this
      ensures Valid()
      ensures (db, r) == Ledger.RevokeInvite(old(db), id, actor, now)
    {
      RevokeInviteKeeps(db, id, actor, now);
      if !ValidInviteActor(actor) { return Err(MembershipInvalid); }
      var tx := CloseEach(db, DueInvites(db, now), now, System, Expired);
      if !InviteActorActive(tx, actor) { return Err(MembershipRevoked); }
      if id !in tx.invites { return Err(InviteUnavailable); }
      var invite := tx.invites[id];
      tx := CloseEach(tx, [id], now, actor, Revoked);
      db := tx;
      return Ok(invite);
    }

    method RedeemInvite(token: Token, device: DeviceId, name: string, newId: EnrollmentId, now: Time)
      returns (r: Result<Member>)
      requires Valid() && Unseen(db, newId)
      modifies this
      ensures Valid()
      ensures (db, r) == Ledger.RedeemInvite(old(db), token, device, name, newId, now)
    {
      RedeemInviteKeeps(db, token, device, name, newId, now);
      if !Text.ValidLabel(name) { return Err(MembershipInvalid); }
      var tx := CloseEach(db, DueInvites(db, now), now, System, Expired);
      if token.invite !in tx.invites || !TokenMatches(tx, token, name) || RedeemConflict(tx, device, Text.Lower(name)) {
        db := tx;
        return Err(InviteUnavailable);
      }
      if |ActiveMembers(tx.members)| >= MAX_MEMBERS {
        db := tx;
        return Err(EnrollmentUnavailable);
      }
      var log, room := EnsureFactCapacity(tx.log, tx.pending.Keys, |ActiveMembers(tx.members)|, 1);
      tx := tx.(log := log);
      if !room {
        db := tx;
        return Err(EnrollmentUnavailable);
      }
      if EnrollmentIsMember(tx, newId) { return Err(ConstraintViolation); }
      var m := Member(newId, name, 1, now, None);
      tx := tx.(members := tx.members[device := m]);
      tx := CloseEach(tx, [token.invite], now, DeviceActor(device), Redeemed);
      db := tx;
      return Ok(m);
    }

    method PruneFacts(now: Time) returns (count: nat)
      requires Valid()
      modifies this
      ensures Valid()
      ensures (db, count) == Ledger.PruneFacts(old(db), now)
    {
      PruneFactsKeeps(db, now);
      var log;
      log, count := PruneAged(db.log, db.pending.Keys, now);
      db := db.(log := log);
      if count != 0 {
        NotifyFacts();
      }
    }

    method PruneReceipts(now: Time)
      requires Valid()
      modifies this
      ensures Valid()
      ensures db == Ledger.PruneReceipts(old(db), now)
    {
      PruneReceiptsKeeps(db, now);
      db := db.(registry := Commands.PruneReceipts(db.registry, now));
    }

    method AdmitApprovalCommand(adapter: string, credential: nat, command: string, enrollment: Option<EnrollmentId>,
                                nowMillis: int)
      returns (r: Result<Commands.Receipt>)
      requires Valid()
      modifies this
      ensures Valid() && r != Err(ReceiptCapacity)
      ensures (db.registry, r) ==
              Commands.AdmitApprovalCommand(old(db).registry, adapter, credential, command, enrollment, nowMillis)
      ensures db == old(db).(registry := db.registry)
    {
      hide Inv, Commands.Screen, Commands.MakeRoom, Commands.Valid, Commands.Later;
      ghost var target := Commands.AdmitApprovalCommand(db.registry, adapter, credential, command, enrollment,
                                                        nowMillis);
      assert Inv(db.(registry := target.0)) by {
        LedgerRuns.AdmitOpKeeps(db, LedgerRuns.AdmitOp(adapter, credential, command, enrollment, nowMillis));
      }
      AdmissionAnswers(db, adapter, credential, command, enrollment, nowMillis);
      var verdict := Commands.Screen(db.registry, adapter, credential, command, enrollment, nowMillis);
      if verdict.Answer? { return verdict.result; }
      var room := Commands.MakeRoom(db.registry.receipts);
      if room.None? { return Err(ReceiptCapacity); }
      var receipt := Commands.Receipt(Commands.Key(adapter, command), db.registry.lastNumber + 1, enrollment.value,
                                      nowMillis / 1000, Commands.Admitted);
      db := db.(registry := Commands.Record(db.registry, room.value, receipt));
      return Ok(receipt);
    }

    method CurrentPendingSnapshot(adapter: string, credential: nat, now: Time) returns (r: Result<Snapshot>)
      requires Valid()
      modifies this
      ensures Valid()
      ensures (db, r) == PendingSnapshot(old(db), adapter, credential, now)
    {
      PendingSnapshotKeeps(db, adapter, credential, now);
      if !Commands.ValidAdapterId(adapter) { return Err(AdapterInvalid); }
      if !Commands.Authorized(db.registry, adapter, credential) { return Err(AdapterUnauthorized); }
      var tx, changed := DeleteExpired(db, now);
      if tx.None? { return Err(FactOrderViolation); }
      if |tx.value.pending| > db.maxPending { return Err(PendingOverflow); }
      r := Ok(ReadSnapshot(tx.value));
      db := tx.value;
      if changed {
        NotifyFacts();
      }
    }

    method ReplayFacts(adapter: string, credential: nat, cursor: int, highWater: int, limit: int)
      returns (r: Result<Replay>)
      ensures r == if cursor < 0 || highWater < 0 || limit <= 0 || limit > MAX_FACT_PAGE then Ok(ReplayInvalid)
                   else if !Commands.ValidAdapterId(adapter) then Err(AdapterInvalid)
                   else if !Commands.Authorized(db.registry, adapter, credential) then Err(AdapterUnauthorized)
                   else Ok(ReplayRead(db.log, cursor, highWater, limit))
    {
      if cursor < 0 || highWater < 0 || limit <= 0 || limit > MAX_FACT_PAGE { return Ok(ReplayInvalid); }
      if !Commands.ValidAdapterId(adapter) { return Err(AdapterInvalid); }
      if !Commands.Authorized(db.registry, adapter, credential) { return Err(AdapterUnauthorized); }
      var floor, current := db.log.floor, HighWater(db.log);
      var high := if highWater == 0 then current else highWater;
      if cursor < floor { return Ok(CursorExpired(floor, current)); }
      if cursor > high || high > current { return Ok(ReplayInvalid); }
      var facts := ScanPage(db.log.rows, cursor, high, limit);
      return Ok(Accepted(Page(facts, floor, high)));
    }
  }

  /** The UNIQUE columns of the pending table: a device or a code names one row. */
  lemma WaitingRowsAreApart(t: Tables)
    requires Inv(t)
    ensures forall a, b :: a in t.pending && b in t.pending && a != b ==>
              t.pending[a].device != t.pending[b].device && t.pending[a].code != t.pending[b].code
  {
    forall a, b | a in t.pending && b in t.pending && a != b
      ensures t.pending[a].device != t.pending[b].device && t.pending[a].code != t.pending[b].code
    {
      assert PendingApart(t.pending, a, b);
    }
  }
}
