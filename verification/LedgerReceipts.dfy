/** What one transaction may do to the receipts: settle them in place, and delete none that is admitted. */
module LedgerReceipts {
  import opened Basics
  import opened FactLog
  import opened Ledger
  import opened LedgerInvariant
  import opened LedgerRuns
  import C = Commands

  /** The same rows in the same order, each as it was or settled. */
  ghost predicate SettledInPlace(t: Tables, u: Tables) {
    C.InPlace(t.registry.receipts, u.registry.receipts)
  }

  lemma SettledTwice(t: Tables, u: Tables, v: Tables)
    requires SettledInPlace(t, u) && SettledInPlace(u, v)
    ensures SettledInPlace(t, v)
  {
    var a, b, c := t.registry.receipts, u.registry.receipts, v.registry.receipts;
    forall i | 0 <= i < |a| ensures C.Continues(a[i], c[i]) {
      assert C.Continues(a[i], b[i]) && C.Continues(b[i], c[i]);
    }
  }

  lemma RejectsInPlace(g: C.Registry, e: C.EnrollmentId, code: C.Rejection, now: Time, except: Option<C.Key>)
    ensures C.InPlace(g.receipts, C.RejectFor(g, e, code, now, except).receipts)
  {
  }

  lemma {:induction false} ExpiresInPlace(t: Tables, rows: seq<C.EnrollmentId>, now: Time)
    requires Rows(t, rows) && ExpireAll(t, rows, now).Some?
    ensures SettledInPlace(t, ExpireAll(t, rows, now).value)
    decreases |rows|
  {
    if rows != [] {
      var u := ExpireOne(t, rows[0], now).value;
      assert SettledInPlace(t, u) by { RejectsInPlace(t.registry, rows[0], C.EnrollmentExpired, now, None); }
      assert forall i :: 0 <= i < |rows[1..]| ==> rows[1..][i] == rows[i + 1];
      ExpiresInPlace(u, rows[1..], now);
      SettledTwice(t, u, ExpireAll(u, rows[1..], now).value);
    }
  }

  lemma ExecutesInPlace(t: Tables, r: C.Receipt, now: Time)
    requires r in t.registry.receipts && r.state.Admitted? && Execute(t, r, now).Ok?
    ensures SettledInPlace(t, Execute(t, r, now).value)
  {
    var e := r.enrollment;
    if e !in t.pending {
      RejectsInPlace(t.registry, e, MissingPendingRejection(t.log.rows, e), now, None);
    } else if |ActiveMembers(t.members)| < MAX_MEMBERS && t.pending[e].keyOk {
      var p := t.pending[e];
      C.CommitForRows(t.registry, e, r.key, p.device, p.name, now);
    }
  }

  lemma ApprovesInPlace(t: Tables, code: nat, actor: Actor, now: Time)
    ensures SettledInPlace(t, ApproveSettled(t, code, actor, now).0)
  {
    forall e | e in t.pending && Enroll(t, e, now).Ok?
      ensures C.InPlace(t.registry.receipts,
                        C.RejectFor(Enroll(t, e, now).value.registry, e, C.SettledElsewhere, now, None).receipts)
    {
      RejectsInPlace(t.registry, e, C.SettledElsewhere, now, None);
    }
  }

  lemma CommandsInPlace(t: Tables, adapter: string, command: string, now: Time)
    ensures SettledInPlace(t, ApproveAdapterSettled(t, adapter, command, now).0)
  {
    var found := C.Lookup(t.registry.receipts, C.Key(adapter, command));
    if found.Some? && found.value.state.Admitted? && Execute(t, found.value, now).Ok? {
      ExecutesInPlace(t, found.value, now);
    }
  }

  lemma SettlesInPlace(t: Tables, now: Time)
    ensures SettlePending(t, now).Some? ==> SettledInPlace(t, SettlePending(t, now).value)
  {
    if SettlePending(t, now).Some? { ExpiresInPlace(t, DuePending(t, now), now); }
  }

  lemma RequestInPlace(t: Tables, device: DeviceId, name: string, code: nat, newId: C.EnrollmentId, now: Time)
    ensures Request(t, device, name, code, newId, now).0.registry == t.registry
  {
    hide Text.Lower, KnownDevice, CanReserve, Reserved, Insert;
  }

  /** Receipts and waiting rows stay as they are. */
  ghost predicate Untouched(t: Tables, u: Tables) {
    u.registry == t.registry && u.pending == t.pending && u.maxPending == t.maxPending
  }

  lemma RevokeInPlace(t: Tables, device: DeviceId, revision: int, actor: Actor, now: Time)
    ensures Untouched(t, Revoke(t, device, revision, actor, now).0)
  {
    hide Insert, DueInvites, IssuedBy, Records;
  }

  lemma RedeemInPlace(t: Tables, token: Token, device: DeviceId, name: string, newId: C.EnrollmentId, now: Time)
    ensures Untouched(t, RedeemInvite(t, token, device, name, newId, now).0)
  {
    hide Text.ValidLabel, Text.Lower, CanReserve, Reserved, DueInvites, Records;
  }

  lemma CreateInPlace(t: Tables, name: string, lifetime: int, issuer: Actor, newId: InviteId, secret: nat, now: Time)
    ensures Untouched(t, CreateInvite(t, name, lifetime, issuer, newId, secret, now).0)
  {
    hide Text.ValidLabel, Text.Lower, DueInvites, Records, NewInvite, WithinMemberLimits;
  }

  lemma InvitesInPlace(t: Tables, id: InviteId, actor: Actor, now: Time)
    ensures Untouched(t, RevokeInvite(t, id, actor, now).0) && Untouched(t, ListInvites(t, actor, now))
  {
    hide DueInvites, Records;
  }

  /** Requests, invites, revocations and the pruning of facts do not touch the receipts. */
  lemma RestInPlace(t: Tables, op: Op)
    requires op.RequestOp? || op.RevokeOp? || op.CreateInviteOp? || op.RevokeInviteOp? || op.ListInvitesOp? ||
             op.RedeemInviteOp? || op.PruneFactsOp? || op.ProvisionOp? || op.ChangeAdapterOp?
    ensures Apply(t, op).registry.receipts == t.registry.receipts
  {
    hide Request, Revoke, RedeemInvite, CreateInvite, RevokeInvite, ListInvites, AgedPrefix;
    match op
    case RequestOp(device, name, code, newId, now) => RequestInPlace(t, device, name, code, newId, now);
    case RevokeOp(device, revision, actor, now) => RevokeInPlace(t, device, revision, actor, now);
    case RedeemInviteOp(token, device, name, newId, now) => RedeemInPlace(t, token, device, name, newId, now);
    case CreateInviteOp(name, lifetime, actor, newId, secret, now) =>
      CreateInPlace(t, name, lifetime, actor, newId, secret, now);
    case RevokeInviteOp(invite, actor, now) => InvitesInPlace(t, invite, actor, now);
    case ListInvitesOp(actor, now) => InvitesInPlace(t, 0, actor, now);
    case PruneFactsOp(_) =>
    case ProvisionOp(_, _) =>
    case ChangeAdapterOp(_, _, _) =>
  }

  /** Admission and pruning delete rows; everything else leaves each row where it is. */
  lemma OthersInPlace(t: Tables, op: Op)
    requires !op.AdmitOp? && !op.PruneReceiptsOp?
    ensures SettledInPlace(t, Apply(t, op))
  {
    hide Request, Revoke, RedeemInvite, CreateInvite, RevokeInvite, ListInvites, ApproveSettled, ApproveAdapterSettled;
    match op
    case ApproveOp(code, actor, now) => ApprovesInPlace(t, code, actor, now);
    case ExecuteOp(adapter, command, now) => CommandsInPlace(t, adapter, command, now);
    case SettleOp(now) => SettlesInPlace(t, now);
    case SnapshotOp(_, _, now) => SettlesInPlace(t, now);
    case _ => RestInPlace(t, op);
  }

  /**
   Every receipt that is still admitted survives every transaction, as it is or settled:
   only settled receipts are ever deleted.
   */
  lemma OnlySettledReceiptsGo(t: Tables, op: Op)
    requires Inv(t)
    ensures C.KeepsAdmitted(t.registry.receipts, Apply(t, op).registry.receipts)
  {
    if op.AdmitOp? {
      C.AdmissionKeeps(t.registry, op.adapter, op.credential, op.command, op.enrollment, op.nowMillis);
    } else if op.PruneReceiptsOp? {
      C.PruneFromKeeps(t.registry, 0, op.now - C.RECEIPT_RETENTION);
    } else {
      OthersInPlace(t, op);
      C.InPlaceContinues(t.registry.receipts, Apply(t, op).registry.receipts, t.registry.admissions);
    }
  }

  /** Read for one receipt: after the transaction its row is there, and holds what it held or its outcome. */
  lemma AdmittedReceiptsStay(t: Tables, op: Op, r: C.Receipt)
    requires Inv(t) && r in t.registry.receipts && r.state.Admitted?
    ensures exists x :: x in Apply(t, op).registry.receipts && x == r.(state := x.state)
  {
    OnlySettledReceiptsGo(t, op);
    assert C.Survives(t.registry.receipts, Apply(t, op).registry.receipts, r);
  }
}
