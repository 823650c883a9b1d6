/** The configured limit of waiting rows and their stored keys, over whole runs. */
module LedgerLimits {
  import opened Basics
  import opened Outcomes
  import opened FactLog
  import opened Ledger
  import opened LedgerInvariant
  import opened LedgerOperations
  import opened LedgerReceipts
  import opened LedgerRuns
  import C = Commands

  /** Every waiting row was there before, as it is. */
  ghost predicate Shrinks(t: Tables, u: Tables) {
    && u.maxPending == t.maxPending
    && forall e :: e in u.pending ==> e in t.pending && u.pending[e] == t.pending[e]
  }

  /** One row more, under the limit and with a key that decodes. */
  ghost predicate Admits(t: Tables, u: Tables, e: EnrollmentId) {
    && u.maxPending == t.maxPending && |t.pending| < t.maxPending
    && e in u.pending && u.pending[e].keyOk && u.pending == t.pending[e := u.pending[e]]
  }

  lemma ShrinksTwice(t: Tables, u: Tables, v: Tables)
    requires Shrinks(t, u) && Shrinks(u, v)
    ensures Shrinks(t, v)
  {
  }

  lemma {:induction false} ExpiryShrinks(t: Tables, rows: seq<EnrollmentId>, now: Time)
    requires Rows(t, rows) && ExpireAll(t, rows, now).Some?
    ensures Shrinks(t, ExpireAll(t, rows, now).value)
    decreases |rows|
  {
    hide Insert, C.RejectFor;
    if rows != [] {
      var u := ExpireOne(t, rows[0], now).value;
      assert Shrinks(t, u);
      assert forall i :: 0 <= i < |rows[1..]| ==> rows[1..][i] == rows[i + 1];
      ExpiryShrinks(u, rows[1..], now);
      ShrinksTwice(t, u, ExpireAll(u, rows[1..], now).value);
    }
  }

  lemma SettlingShrinks(t: Tables, now: Time)
    ensures SettleExpired(t, now).Some? ==> Shrinks(t, SettleExpired(t, now).value)
    ensures SettlePending(t, now).Some? ==> Shrinks(t, SettlePending(t, now).value)
  {
    hide ExpireAll, DueInvites, Records;
    if SettlePending(t, now).Some? { ExpiryShrinks(t, DuePending(t, now), now); }
  }

  lemma SnapshotShrinks(t: Tables, adapter: string, credential: nat, now: Time)
    ensures Shrinks(t, PendingSnapshot(t, adapter, credential, now).0)
  {
    hide SettlePending, C.ValidAdapterId, ReadSnapshot;
    SettlingShrinks(t, now);
  }

  lemma ApprovalShrinks(t: Tables, e: EnrollmentId, now: Time)
    requires e in t.pending
    ensures Shrinks(t, ApproveWaiting(t, e, now).0)
    ensures Enroll(t, e, now).Ok? ==> Shrinks(t, Enroll(t, e, now).value)
  {
    hide Insert, C.RejectFor, NameOfMember, EnrollmentIsMember;
  }

  lemma ApproveShrinks(t: Tables, code: nat, actor: Actor, now: Time)
    ensures Shrinks(t, ApproveSettled(t, code, actor, now).0)
  {
    hide ApproveWaiting, Approver;
    forall e | e in t.pending ensures Shrinks(t, ApproveWaiting(t, e, now).0) { ApprovalShrinks(t, e, now); }
  }

  lemma ExecutionShrinks(t: Tables, adapter: string, command: string, now: Time)
    ensures Shrinks(t, ApproveAdapterSettled(t, adapter, command, now).0)
  {
    hide Enroll, C.RejectFor, C.RejectOne, C.CommitFor, MissingPendingRejection;
    var found := C.Lookup(t.registry.receipts, C.Key(adapter, command));
    if found.Some? && found.value.enrollment in t.pending { ApprovalShrinks(t, found.value.enrollment, now); }
  }

  lemma RequestAdmits(t: Tables, device: DeviceId, name: string, code: nat, newId: EnrollmentId, now: Time)
    ensures var u := Request(t, device, name, code, newId, now).0; Shrinks(t, u) || Admits(t, u, newId)
  {
    hide Insert, CanReserve, Reserved, KnownDevice, WaitingDevice;
  }

  /** Everything else leaves the waiting rows alone. */
  lemma OthersLeave(t: Tables, op: Op)
    requires op.RevokeOp? || op.CreateInviteOp? || op.RevokeInviteOp? || op.ListInvitesOp? || op.RedeemInviteOp? ||
             op.PruneFactsOp? || op.PruneReceiptsOp? || op.ProvisionOp? || op.ChangeAdapterOp? || op.AdmitOp?
    ensures Apply(t, op).pending == t.pending && Apply(t, op).maxPending == t.maxPending
  {
    hide Revoke, RedeemInvite, CreateInvite, RevokeInvite, ListInvites, AgedPrefix, DropOldest,
         C.PruneReceipts, C.AdmitApprovalCommand, C.ProvisionAdapter, C.ChangeAdapter;
    match op
    case RevokeOp(device, revision, actor, now) => RevokeInPlace(t, device, revision, actor, now);
    case RedeemInviteOp(token, device, name, newId, now) => RedeemInPlace(t, token, device, name, newId, now);
    case CreateInviteOp(name, lifetime, actor, newId, secret, now) =>
      CreateInPlace(t, name, lifetime, actor, newId, secret, now);
    case RevokeInviteOp(invite, actor, now) => InvitesInPlace(t, invite, actor, now);
    case ListInvitesOp(actor, now) => InvitesInPlace(t, 0, actor, now);
    case _ =>
  }

  /** A transaction only takes waiting rows away, except that a request may add one. */
  lemma PendingMoves(t: Tables, op: Op)
    ensures Shrinks(t, Apply(t, op)) || (op.RequestOp? && Admits(t, Apply(t, op), op.newId))
  {
    hide Request, ApproveSettled, ApproveAdapterSettled, SettleExpired, PendingSnapshot, Revoke, RedeemInvite,
         CreateInvite, RevokeInvite, ListInvites, Executable;
    match op
    case RequestOp(device, name, code, newId, now) => RequestAdmits(t, device, name, code, newId, now);
    case ApproveOp(code, actor, now) => ApproveShrinks(t, code, actor, now);
    case ExecuteOp(adapter, command, now) => ExecutionShrinks(t, adapter, command, now);
    case SettleOp(now) => SettlingShrinks(t, now);
    case SnapshotOp(adapter, credential, now) => SnapshotShrinks(t, adapter, credential, now);
    case _ => OthersLeave(t, op);
  }

  ghost predicate WithinLimit(t: Tables) { |t.pending| <= t.maxPending }

  ghost predicate KeysDecode(t: Tables) { forall e :: e in t.pending ==> t.pending[e].keyOk }

  lemma FewerRows(t: Tables, u: Tables)
    requires Shrinks(t, u)
    ensures |u.pending| <= |t.pending|
  {
    var gone := t.pending.Keys - u.pending.Keys;
    assert t.pending.Keys == u.pending.Keys + gone;
    assert |t.pending.Keys| == |u.pending.Keys| + |gone|;
  }

  lemma OneMoreRow(t: Tables, u: Tables, e: EnrollmentId)
    requires Admits(t, u, e)
    ensures |u.pending| <= u.maxPending
  {
    assert u.pending.Keys == t.pending.Keys + {e};
    assert |u.pending.Keys| <= |t.pending.Keys| + 1;
  }

  lemma MoveKeeps(t: Tables, op: Op)
    ensures Apply(t, op).maxPending == t.maxPending
    ensures WithinLimit(t) ==> WithinLimit(Apply(t, op))
    ensures KeysDecode(t) ==> KeysDecode(Apply(t, op))
  {
    hide Apply;
    var u := Apply(t, op);
    PendingMoves(t, op);
    if Shrinks(t, u) { FewerRows(t, u); } else { OneMoreRow(t, u, op.newId); }
  }

  /** A run that starts within the limit stays within it, and so do rows whose keys decode. */
  lemma {:induction false} LimitsLast(t: Tables, ops: seq<Op>)
    ensures Run(t, ops).maxPending == t.maxPending
    ensures WithinLimit(t) ==> WithinLimit(Run(t, ops))
    ensures KeysDecode(t) ==> KeysDecode(Run(t, ops))
    decreases |ops|
  {
    hide Apply, WithinLimit, KeysDecode;
    if ops != [] {
      MoveKeeps(t, ops[0]);
      LimitsLast(Apply(t, ops[0]), ops[1..]);
    }
  }

  /**
   No snapshot overflows with the limit the program passes, nor with a smaller one that
   covered the waiting rows when the server started.
   */
  lemma SnapshotsNeverOverflow(t: Tables, ops: seq<Op>, adapter: string, credential: nat, now: Time)
    requires Inv(t) && FreshRun(t, ops) && (WithinLimit(t) || t.maxPending == DEFAULT_MAX_PENDING)
    ensures PendingSnapshot(Run(t, ops), adapter, credential, now).1 != Err(PendingOverflow)
  {
    hide Run, Follows, Wellformed, Fold, Lives, ApprovalsLogged, Identities, Conserved, RateLimited, C.Valid,
         PendingSnapshot;
    var u := Run(t, ops);
    RunKeeps(t, ops);
    LimitsLast(t, ops);
    PendingSnapshotKeeps(u, adapter, credential, now);
    assert Without(u.pending, DuePending(u, now)).Keys <= u.pending.Keys;
    FewerRows(u, u.(pending := Without(u.pending, DuePending(u, now))));
  }

  /**
   Where every stored key decodes, no run meets one that does not: an approval never fails
   on a key, and an admitted command whose enrollment waits commits when there is room.
   */
  lemma KeysAreNeverRefused(t: Tables, ops: seq<Op>, e: EnrollmentId, r: C.Receipt, now: Time)
    requires Inv(t) && FreshRun(t, ops) && KeysDecode(t)
    ensures var u := Run(t, ops);
            && (e in u.pending ==> ApproveWaiting(u, e, now).1 != Err(KeyUndecodable))
            && (r in u.registry.receipts && r.state.Admitted? && r.enrollment in u.pending &&
                |ActiveMembers(u.members)| < MAX_MEMBERS ==>
                  && Execute(u, r, now).Ok?
                  && C.Commit(r.key, r.enrollment) in Execute(u, r, now).value.registry.commits)
  {
    hide Run, Inv, Follows, Execute, Enroll;
    var u := Run(t, ops);
    RunKeeps(t, ops);
    LimitsLast(t, ops);
    if e in u.pending && |ActiveMembers(u.members)| < MAX_MEMBERS { EnrollKeeps(u, e, now); }
    if r in u.registry.receipts && r.state.Admitted? && r.enrollment in u.pending &&
       |ActiveMembers(u.members)| < MAX_MEMBERS
    {
      ExecuteApproves(u, r, now);
    }
  }

  /** A waiting row whose key does not decode is never approved: each admitted command for it is rejected alone. */
  lemma BadKeyIsRejected(t: Tables, r: C.Receipt, now: Time)
    requires Inv(t) && r in t.registry.receipts && r.state.Admitted? && r.enrollment in t.pending
    requires !t.pending[r.enrollment].keyOk && |ActiveMembers(t.members)| < MAX_MEMBERS
    ensures var u := Execute(t, r, now);
            && u.Ok? && u.value.pending == t.pending && u.value.members == t.members && u.value.log == t.log
            && r.(state := C.Rejected(now, C.InvalidEnrollmentKey)) in u.value.registry.receipts
            && forall x :: x in t.registry.receipts && x.key != r.key ==> x in u.value.registry.receipts
  {
    hide LogInv, Identities, Conserved, RateLimited, C.Valid;
    C.RejectOneKeeps(t.registry, r.key, C.InvalidEnrollmentKey, now);
  }
}
