/**
 Whole runs of the membership store: what holds in every reachable state, what a
 reader of facts sees while the store moves on, and what becomes of a command.
 */
module LedgerRuns {
  import opened Basics
  import opened Outcomes
  import opened FactLog
  import opened Ledger
  import opened LedgerInvariant
  import opened LedgerOperations
  import opened LedgerStart

  /** One committed transaction each: calls that commit twice are two operations. */
  datatype Op =
    | RequestOp(device: DeviceId, name: string, code: nat, newId: EnrollmentId, now: Time)
    | ApproveOp(code: nat, actor: Actor, now: Time)
    | ExecuteOp(adapter: string, command: string, now: Time)
    | RevokeOp(device: DeviceId, revision: int, actor: Actor, now: Time)
    | SettleOp(now: Time)  // what every call on enrollments commits first
    | CreateInviteOp(name: string, lifetime: int, actor: Actor, newId: InviteId, secret: nat, now: Time)
    | RevokeInviteOp(invite: InviteId, actor: Actor, now: Time)
    | ListInvitesOp(actor: Actor, now: Time)
    | RedeemInviteOp(token: Token, device: DeviceId, name: string, newId: EnrollmentId, now: Time)
    | PruneFactsOp(now: Time)
    | PruneReceiptsOp(now: Time)
    | ProvisionOp(adapter: string, credential: nat)
    | ChangeAdapterOp(adapter: string, active: Option<bool>, rotated: Option<nat>)
    | AdmitOp(adapter: string, credential: nat, command: string, enrollment: Option<EnrollmentId>, nowMillis: int)
    | SnapshotOp(adapter: string, credential: nat, now: Time)

  ghost function Apply(t: Tables, op: Op): Tables {
    match op
    case RequestOp(device, name, code, newId, now) =>
      if Text.ValidLabel(name) then Request(t, device, name, code, newId, now).0 else t
    case ApproveOp(code, actor, now) => ApproveSettled(t, code, actor, now).0
    case ExecuteOp(adapter, command, now) =>
      if Executable(adapter, command) then ApproveAdapterSettled(t, adapter, command, now).0 else t
    case RevokeOp(device, revision, actor, now) => Revoke(t, device, revision, actor, now).0
    case SettleOp(now) => if SettleExpired(t, now).Some? then SettleExpired(t, now).value else t
    case CreateInviteOp(name, lifetime, actor, newId, secret, now) =>
      CreateInvite(t, name, lifetime, actor, newId, secret, now).0
    case RevokeInviteOp(invite, actor, now) => RevokeInvite(t, invite, actor, now).0
    case ListInvitesOp(actor, now) => ListInvites(t, actor, now)
    case RedeemInviteOp(token, device, name, newId, now) => RedeemInvite(t, token, device, name, newId, now).0
    case PruneFactsOp(now) => PruneFacts(t, now).0
    case PruneReceiptsOp(now) => PruneReceipts(t, now)
    case ProvisionOp(adapter, credential) =>
      t.(registry := Commands.ProvisionAdapter(t.registry, adapter, credential).0)
    case ChangeAdapterOp(adapter, active, rotated) =>
      t.(registry := Commands.ChangeAdapter(t.registry, adapter, active, rotated).0)
    case AdmitOp(adapter, credential, command, enrollment, nowMillis) =>
      t.(registry := Commands.AdmitApprovalCommand(t.registry, adapter, credential, command, enrollment, nowMillis).0)
    case SnapshotOp(adapter, credential, now) => PendingSnapshot(t, adapter, credential, now).0
  }

  /** What `ApproveAdapterCommand` checks before it opens a transaction. */
  predicate Executable(adapter: string, command: string) {
    Commands.ValidAdapterId(adapter) && Commands.CommandId.Canonical(command)
  }

  /** `ListInvites` commits the expiry of invites unless its actor is refused. */
  function ListInvites(t: Tables, actor: Actor, now: Time): Tables {
    if ValidInviteActor(actor) && InviteActorActive(ExpireInvites(t, now), actor) then ExpireInvites(t, now) else t
  }

  /** The one assumption about a run: 128-bit identities drawn at random do not repeat. */
  ghost predicate DrawsFresh(t: Tables, op: Op) {
    match op
    case RequestOp(_, _, _, newId, _) => Unseen(t, newId)
    case RedeemInviteOp(_, _, _, newId, _) => Unseen(t, newId)
    case CreateInviteOp(_, _, _, newId, _, _) => Tally(t.audit, newId, Created) == 0
    case _ => true
  }

  ghost function Run(t: Tables, ops: seq<Op>): Tables
    decreases |ops|
  {
    if ops == [] then t else Run(Apply(t, ops[0]), ops[1..])
  }

  ghost predicate FreshRun(t: Tables, ops: seq<Op>)
    decreases |ops|
  {
    ops == [] || (DrawsFresh(t, ops[0]) && FreshRun(Apply(t, ops[0]), ops[1..]))
  }

  // ---- every reachable state -----------------------------------------------

  lemma ListInvitesKeeps(t: Tables, actor: Actor, now: Time)
    requires Inv(t)
    ensures Inv(ListInvites(t, actor, now)) && Follows(t, ListInvites(t, actor, now))
  {
    assert Follows(t, t) by { ExtendsItself(t); }
    assert Inv(ExpireInvites(t, now)) && Extends(t, ExpireInvites(t, now)) by { ExpireInvitesKeeps(t, now); }
    assert Follows(t, ExpireInvites(t, now)) by { Silent(t, ExpireInvites(t, now)); }
  }

  lemma AdapterChangeKeeps(t: Tables, registry: Commands.Registry)
    requires Inv(t) && registry == t.registry.(adapters := registry.adapters)
    requires forall a :: a in t.registry.adapters ==>
               a in registry.adapters && registry.adapters[a].last == t.registry.adapters[a].last
    ensures Inv(t.(registry := registry)) && Follows(t, t.(registry := registry))
  {
    assert Commands.Transition(t.registry, registry) by { Commands.AdaptersKeep(t.registry, registry.adapters); }
    RegistryKeeps(t, registry);
  }

  lemma AdmitOpKeeps(t: Tables, op: Op)
    requires Inv(t) && op.AdmitOp?
    ensures Inv(Apply(t, op)) && Follows(t, Apply(t, op))
  {
    hide LogInv, Identities, Conserved, RateLimited, Commands.Valid, Commands.Later;
    var g := Commands.AdmitApprovalCommand(t.registry, op.adapter, op.credential, op.command, op.enrollment,
                                           op.nowMillis).0;
    assert Commands.Transition(t.registry, g) && g.commits == t.registry.commits by {
      Commands.AdmissionKeeps(t.registry, op.adapter, op.credential, op.command, op.enrollment, op.nowMillis);
    }
    RegistryKeeps(t, g);
  }

  lemma SettleOpKeeps(t: Tables, op: Op)
    requires Inv(t) && op.SettleOp?
    ensures Inv(Apply(t, op)) && Follows(t, Apply(t, op))
  {
    hide Inv, Follows, SettleExpired;
    SettleExpiredKeeps(t, op.now);
  }

  lemma ApplyEnrollmentKeeps(t: Tables, op: Op)
    requires Inv(t) && DrawsFresh(t, op) && (op.RequestOp? || op.ApproveOp? || op.ExecuteOp?)
    ensures Inv(Apply(t, op)) && Follows(t, Apply(t, op))
  {
    hide Inv, Follows, Request, ApproveSettled, ApproveAdapterSettled, Executable, Text.ValidLabel;
    assert Follows(t, t) by { ExtendsItself(t); }
    match op
    case RequestOp(device, name, code, newId, now) => RequestKeeps(t, device, name, code, newId, now);
    case ApproveOp(code, actor, now) => ApproveSettledKeeps(t, code, actor, now);
    case ExecuteOp(adapter, command, now) => ApproveAdapterSettledKeeps(t, adapter, command, now);
  }

  lemma ApplyKeeps(t: Tables, op: Op)
    requires Inv(t) && DrawsFresh(t, op)
    ensures Inv(Apply(t, op)) && Follows(t, Apply(t, op))
  {
    hide Inv, Follows, Request, ApproveSettled, ApproveAdapterSettled, Revoke, PendingSnapshot, Executable;
    match op
    case RequestOp(_, _, _, _, _) => ApplyEnrollmentKeeps(t, op);
    case ApproveOp(_, _, _) => ApplyEnrollmentKeeps(t, op);
    case ExecuteOp(_, _, _) => ApplyEnrollmentKeeps(t, op);
    case RevokeOp(device, revision, actor, now) => RevokeKeeps(t, device, revision, actor, now);
    case SettleOp(_) => SettleOpKeeps(t, op);
    case CreateInviteOp(_, _, _, _, _, _) => ApplyInviteKeeps(t, op);
    case RevokeInviteOp(_, _, _) => ApplyInviteKeeps(t, op);
    case ListInvitesOp(_, _) => ApplyInviteKeeps(t, op);
    case RedeemInviteOp(_, _, _, _, _) => ApplyInviteKeeps(t, op);
    case PruneFactsOp(_) => ApplyUpkeepKeeps(t, op);
    case PruneReceiptsOp(_) => ApplyUpkeepKeeps(t, op);
    case ProvisionOp(_, _) => ApplyUpkeepKeeps(t, op);
    case ChangeAdapterOp(_, _, _) => ApplyUpkeepKeeps(t, op);
    case AdmitOp(_, _, _, _, _) => AdmitOpKeeps(t, op);
    case SnapshotOp(adapter, credential, now) => PendingSnapshotKeeps(t, adapter, credential, now);
  }

  lemma ApplyInviteKeeps(t: Tables, op: Op)
    requires Inv(t) && DrawsFresh(t, op)
    requires op.CreateInviteOp? || op.RevokeInviteOp? || op.ListInvitesOp? || op.RedeemInviteOp?
    ensures Inv(Apply(t, op)) && Follows(t, Apply(t, op))
  {
    hide Inv, Follows, CreateInvite, RevokeInvite, RedeemInvite;
    match op
    case CreateInviteOp(name, lifetime, actor, newId, secret, now) =>
      CreateInviteKeeps(t, name, lifetime, actor, newId, secret, now);
    case RevokeInviteOp(invite, actor, now) => RevokeInviteKeeps(t, invite, actor, now);
    case ListInvitesOp(actor, now) => ListInvitesKeeps(t, actor, now);
    case RedeemInviteOp(token, device, name, newId, now) => RedeemInviteKeeps(t, token, device, name, newId, now);
  }

  lemma ApplyUpkeepKeeps(t: Tables, op: Op)
    requires Inv(t)
    requires op.PruneFactsOp? || op.PruneReceiptsOp? || op.ProvisionOp? || op.ChangeAdapterOp?
    ensures Inv(Apply(t, op)) && Follows(t, Apply(t, op))
  {
    hide Inv, Follows, AgedPrefix, Commands.PruneFrom;
    match op
    case PruneFactsOp(now) => PruneFactsKeeps(t, now);
    case PruneReceiptsOp(now) => PruneReceiptsKeeps(t, now);
    case ProvisionOp(adapter, credential) =>
      AdapterChangeKeeps(t, Commands.ProvisionAdapter(t.registry, adapter, credential).0);
    case ChangeAdapterOp(adapter, active, rotated) =>
      AdapterChangeKeeps(t, Commands.ChangeAdapter(t.registry, adapter, active, rotated).0);
  }

  /** The invariant holds after every run, and nothing recorded is ever taken back. */
  lemma {:induction false} RunKeeps(t: Tables, ops: seq<Op>)
    requires Inv(t) && FreshRun(t, ops)
    ensures Inv(Run(t, ops)) && Follows(t, Run(t, ops))
    decreases |ops|
  {
    hide Inv, Follows, Apply;
    if ops == [] {
      ExtendsItself(t);
    } else {
      var mid := Apply(t, ops[0]);
      assert Inv(mid) && Follows(t, mid) by { ApplyKeeps(t, ops[0]); }
      assert Inv(Run(mid, ops[1..])) && Follows(mid, Run(mid, ops[1..])) by { RunKeeps(mid, ops[1..]); }
      FollowsIsTransitive(t, mid, Run(mid, ops[1..]));
    }
  }

  lemma TwoSteps(t: Tables, a: Op, b: Op)
    ensures Run(t, [a, b]) == Apply(Apply(t, a), b)
  {
    assert [a, b][1..] == [b] && [b][1..] == [];
    assert Run(t, [a, b]) == Run(Apply(t, a), [b]);
  }

  /**
   The calls that commit twice are runs of two operations: the settlement of expired
   rows, and the transaction of the call. Another client may commit in between.
   */
  lemma CallsAreRuns(t: Tables, device: DeviceId, name: string, code: nat, newId: EnrollmentId, actor: Actor,
                     adapter: string, command: string, now: Time)
    requires Inv(t)
    ensures RequestEnrollment(t, device, name, code, newId, now).0 ==
            (if Text.ValidLabel(name) then Run(t, [SettleOp(now), RequestOp(device, name, code, newId, now)]) else t)
    ensures Approve(t, code, actor, now).0 == Run(t, [SettleOp(now), ApproveOp(code, actor, now)])
    ensures ApproveAdapterCommand(t, adapter, command, now).0 ==
            (if Executable(adapter, command) then Run(t, [SettleOp(now), ExecuteOp(adapter, command, now)]) else t)
  {
    hide Inv, Request, ApproveSettled, ApproveAdapterSettled, SettleExpired, Text.ValidLabel;
    assert SettleExpired(t, now).Some? by { SettleExpiredKeeps(t, now); }
    TwoSteps(t, SettleOp(now), RequestOp(device, name, code, newId, now));
    TwoSteps(t, SettleOp(now), ApproveOp(code, actor, now));
    TwoSteps(t, SettleOp(now), ExecuteOp(adapter, command, now));
  }

  /** Every state a migrated server reaches is sound, whatever members and waiting rows it began with. */
  lemma MigratedServerStaysSound(order: seq<EnrollmentId>, pending: map<EnrollmentId, Pending>,
                                 members: map<DeviceId, Member>, maxPending: nat, ops: seq<Op>)
    requires Migratable(order, pending, members, maxPending) && (forall e :: e in pending ==> e in order)
    requires Identities(pending, members, map[])
    requires FreshRun(Migrated(order, pending, members, maxPending), ops)
    ensures Inv(Run(Migrated(order, pending, members, maxPending), ops))
  {
    hide Inv, Apply;
    MigratedStoreIsSound(order, pending, members, maxPending);
    RunKeeps(Migrated(order, pending, members, maxPending), ops);
  }

  /** The reservation bound after every run. */
  lemma ReservationBoundHolds(t: Tables, ops: seq<Op>)
    requires Inv(t) && FreshRun(t, ops)
    ensures var u := Run(t, ops);
            |u.log.rows| + 2 * |u.pending| + |ActiveMembers(u.members)| <= MAX_FACT_ROWS
  {
    RunKeeps(t, ops);
  }

  /**
   Reservation fails exactly when the free prefix is too short, and then the row
   that stops it is the admission of an enrollment that still waits.
   */
  lemma NoRoomMeansProtected(t: Tables, need: nat)
    requires Inv(t) && need <= 3 && !CanReserve(t.log, t.pending.Keys, |ActiveMembers(t.members)|, need)
    ensures var n := FreePrefix(t.log.rows, t.pending.Keys);
            && n < |t.log.rows|
            && t.log.rows[n].entry.kind.PendingAdmitted? && t.log.rows[n].entry.enrollment in t.pending
  {
    assert Budget(t.log.rows, t.pending, t.members, t.maxPending);
  }

  /** Expiry, approval and revocation are never blocked by what was pruned. */
  lemma SettlementIsNeverBlocked(t: Tables, e: EnrollmentId, d: DeviceId)
    requires Inv(t)
    ensures e in t.pending ==> OrderOk(t.log.rows, PendingExpired, e) && OrderOk(t.log.rows, MemberApproved, e)
    ensures d in t.members && Active(t.members[d]) ==> OrderOk(t.log.rows, MemberRevoked, t.members[d].enrollment)
  {
    if e in t.pending { WaitingCanSettle(t.log, t.pending.Keys, t.members, e); }
    if d in t.members && Active(t.members[d]) { ActiveCanBeRevoked(t.log, t.pending.Keys, t.members, d); }
  }

  // ---- readers -------------------------------------------------------------

  datatype Reading = Done(facts: seq<Fact>) | CursorLost | Refused | Unfinished

  function Prepend(facts: seq<Fact>, rest: Reading): Reading {
    if rest.Done? then Done(facts + rest.facts) else rest
  }

  /**
   A reader that fixed its high-water mark and asks page after page, while the
   store runs a batch of operations before each request.
   */
  ghost function ReadPages(t: Tables, batches: seq<seq<Op>>, cursor: nat, high: nat, limit: nat): Reading
    requires limit > 0
    decreases |batches|
  {
    if cursor >= high then Done([])
    else if batches == [] then Unfinished
    else
      var u := Run(t, batches[0]);
      match ReplayRead(u.log, cursor, high, limit)
      case CursorExpired(_, _) => CursorLost
      case ReplayInvalid => Refused
      case Accepted(page) =>
        Prepend(page.facts, ReadPages(u, batches[1..], cursor + |page.facts|, high, limit))
  }

  ghost predicate FreshBatches(t: Tables, batches: seq<seq<Op>>)
    decreases |batches|
  {
    batches == [] || (FreshRun(t, batches[0]) && FreshBatches(Run(t, batches[0]), batches[1..]))
  }

  lemma SlicesJoin(history: seq<Fact>, a: nat, b: nat, c: nat)
    requires a <= b <= c <= |history|
    ensures history[a..b] + history[b..c] == history[a..c]
  {
  }

  lemma SlicesAgree(earlier: seq<Fact>, later: seq<Fact>, a: nat, b: nat)
    requires earlier <= later && a <= b <= |earlier|
    ensures later[a..b] == earlier[a..b]
  {
  }

  lemma PageInStep(t: Tables, u: Tables, cursor: nat, high: nat, limit: nat)
    requires Inv(u) && Follows(t, u) && cursor < high <= |t.log.history| && 0 < limit <= MAX_FACT_PAGE
    ensures var r := ReplayRead(u.log, cursor, high, limit);
            var next := Min(cursor + limit, high);
            && !r.ReplayInvalid?
            && high <= |u.log.history|
            && (r.Accepted? ==> r.page.facts == t.log.history[cursor..next] && |r.page.facts| == next - cursor)
            && u.log.history[next..high] == t.log.history[next..high]
  {
    ReplayIsHistory(u.log, cursor, high, limit);
    SlicesAgree(t.log.history, u.log.history, cursor, Min(cursor + limit, high));
    SlicesAgree(t.log.history, u.log.history, Min(cursor + limit, high), high);
  }

  /** What `left` requests from `cursor` on give: all facts up to `high`, or a lost cursor. */
  ghost predicate Complete(history: seq<Fact>, r: Reading, cursor: nat, high: nat, left: nat) {
    && (r.Done? ==> cursor <= high <= |history| && r.facts == history[cursor..high])
    && !r.Refused?
    && (left >= high - cursor ==> !r.Unfinished?)
  }

  lemma PrependJoins(history: seq<Fact>, later: seq<Fact>, a: nat, b: nat, c: nat, rest: Reading, left: nat)
    requires a < b <= c <= |history| && c <= |later| && history[b..c] == later[b..c] && left > 0
    requires Complete(later, rest, b, c, left - 1)
    ensures Complete(history, Prepend(history[a..b], rest), a, c, left)
  {
    SlicesJoin(history, a, b, c);
  }

  function PageThen(r: Replay, rest: Reading): Reading {
    match r
    case CursorExpired(_, _) => CursorLost
    case ReplayInvalid => Refused
    case Accepted(page) => Prepend(page.facts, rest)
  }

  lemma ReadOne(t: Tables, batches: seq<seq<Op>>, u: Tables, cursor: nat, next: nat, high: nat, limit: nat,
                rest: Reading)
    requires batches != [] && cursor < high && limit > 0
    requires u == Run(t, batches[0]) && rest == ReadPages(u, batches[1..], next, high, limit)
    requires var r := ReplayRead(u.log, cursor, high, limit); r.Accepted? ==> cursor + |r.page.facts| == next
    ensures ReadPages(t, batches, cursor, high, limit) == PageThen(ReplayRead(u.log, cursor, high, limit), rest)
  {
    hide ReplayRead, Run, Apply;
  }

  /** One request in a later state `u` of `t`, and what the requests after it give. */
  lemma OnePage(t: Tables, u: Tables, cursor: nat, high: nat, limit: nat, rest: Reading, left: nat)
    requires cursor < high <= |t.log.history| && 0 < limit <= MAX_FACT_PAGE && left > 0
    requires Inv(u) && Follows(t, u) && Complete(u.log.history, rest, Min(cursor + limit, high), high, left - 1)
    ensures var r := ReplayRead(u.log, cursor, high, limit);
            && Complete(t.log.history, PageThen(r, rest), cursor, high, left)
            && (r.Accepted? ==> cursor + |r.page.facts| == Min(cursor + limit, high))
  {
    PageInStep(t, u, cursor, high, limit);
    var r := ReplayRead(u.log, cursor, high, limit);
    if r.Accepted? {
      PrependJoins(t.log.history, u.log.history, cursor, Min(cursor + limit, high), high, rest, left);
    }
  }

  /**
   No silent gap: under any interleaving the reader ends with exactly the facts
   ever appended in (cursor, high], in order and once each, or learns that its
   cursor expired. It is never refused, and `high - cursor` requests suffice.
   */
  lemma {:induction false} ReplayHasNoGap(t: Tables, batches: seq<seq<Op>>, cursor: nat, high: nat, limit: nat)
    requires Inv(t) && FreshBatches(t, batches) && cursor <= high <= |t.log.history| && 0 < limit <= MAX_FACT_PAGE &&
             high > 0
    ensures Complete(t.log.history, ReadPages(t, batches, cursor, high, limit), cursor, high, |batches|)
    decreases |batches|
  {
    hide Inv, Apply;
    if cursor < high && batches != [] {
      var u := Run(t, batches[0]);
      assert Inv(u) && Follows(t, u) by { RunKeeps(t, batches[0]); }
      var next := Min(cursor + limit, high);
      var rest := ReadPages(u, batches[1..], next, high, limit);
      ReplayHasNoGap(u, batches[1..], next, high, limit);
      OnePage(t, u, cursor, high, limit, rest, |batches|);
      ReadOne(t, batches, u, cursor, next, high, limit, rest);
    }
  }

  /** A cursor expires only because the store pruned past it. */
  lemma ExpiryMeansPruned(t: Tables, cursor: nat, high: nat, limit: nat)
    requires Inv(t) && 0 < high <= |t.log.history| && cursor <= high && 0 < limit <= MAX_FACT_PAGE
    ensures ReplayRead(t.log, cursor, high, limit).CursorExpired? <==> cursor < t.log.floor
  {
    ReplayIsHistory(t.log, cursor, high, limit);
  }

  /** A completed reading from `cursor` to the end is the slice of the history in between. */
  lemma ReadingIsSlice(u: Tables, batches: seq<seq<Op>>, cursor: nat, limit: nat)
    requires Inv(u) && FreshBatches(u, batches) && cursor <= |u.log.history| && 0 < limit <= MAX_FACT_PAGE
    ensures var k := |u.log.history|;
            var r := ReadPages(u, batches, cursor, k, limit);
            r.Done? ==> r.facts == u.log.history[cursor..k]
  {
    hide Inv, Run, Apply, FreshBatches, ReplayRead;
    var k := |u.log.history|;
    if cursor < k {
      ReplayHasNoGap(u, batches, cursor, k, limit);
    } else {
      assert ReadPages(u, batches, cursor, k, limit) == Done([]);
    }
  }

  lemma FoldOn(earlier: seq<Fact>, later: seq<Fact>)
    requires earlier <= later
    ensures Fold(map[], later) == Fold(Fold(map[], earlier), later[|earlier|..])
  {
    assert later == earlier + later[|earlier|..];
    FoldConcat(map[], earlier, later[|earlier|..]);
  }

  /** In a sound state the log folds to the waiting table, and the high-water mark counts it. */
  lemma LogTells(t: Tables)
    requires Inv(t)
    ensures Fold(map[], t.log.history) == View(t.pending) && HighWater(t.log) == |t.log.history|
    ensures ReadSnapshot(t).rows == View(t.pending) && ReadSnapshot(t).highWater == |t.log.history|
  {
    hide Fold, Lives, Budget, ApprovalsLogged, Identities, Conserved, RateLimited, Commands.Valid,
         Commands.Later;
    HighWaterIsLast(t.log);
  }

  /**
   Snapshot plus replay rebuilds the truth. A snapshot is taken in `t`; the store
   runs on to `u`, where the reader fixes its high-water mark and pages through
   the facts since the snapshot while the store moves on again. If the reading
   completes, folding it into the snapshot gives the waiting table of `u`.
   */
  lemma SnapshotPlusReplay(t: Tables, ops: seq<Op>, batches: seq<seq<Op>>, limit: nat)
    requires Inv(t) && FreshRun(t, ops) && FreshBatches(Run(t, ops), batches) && 0 < limit <= MAX_FACT_PAGE
    ensures var u := Run(t, ops);
            var snapshot := ReadSnapshot(t);
            var r := ReadPages(u, batches, snapshot.highWater, HighWater(u.log), limit);
            r.Done? ==> Fold(snapshot.rows, r.facts) == View(u.pending)
  {
    hide Inv, Run, FreshRun, FreshBatches, ReadPages, ReadSnapshot, Fold, HighWater;
    var u := Run(t, ops);
    assert Inv(u) && t.log.history <= u.log.history by { RunKeeps(t, ops); }
    LogTells(t);
    LogTells(u);
    ReadingIsSlice(u, batches, |t.log.history|, limit);
    FoldOn(t.log.history, u.log.history);
    assert u.log.history[|t.log.history|..|u.log.history|] == u.log.history[|t.log.history|..];
  }

  // ---- commands ------------------------------------------------------------

  /** After every run: admitted identities ascend per adapter, and nothing commits twice. */
  lemma CommandsRunAtMostOnce(t: Tables, ops: seq<Op>, i: nat, j: nat)
    requires Inv(t) && FreshRun(t, ops)
    ensures var g := Run(t, ops).registry;
            && (i < j < |g.admissions| && g.admissions[i].adapter == g.admissions[j].adapter ==>
                  Text.Less(g.admissions[i].command, g.admissions[j].command))
            && (i < j < |g.commits| ==>
                  g.commits[i].key != g.commits[j].key && g.commits[i].enrollment != g.commits[j].enrollment)
  {
    RunKeeps(t, ops);
    var g := Run(t, ops).registry;
    assert Commands.Ascending(g.admissions, i, j) && Commands.CommitsApart(g.commits, i, j);
  }

  /** A settled receipt that is still there after any run is the very same receipt. */
  lemma ReceiptsSettleOnce(t: Tables, ops: seq<Op>, r: Commands.Receipt, x: Commands.Receipt)
    requires Inv(t) && FreshRun(t, ops)
    requires r in t.registry.receipts && x in Run(t, ops).registry.receipts && x.key == r.key
    ensures Commands.Continues(r, x)
  {
    var g, h := t.registry, Run(t, ops).registry;
    assert Commands.Later(g, h) by { RunKeeps(t, ops); }
    SettledStays(g, h, r, x);
  }

  lemma SettledStays(g: Commands.Registry, h: Commands.Registry, r: Commands.Receipt, x: Commands.Receipt)
    requires Commands.Valid(g) && Commands.Later(g, h) && r in g.receipts && x in h.receipts && x.key == r.key
    ensures Commands.Continues(r, x)
  {
    var i :| 0 <= i < |g.receipts| && g.receipts[i] == r;
    assert Commands.RowKnown(g.receipts, g.lastNumber, g.admissions, i);
    assert Commands.Descends(g.receipts, g.admissions, h.receipts, x);
    var y :| y in g.receipts && Commands.Continues(y, x);
    var j :| 0 <= j < |g.receipts| && g.receipts[j] == y;
    assert Commands.RowsApart(g.receipts, i, j) && Commands.RowsApart(g.receipts, j, i);
  }

  lemma FencedAdmission(t: Tables, op: Op)
    requires Commands.Valid(t.registry) && op.AdmitOp?
    requires Commands.Key(op.adapter, op.command) in t.registry.admissions
    ensures Apply(t, op) == t
  {
    hide Commands.AdmitApprovalCommand, Commands.Valid;
    Commands.AdmittedKeyIsNeverReadmitted(t.registry, op.adapter, op.credential, op.command, op.enrollment,
                                          op.nowMillis);
  }

  /** Once admitted, a key stays fenced for good: every later submission of it changes nothing. */
  lemma AdmittedOnceForAll(t: Tables, ops: seq<Op>, op: Op)
    requires Inv(t) && FreshRun(t, ops) && op.AdmitOp?
    requires Commands.Key(op.adapter, op.command) in t.registry.admissions
    ensures Apply(Run(t, ops), op) == Run(t, ops)
  {
    hide Wellformed, Fold, Lives, Budget, ApprovalsLogged, Identities, Conserved, RateLimited, Run, Apply,
         Commands.Valid;
    RunKeeps(t, ops);
    FencedAdmission(Run(t, ops), op);
  }

  /** What the registry may hold in a reachable state, and that receipt_capacity is never answered. */
  lemma ReceiptBoundsHold(t: Tables, ops: seq<Op>, op: Op)
    requires Inv(t) && FreshRun(t, ops) && op.AdmitOp?
    ensures var g := Run(t, ops).registry;
            && |g.receipts| <= Commands.MAX_RECEIPTS
            && Commands.CountAdmitted(g.receipts) <= Commands.MAX_ADMITTED_RECEIPTS
            && Commands.CountAdmittedBy(g.receipts, op.adapter) <= Commands.MAX_ADMITTED_RECEIPTS_PER_ADAPTER
            && Commands.AdmitApprovalCommand(g, op.adapter, op.credential, op.command, op.enrollment, op.nowMillis).1
               != Err(ReceiptCapacity)
  {
    hide Wellformed, Fold, Lives, Budget, ApprovalsLogged, Identities, Conserved, RateLimited, Apply,
         Commands.Screen;
    RunKeeps(t, ops);
    Commands.AdmissionKeeps(Run(t, ops).registry, op.adapter, op.credential, op.command, op.enrollment, op.nowMillis);
  }

  lemma {:induction false} TerminalIsAFact(rows: seq<Fact>, e: EnrollmentId)
    ensures Terminal(rows, e) == None <==>
              MemberApproved !in KindsOf(rows, e) && PendingExpired !in KindsOf(rows, e)
    ensures var k := Terminal(rows, e);
            k.Some? ==> k.value in KindsOf(rows, e) && (k.value.MemberApproved? || k.value.PendingExpired?)
  {
    if rows != [] {
      TerminalIsAFact(rows[..|rows| - 1], e);
    }
  }

  /**
   The late rejection tells the truth: expired and settled_elsewhere each name what
   really happened, and not_pending is given exactly when the log retains neither.
   */
  lemma LateRejectionIsTrue(t: Tables, e: EnrollmentId)
    requires Inv(t)
    ensures match MissingPendingRejection(t.log.rows, e)
            case EnrollmentExpired =>
              KindsOf(t.log.history, e) == [PendingAdmitted, PendingExpired]
            case SettledElsewhere => Approved(t.log.history, e)
            case NotPending => MemberApproved !in KindsOf(t.log.rows, e) && PendingExpired !in KindsOf(t.log.rows, e)
            case MemberCapacity => false
            case InvalidEnrollmentKey => false
  {
    var kept, all := KindsOf(t.log.rows, e), KindsOf(t.log.history, e);
    TerminalIsAFact(t.log.rows, e);
    RetainedKinds(t.log, e);
    assert forall k :: k in kept ==> k in all;
    assert LegalLife(all);
    if PendingExpired in all { assert all == [PendingAdmitted, PendingExpired]; }
  }

  // ---- identities and invites ----------------------------------------------

  /** What may stand behind a label or a device. */
  datatype Holder =
    | HeldByMember(device: DeviceId)
    | HeldByPending(enrollment: EnrollmentId)
    | HeldByInvite(invite: InviteId)

  predicate HasLabel(t: Tables, h: Holder, key: string) {
    match h
    case HeldByMember(d) => d in t.members && KeyOf(t.members[d].name) == key
    case HeldByPending(e) => e in t.pending && KeyOf(t.pending[e].name) == key
    case HeldByInvite(i) => i in t.invites && KeyOf(t.invites[i].name) == key
  }

  predicate HasDevice(t: Tables, h: Holder, device: DeviceId) {
    match h
    case HeldByMember(d) => d in t.members && d == device
    case HeldByPending(e) => e in t.pending && t.pending[e].device == device
    case HeldByInvite(i) => false
  }

  lemma OneHolder(t: Tables, x: Holder, y: Holder)
    requires Identities(t.pending, t.members, t.invites)
    ensures forall key :: HasLabel(t, x, key) && HasLabel(t, y, key) ==> x == y
    ensures forall device :: HasDevice(t, x, device) && HasDevice(t, y, device) ==> x == y
  {
    match (x, y)
    case (HeldByMember(a), HeldByMember(b)) => assert MembersApart(t.members, a, b);
    case (HeldByPending(a), HeldByPending(b)) => assert PendingApart(t.pending, a, b);
    case (HeldByInvite(a), HeldByInvite(b)) => assert InvitesApart(t.invites, a, b);
    case (HeldByMember(a), HeldByPending(b)) => assert MemberNotPending(t.members, t.pending, a, b);
    case (HeldByMember(a), HeldByInvite(b)) => assert InviteNotMember(t.invites, t.members, b, a);
    case (HeldByPending(a), HeldByInvite(b)) => assert InviteNotPending(t.invites, t.pending, b, a);
    case (HeldByPending(a), HeldByMember(b)) => assert MemberNotPending(t.members, t.pending, b, a);
    case (HeldByInvite(a), HeldByMember(b)) => assert InviteNotMember(t.invites, t.members, a, b);
    case (HeldByInvite(a), HeldByPending(b)) => assert InviteNotPending(t.invites, t.pending, a, b);
  }

  /**
   After every run a label, up to case, stands for one thing only: one member, one waiting
   enrollment or one invite. So does a device, and every open invite has an active issuer.
   */
  lemma LabelsStayDisjoint(t: Tables, ops: seq<Op>, x: Holder, y: Holder, key: string, device: DeviceId, i: InviteId)
    requires Inv(t) && FreshRun(t, ops)
    ensures var u := Run(t, ops);
            && (HasLabel(u, x, key) && HasLabel(u, y, key) ==> x == y)
            && (HasDevice(u, x, device) && HasDevice(u, y, device) ==> x == y)
            && (i in u.invites && u.invites[i].issuer.MemberActor? ==> IsActiveMember(u, u.invites[i].issuer.device))
  {
    hide Wellformed, Fold, Lives, Budget, ApprovalsLogged, Conserved, RateLimited, Commands.Valid,
         Commands.Later, Apply;
    RunKeeps(t, ops);
    var u := Run(t, ops);
    OneHolder(u, x, y);
    assert IssuerActive(u.invites, u.members, i);
  }

  /**
   Invites are conserved one by one and in total, none is redeemed twice, and no
   member creates more than five in any sixty seconds. The clock may step back:
   the rate query counts records by their time, not by their order.
   */
  lemma InvitesAreConserved(t: Tables, ops: seq<Op>, id: InviteId, device: DeviceId, lo: Time)
    requires Inv(t) && FreshRun(t, ops)
    ensures var u := Run(t, ops);
            && Tally(u.audit, id, Redeemed) + Tally(u.audit, id, Revoked) + Tally(u.audit, id, Expired) <= 1
            && Total(u.audit, Created) ==
               |u.invites| + Total(u.audit, Redeemed) + Total(u.audit, Revoked) + Total(u.audit, Expired)
            && CreatedWithin(u.audit, device, lo, lo + 60) <= MAX_MEMBER_INVITE_CREATES_PER_MINUTE
  {
    hide Wellformed, Fold, Lives, Budget, ApprovalsLogged, Identities, Commands.Valid, Commands.Later, Apply;
    RunKeeps(t, ops);
    var u := Run(t, ops);
    assert InviteBalanced(u.invites, u.audit, id);
    assert WindowOk(u.audit, device, lo);
  }

  /** Committed facts always ring: whenever a run appends a fact, it also notifies. */
  lemma CommittedFactsRing(t: Tables, ops: seq<Op>)
    requires Inv(t) && FreshRun(t, ops)
    ensures |Run(t, ops).log.history| > |t.log.history| ==> Run(t, ops).bells > t.bells
  {
    RunKeeps(t, ops);
  }
}
