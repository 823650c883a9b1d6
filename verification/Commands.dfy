/**
 Adapter approval commands: admission behind a permanent per-adapter high-water
 mark, settlement, and bounded retention of receipts.
 */
module Commands {
  import opened Basics
  import opened Outcomes
  import Text
  import CommandId

  const MAX_ADAPTERS := 64
  const MAX_RECEIPTS := 16384
  const MAX_ADMITTED_RECEIPTS := 1024
  const MAX_ADMITTED_RECEIPTS_PER_ADAPTER := 64
  const RECEIPT_RETENTION := 30 * 24 * 3600

  type EnrollmentId = nat

  datatype Adapter = Adapter(active: bool, credential: nat, last: Option<string>)

  datatype Key = Key(adapter: string, command: string)

  /** One execution: which command approved which enrollment. */
  datatype Commit = Commit(key: Key, enrollment: EnrollmentId)

  datatype Rejection = EnrollmentExpired | SettledElsewhere | NotPending | MemberCapacity | InvalidEnrollmentKey

  datatype State =
    | Admitted
    | Committed(settledAt: Time, device: nat, name: string, revision: nat)
    | Rejected(settledAt: Time, code: Rejection)

  datatype Receipt = Receipt(key: Key, number: nat, enrollment: EnrollmentId, admittedAt: Time, state: State)

  /**
   `receipts` is the receipt table in ascending receipt_seq; `lastNumber` its
   autoincrement counter. `admissions` and `commits` are not stored by the
   program: they remember every key ever admitted and every execution that committed.
   */
  datatype Registry = Registry(adapters: map<string, Adapter>, receipts: seq<Receipt>, lastNumber: nat,
                               admissions: seq<Key>, commits: seq<Commit>)

  const EmptyRegistry := Registry(map[], [], 0, [], [])

  /** `^[a-z0-9][a-z0-9._-]{0,63}$` */
  predicate ValidAdapterId(id: string) {
    && 1 <= |id| <= 64
    && ('a' <= id[0] <= 'z' || Text.IsDigit(id[0]))
    && forall i :: 0 < i < |id| ==> 'a' <= id[i] <= 'z' || Text.IsDigit(id[i]) || id[i] in "._-"
  }

  /** The fact `authorizeAdapterRead` establishes: known, active, current credential. */
  predicate Authorized(g: Registry, adapter: string, credential: nat) {
    adapter in g.adapters && g.adapters[adapter].active && g.adapters[adapter].credential == credential
  }

  // ---- the receipt table ---------------------------------------------------

  function Lookup(rows: seq<Receipt>, key: Key): (r: Option<Receipt>)
    ensures r.Some? ==> r.value in rows && r.value.key == key
    ensures r.None? ==> forall x :: x in rows ==> x.key != key
  {
    if rows == [] then None
    else if rows[0].key == key then Some(rows[0])
    else Lookup(rows[1..], key)
  }

  function CountAdmitted(rows: seq<Receipt>): (n: nat)
    ensures n <= |rows|
  {
    if rows == [] then 0
    else CountAdmitted(rows[..|rows| - 1]) + (if rows[|rows| - 1].state.Admitted? then 1 else 0)
  }

  function CountAdmittedBy(rows: seq<Receipt>, adapter: string): nat {
    if rows == [] then 0
    else
      var r := rows[|rows| - 1];
      CountAdmittedBy(rows[..|rows| - 1], adapter) + (if r.state.Admitted? && r.key.adapter == adapter then 1 else 0)
  }

  /** The oldest row that is no longer admitted. */
  function OldestSettled(rows: seq<Receipt>): (i: nat)
    ensures i <= |rows|
    ensures forall j :: 0 <= j < i ==> rows[j].state.Admitted?
    ensures i < |rows| ==> !rows[i].state.Admitted?
  {
    if rows == [] || !rows[0].state.Admitted? then 0
    else
      var rest := OldestSettled(rows[1..]);
      assert forall j :: 0 < j < 1 + rest ==> rows[j] == rows[1..][j - 1];
      1 + rest
  }

  function RemoveAt(rows: seq<Receipt>, i: nat): (r: seq<Receipt>)
    requires i < |rows|
    ensures |r| == |rows| - 1
    ensures forall j :: 0 <= j < |r| ==> r[j] == rows[if j < i then j else j + 1]
  {
    rows[..i] + rows[i + 1..]
  }

  /** `rejectAdmittedApprovalCommands`, with the executing command left out. */
  function RejectRow(r: Receipt, e: EnrollmentId, code: Rejection, now: Time, except: Option<Key>): Receipt {
    if r.enrollment == e && r.state.Admitted? && Some(r.key) != except then r.(state := Rejected(now, code)) else r
  }

  function RejectAdmitted(rows: seq<Receipt>, e: EnrollmentId, code: Rejection, now: Time,
                          except: Option<Key>): (r: seq<Receipt>)
    ensures |r| == |rows|
    ensures forall i :: 0 <= i < |r| ==> r[i] == RejectRow(rows[i], e, code, now, except)
  {
    seq(|rows|, i requires 0 <= i < |rows| => RejectRow(rows[i], e, code, now, except))
  }

  /** Settle one admitted row by key. */
  function SettleRow(r: Receipt, key: Key, state: State): Receipt {
    if r.key == key && r.state.Admitted? then r.(state := state) else r
  }

  function Settle(rows: seq<Receipt>, key: Key, state: State): (r: seq<Receipt>)
    ensures |r| == |rows|
    ensures forall i :: 0 <= i < |r| ==> r[i] == SettleRow(rows[i], key, state)
  {
    seq(|rows|, i requires 0 <= i < |rows| => SettleRow(rows[i], key, state))
  }

  function RejectFor(g: Registry, e: EnrollmentId, code: Rejection, now: Time, except: Option<Key>): Registry {
    g.(receipts := RejectAdmitted(g.receipts, e, code, now, except))
  }

  function RejectOne(g: Registry, key: Key, code: Rejection, now: Time): Registry {
    g.(receipts := Settle(g.receipts, key, Rejected(now, code)))
  }

  /** The executing command commits and its competitors are rejected. */
  function CommitFor(g: Registry, e: EnrollmentId, key: Key, device: nat, name: string, now: Time): Registry {
    var settled := Settle(g.receipts, key, Committed(now, device, name, 1));
    g.(receipts := RejectAdmitted(settled, e, SettledElsewhere, now, Some(key)),
       commits := g.commits + [Commit(key, e)])
  }

  // ---- operations ----------------------------------------------------------

  function ProvisionAdapter(g: Registry, adapter: string, credential: nat): (Registry, Result<()>) {
    if !ValidAdapterId(adapter) then (g, Err(AdapterInvalid))
    else if adapter in g.adapters then (g, Err(AdapterInvalid))
    else if |g.adapters| >= MAX_ADAPTERS then (g, Err(AdapterCapacity))
    else (g.(adapters := g.adapters[adapter := Adapter(true, credential, None)]), Ok(()))
  }

  /** `SetAdapterActive` and `RotateAdapterCredential` keep the high-water mark. */
  function ChangeAdapter(g: Registry, adapter: string, active: Option<bool>, credential: Option<nat>)
    : (Registry, Result<()>)
  {
    if !ValidAdapterId(adapter) || adapter !in g.adapters then (g, Err(AdapterInvalid))
    else
      var a := g.adapters[adapter];
      var b := a.(active := if active.Some? then active.value else a.active,
                  credential := if credential.Some? then credential.value else a.credential);
      (g.(adapters := g.adapters[adapter := b]), Ok(()))
  }

  /** Room for one more row: unchanged below the cap, otherwise the oldest settled row goes. */
  function MakeRoom(rows: seq<Receipt>): Option<seq<Receipt>> {
    if |rows| < MAX_RECEIPTS then Some(rows)
    else
      var i := OldestSettled(rows);
      if i == |rows| then None else Some(RemoveAt(rows, i))
  }

  /** How the checks of an admission end: with an answer, or with leave to insert. */
  datatype Verdict = Answer(result: Result<Receipt>) | Admissible

  function Screen(g: Registry, adapter: string, credential: nat, command: string,
                  enrollment: Option<EnrollmentId>, nowMillis: int): Verdict
  {
    if !ValidAdapterId(adapter) then Answer(Err(AdapterInvalid))
    else if !CommandId.Canonical(command) then Answer(Err(CommandInvalid))
    else if !Authorized(g, adapter, credential) then Answer(Err(AdapterUnauthorized))
    else
      var issued := CommandId.IssuedAt(command);
      var last := g.adapters[adapter].last;
      match Lookup(g.receipts, Key(adapter, command))
      case Some(r) => Answer(if enrollment == Some(r.enrollment) then Ok(r) else Err(RequestConflict))
      case None =>
        if enrollment.None? then Answer(Err(EnrollmentInvalid))
        else if last.Some? && Text.AtMost(command, last.value) then Answer(Err(ReceiptExpired))
        else if issued > nowMillis + 5 * 60 * 1000 then Answer(Err(CommandTimeInvalid))
        else if issued <= nowMillis - RECEIPT_RETENTION * 1000 then Answer(Err(ReceiptExpired))
        else if CountAdmitted(g.receipts) >= MAX_ADMITTED_RECEIPTS ||
                CountAdmittedBy(g.receipts, adapter) >= MAX_ADMITTED_RECEIPTS_PER_ADAPTER
        then Answer(Err(CommandCapacity))
        else Admissible
  }

  /** Insert an admissible command, evicting if the table is full. */
  function Conclude(g: Registry, key: Key, enrollment: Option<EnrollmentId>, now: Time, verdict: Verdict)
    : (Registry, Result<Receipt>)
    requires verdict.Admissible? ==> enrollment.Some? && key.adapter in g.adapters
  {
    match verdict
    case Answer(result) => (g, result)
    case Admissible =>
      match MakeRoom(g.receipts)
      case None => (g, Err(ReceiptCapacity))
      case Some(rows) =>
        var r := Receipt(key, g.lastNumber + 1, enrollment.value, now, Admitted);
        (Record(g, rows, r), Ok(r))
  }

  /**
   `AdmitApprovalCommand`. The fingerprint of a command is taken to be injective,
   so comparing fingerprints under one key compares enrollment texts; a malformed
   enrollment text is `None`.
   */
  function AdmitApprovalCommand(g: Registry, adapter: string, credential: nat, command: string,
                                enrollment: Option<EnrollmentId>, nowMillis: int): (Registry, Result<Receipt>)
  {
    Conclude(g, Key(adapter, command), enrollment, nowMillis / 1000,
             Screen(g, adapter, credential, command, enrollment, nowMillis))
  }

  /** Insert the receipt and advance the adapter's high-water mark. */
  function Record(g: Registry, rows: seq<Receipt>, r: Receipt): Registry
    requires r.key.adapter in g.adapters
  {
    var a := r.key.adapter;
    Registry(g.adapters[a := g.adapters[a].(last := Some(r.key.command))], rows + [r], r.number,
             g.admissions + [r.key], g.commits)
  }

  /** `queryCommand` */
  function QueryCommand(g: Registry, adapter: string, command: string): Result<Receipt> {
    match Lookup(g.receipts, Key(adapter, command))
    case Some(r) => Ok(r)
    case None =>
      if adapter !in g.adapters then Err(AdapterUnauthorized)
      else if g.adapters[adapter].last.Some? && Text.AtMost(command, g.adapters[adapter].last.value)
      then Err(ReceiptExpired)
      else Err(ReceiptNotFound)
  }

  predicate OutOfDate(r: Receipt, cutoff: Time) {
    !r.state.Admitted? && r.state.settledAt <= cutoff
  }

  /** `PruneReceipts`: every settled row at or before the cutoff goes. */
  function PruneFrom(rows: seq<Receipt>, i: nat, cutoff: Time): seq<Receipt>
    requires i <= |rows|
    decreases |rows| - i
  {
    if i == |rows| then rows
    else if OutOfDate(rows[i], cutoff) then PruneFrom(RemoveAt(rows, i), i, cutoff)
    else PruneFrom(rows, i + 1, cutoff)
  }

  function PruneReceipts(g: Registry, now: Time): Registry {
    g.(receipts := PruneFrom(g.receipts, 0, now - RECEIPT_RETENTION))
  }

  // ---- what every operation keeps ------------------------------------------

  ghost predicate RowsApart(rows: seq<Receipt>, i: nat, j: nat) {
    i < j < |rows| ==> rows[i].number < rows[j].number && rows[i].key != rows[j].key
  }

  ghost predicate RowKnown(rows: seq<Receipt>, lastNumber: nat, admissions: seq<Key>, i: nat) {
    i < |rows| ==> rows[i].number <= lastNumber && rows[i].key in admissions
  }

  /** Receipts are numbered upwards, keyed once, and every key was admitted. */
  ghost predicate Keyed(rows: seq<Receipt>, lastNumber: nat, admissions: seq<Key>) {
    && (forall i, j :: RowsApart(rows, i, j))
    && (forall i :: RowKnown(rows, lastNumber, admissions, i))
  }

  ghost predicate Ascending(admissions: seq<Key>, i: nat, j: nat) {
    i < j < |admissions| && admissions[i].adapter == admissions[j].adapter ==>
      Text.Less(admissions[i].command, admissions[j].command)
  }

  ghost predicate Below(k: Key, admissions: seq<Key>, adapters: map<string, Adapter>) {
    k in admissions ==>
      && k.adapter in adapters && adapters[k.adapter].last.Some?
      && Text.AtMost(k.command, adapters[k.adapter].last.value)
  }

  /** Admitted identities only grow, and the stored mark bounds all of them. */
  ghost predicate Fenced(admissions: seq<Key>, adapters: map<string, Adapter>) {
    && (forall i, j :: Ascending(admissions, i, j))
    && (forall k :: Below(k, admissions, adapters))
  }

  ghost predicate Bounded(rows: seq<Receipt>) {
    && |rows| <= MAX_RECEIPTS
    && CountAdmitted(rows) <= MAX_ADMITTED_RECEIPTS
    && forall a :: CountAdmittedBy(rows, a) <= MAX_ADMITTED_RECEIPTS_PER_ADAPTER
  }

  ghost predicate Agrees(r: Receipt, commits: seq<Commit>) {
    && (r.state.Committed? ==> Commit(r.key, r.enrollment) in commits)
    && (forall c :: c in commits && c.key == r.key ==> r.state.Committed? && c.enrollment == r.enrollment)
  }

  ghost predicate RowAgrees(rows: seq<Receipt>, commits: seq<Commit>, r: Receipt) {
    r in rows ==> Agrees(r, commits)
  }

  ghost predicate CommitsApart(commits: seq<Commit>, i: nat, j: nat) {
    i < j < |commits| ==> commits[i].key != commits[j].key
  }

  ghost predicate CommitKnown(commits: seq<Commit>, admissions: seq<Key>, c: Commit) {
    c in commits ==> c.key in admissions
  }

  /** No key commits twice, and a retained receipt is committed exactly if its key ever was. */
  ghost predicate CommittedOnce(rows: seq<Receipt>, commits: seq<Commit>, admissions: seq<Key>) {
    && (forall r :: RowAgrees(rows, commits, r))
    && (forall i, j :: CommitsApart(commits, i, j))
    && (forall c :: CommitKnown(commits, admissions, c))
  }

  ghost predicate Valid(g: Registry) {
    && Keyed(g.receipts, g.lastNumber, g.admissions)
    && Fenced(g.admissions, g.adapters)
    && Bounded(g.receipts)
    && CommittedOnce(g.receipts, g.commits, g.admissions)
  }

  /** The same receipt later on: settled receipts are frozen. */
  ghost predicate Continues(r: Receipt, later: Receipt) {
    later == r.(state := later.state) && (!r.state.Admitted? ==> later == r)
  }

  ghost predicate ContinuesSome(rows: seq<Receipt>, x: Receipt) {
    exists r :: r in rows && Continues(r, x)
  }

  ghost predicate Retained(r: Receipt, rows: seq<Receipt>) {
    exists x :: x in rows && Continues(r, x)
  }

  ghost predicate Descends(rows: seq<Receipt>, admissions: seq<Key>, after: seq<Receipt>, x: Receipt) {
    x in after && x.key in admissions ==> ContinuesSome(rows, x)
  }

  /** A row of a key admitted before continues the row the key had then. */
  ghost predicate NoRevival(rows: seq<Receipt>, admissions: seq<Key>, after: seq<Receipt>) {
    forall x :: Descends(rows, admissions, after, x)
  }

  /**
   Any later registry: keys stay admitted for good, an admitted key that still has
   a row continues the row it had, and a key without a row never gets one again.
   */
  ghost predicate Later(g: Registry, h: Registry) {
    && g.admissions <= h.admissions
    && g.commits <= h.commits
    && NoRevival(g.receipts, g.admissions, h.receipts)
  }

  /** One transaction: nothing admitted is dropped. */
  ghost predicate Survives(rows: seq<Receipt>, after: seq<Receipt>, r: Receipt) {
    r in rows && r.state.Admitted? ==> Retained(r, after)
  }

  ghost predicate KeepsAdmitted(rows: seq<Receipt>, after: seq<Receipt>) {
    forall r :: Survives(rows, after, r)
  }

  /** What one transaction may do to the registry. */
  ghost predicate Transition(g: Registry, h: Registry) {
    Valid(h) && Later(g, h) && KeepsAdmitted(g.receipts, h.receipts)
  }

  lemma LaterIsTransitive(a: Registry, b: Registry, c: Registry)
    requires Later(a, b) && Later(b, c)
    ensures Later(a, c)
  {
    forall x ensures Descends(a.receipts, a.admissions, c.receipts, x) {
      if x in c.receipts && x.key in a.admissions {
        assert Descends(b.receipts, b.admissions, c.receipts, x);
        var y :| y in b.receipts && Continues(y, x);
        assert Descends(a.receipts, a.admissions, b.receipts, y);
        var r :| r in a.receipts && Continues(r, y);
        assert Continues(r, x);
      }
    }
  }

  lemma SameRowsKeep(rows: seq<Receipt>, after: seq<Receipt>, admissions: seq<Key>)
    requires forall x :: x in after ==> x in rows
    requires forall r :: r in rows && r.state.Admitted? ==> r in after
    ensures NoRevival(rows, admissions, after) && KeepsAdmitted(rows, after)
  {
    forall x ensures Descends(rows, admissions, after, x) { assert Continues(x, x); }
    forall r ensures Survives(rows, after, r) { assert Continues(r, r); }
  }

  lemma NoChange(g: Registry)
    requires Valid(g)
    ensures Transition(g, g)
  {
    SameRowsKeep(g.receipts, g.receipts, g.admissions);
  }

  // rows changed in place

  ghost predicate InPlace(rows: seq<Receipt>, after: seq<Receipt>) {
    |after| == |rows| && forall i :: 0 <= i < |rows| ==> Continues(rows[i], after[i])
  }

  lemma {:induction false} InPlaceCounts(rows: seq<Receipt>, after: seq<Receipt>, a: string)
    requires InPlace(rows, after)
    ensures CountAdmitted(after) <= CountAdmitted(rows)
    ensures CountAdmittedBy(after, a) <= CountAdmittedBy(rows, a)
  {
    if rows != [] {
      var n := |rows| - 1;
      assert Continues(rows[n], after[n]);
      InPlaceCounts(rows[..n], after[..n], a);
    }
  }

  lemma InPlaceBounded(rows: seq<Receipt>, after: seq<Receipt>)
    requires InPlace(rows, after) && Bounded(rows)
    ensures Bounded(after)
  {
    InPlaceCounts(rows, after, "");
    forall a ensures CountAdmittedBy(after, a) <= MAX_ADMITTED_RECEIPTS_PER_ADAPTER {
      InPlaceCounts(rows, after, a);
    }
  }

  lemma InPlaceKeyed(rows: seq<Receipt>, after: seq<Receipt>, lastNumber: nat, admissions: seq<Key>)
    requires InPlace(rows, after) && Keyed(rows, lastNumber, admissions)
    ensures Keyed(after, lastNumber, admissions)
  {
    forall i: nat, j: nat ensures RowsApart(after, i, j) {
      assert RowsApart(rows, i, j);
      if i < j < |after| { assert Continues(rows[i], after[i]) && Continues(rows[j], after[j]); }
    }
    forall i: nat ensures RowKnown(after, lastNumber, admissions, i) {
      assert RowKnown(rows, lastNumber, admissions, i);
      if i < |after| { assert Continues(rows[i], after[i]); }
    }
  }

  lemma InPlaceContinues(rows: seq<Receipt>, after: seq<Receipt>, admissions: seq<Key>)
    requires InPlace(rows, after)
    ensures NoRevival(rows, admissions, after) && KeepsAdmitted(rows, after)
  {
    forall r ensures Survives(rows, after, r) {
      if r in rows {
        var i :| 0 <= i < |rows| && rows[i] == r;
        assert after[i] in after;
      }
    }
    forall x ensures Descends(rows, admissions, after, x) {
      if x in after {
        var i :| 0 <= i < |after| && after[i] == x;
        assert rows[i] in rows;
      }
    }
  }

  lemma InPlaceKeeps(g: Registry, after: seq<Receipt>, commits: seq<Commit>)
    requires Valid(g) && InPlace(g.receipts, after) && g.commits <= commits
    requires CommittedOnce(after, commits, g.admissions)
    ensures Transition(g, g.(receipts := after, commits := commits))
  {
    InPlaceKeyed(g.receipts, after, g.lastNumber, g.admissions);
    InPlaceBounded(g.receipts, after);
    InPlaceContinues(g.receipts, after, g.admissions);
  }

  /** Rejections leave every commit where it is. */
  lemma RejectionsCommitNothing(rows: seq<Receipt>, after: seq<Receipt>, commits: seq<Commit>, admissions: seq<Key>)
    requires CommittedOnce(rows, commits, admissions) && InPlace(rows, after)
    requires forall i :: 0 <= i < |rows| ==> (after[i].state.Committed? <==> rows[i].state.Committed?)
    ensures CommittedOnce(after, commits, admissions)
  {
    forall x ensures RowAgrees(after, commits, x) {
      if x in after {
        var i :| 0 <= i < |after| && after[i] == x;
        assert rows[i] in rows && Continues(rows[i], after[i]);
        assert RowAgrees(rows, commits, rows[i]);
      }
    }
  }

  /** Exactly the other admitted commands of the enrollment are settled; every other receipt stays. */
  lemma RejectForKeeps(g: Registry, e: EnrollmentId, code: Rejection, now: Time, except: Option<Key>)
    requires Valid(g)
    ensures Transition(g, RejectFor(g, e, code, now, except))
    ensures forall x :: x in RejectFor(g, e, code, now, except).receipts && x.enrollment == e && x.state.Admitted? ==>
              Some(x.key) == except
    ensures forall r :: r in g.receipts && (r.enrollment != e || !r.state.Admitted? || Some(r.key) == except) ==>
              r in RejectFor(g, e, code, now, except).receipts
  {
    var after := RejectAdmitted(g.receipts, e, code, now, except);
    RejectionsCommitNothing(g.receipts, after, g.commits, g.admissions);
    InPlaceKeeps(g, after, g.commits);
    forall r | r in g.receipts && (r.enrollment != e || !r.state.Admitted? || Some(r.key) == except)
      ensures r in after
    {
      var i :| 0 <= i < |g.receipts| && g.receipts[i] == r;
      assert after[i] == r;
    }
  }

  /** One admitted command is rejected; every other receipt stays. */
  lemma RejectOneKeeps(g: Registry, key: Key, code: Rejection, now: Time)
    requires Valid(g)
    ensures Transition(g, RejectOne(g, key, code, now))
    ensures forall r :: r in g.receipts ==>
              (if r.key == key && r.state.Admitted? then r.(state := Rejected(now, code)) else r)
              in RejectOne(g, key, code, now).receipts
  {
    var after := Settle(g.receipts, key, Rejected(now, code));
    RejectionsCommitNothing(g.receipts, after, g.commits, g.admissions);
    InPlaceKeeps(g, after, g.commits);
    forall r | r in g.receipts ensures SettleRow(r, key, Rejected(now, code)) in after {
      var i :| 0 <= i < |g.receipts| && g.receipts[i] == r;
      assert after[i] == SettleRow(r, key, Rejected(now, code));
    }
  }

  function CommitRow(x: Receipt, e: EnrollmentId, key: Key, state: State, now: Time): Receipt {
    RejectRow(SettleRow(x, key, state), e, SettledElsewhere, now, Some(key))
  }

  lemma CommitForRows(g: Registry, e: EnrollmentId, key: Key, device: nat, name: string, now: Time)
    ensures var after := CommitFor(g, e, key, device, name, now).receipts;
            && |after| == |g.receipts|
            && forall i :: 0 <= i < |after| ==>
                 after[i] == CommitRow(g.receipts[i], e, key, Committed(now, device, name, 1), now)
  {
    var settled := Settle(g.receipts, key, Committed(now, device, name, 1));
    var after := RejectAdmitted(settled, e, SettledElsewhere, now, Some(key));
    forall i | 0 <= i < |after|
      ensures after[i] == CommitRow(g.receipts[i], e, key, Committed(now, device, name, 1), now)
    {
      assert after[i] == RejectRow(settled[i], e, SettledElsewhere, now, Some(key));
    }
  }

  /** An admitted row's key has no commit yet. */
  lemma AdmittedNeverCommitted(g: Registry, r: Receipt)
    requires Valid(g) && r in g.receipts && r.state.Admitted?
    ensures forall c :: c in g.commits ==> c.key != r.key
  {
    assert RowAgrees(g.receipts, g.commits, r);
  }

  lemma NewCommitApart(commits: seq<Commit>, c: Commit)
    requires forall i, j :: CommitsApart(commits, i, j)
    requires forall x :: x in commits ==> x.key != c.key
    ensures forall i, j :: CommitsApart(commits + [c], i, j)
  {
    var after := commits + [c];
    forall i: nat, j: nat ensures CommitsApart(after, i, j) {
      assert CommitsApart(commits, i, j);
      assert i < |commits| ==> after[i] in commits;
    }
  }

  /** In a table keyed once, the committed row is the only one its key has. */
  lemma CommitIsOnce(g: Registry, at: nat, device: nat, name: string, now: Time)
    requires Valid(g) && at < |g.receipts| && g.receipts[at].state.Admitted?
    ensures var r := g.receipts[at];
            var h := CommitFor(g, r.enrollment, r.key, device, name, now);
            CommittedOnce(h.receipts, h.commits, g.admissions)
  {
    var r := g.receipts[at];
    var h := CommitFor(g, r.enrollment, r.key, device, name, now);
    CommitForRows(g, r.enrollment, r.key, device, name, now);
    assert r in g.receipts;
    forall x ensures RowAgrees(h.receipts, h.commits, x) {
      if x in h.receipts {
        var i :| 0 <= i < |h.receipts| && h.receipts[i] == x;
        var was := g.receipts[i];
        assert was in g.receipts && RowAgrees(g.receipts, g.commits, was);
        assert RowsApart(g.receipts, i, at) && RowsApart(g.receipts, at, i);
      }
    }
    AdmittedNeverCommitted(g, r);
    NewCommitApart(g.commits, Commit(r.key, r.enrollment));
    forall c ensures CommitKnown(h.commits, g.admissions, c) {
      assert CommitKnown(g.commits, g.admissions, c);
      assert RowKnown(g.receipts, g.lastNumber, g.admissions, at);
    }
  }

  lemma CommitSettlesEverybody(g: Registry, e: EnrollmentId, at: nat, device: nat, name: string, now: Time)
    requires at < |g.receipts| && g.receipts[at].state.Admitted?
    ensures var r := g.receipts[at];
            var h := CommitFor(g, e, r.key, device, name, now);
            && r.(state := Committed(now, device, name, 1)) in h.receipts
            && InPlace(g.receipts, h.receipts)
            && forall x :: x in h.receipts && x.enrollment == e ==> !x.state.Admitted?
  {
    var r := g.receipts[at];
    var h := CommitFor(g, e, r.key, device, name, now);
    CommitForRows(g, e, r.key, device, name, now);
    assert h.receipts[at] == r.(state := Committed(now, device, name, 1));
  }

  /** The commit is the key's first, and afterwards nobody is left admitted for the enrollment. */
  lemma CommitForKeeps(g: Registry, r: Receipt, device: nat, name: string, now: Time)
    requires Valid(g) && r in g.receipts && r.state.Admitted?
    ensures var h := CommitFor(g, r.enrollment, r.key, device, name, now);
            && Transition(g, h) && (forall c :: c in g.commits ==> c.key != r.key)
            && r.(state := Committed(now, device, name, 1)) in h.receipts
            && forall x :: x in h.receipts && x.enrollment == r.enrollment ==> !x.state.Admitted?
  {
    var h := CommitFor(g, r.enrollment, r.key, device, name, now);
    var at :| 0 <= at < |g.receipts| && g.receipts[at] == r;
    CommitSettlesEverybody(g, r.enrollment, at, device, name, now);
    AdmittedNeverCommitted(g, r);
    assert Transition(g, h) by {
      CommitIsOnce(g, at, device, name, now);
      InPlaceKeeps(g, h.receipts, h.commits);
    }
  }

  // rows removed

  lemma {:induction false} RemoveAtCounts(rows: seq<Receipt>, i: nat, a: string)
    requires i < |rows|
    ensures CountAdmitted(RemoveAt(rows, i)) <= CountAdmitted(rows)
    ensures CountAdmittedBy(RemoveAt(rows, i), a) <= CountAdmittedBy(rows, a)
  {
    var n := |rows| - 1;
    var after := RemoveAt(rows, i);
    if i == n {
      assert after == rows[..n];
    } else {
      assert after[..|after| - 1] == RemoveAt(rows[..n], i);
      RemoveAtCounts(rows[..n], i, a);
    }
  }

  lemma RemoveAtBounded(rows: seq<Receipt>, i: nat)
    requires i < |rows| && Bounded(rows)
    ensures Bounded(RemoveAt(rows, i))
  {
    RemoveAtCounts(rows, i, "");
    forall a ensures CountAdmittedBy(RemoveAt(rows, i), a) <= MAX_ADMITTED_RECEIPTS_PER_ADAPTER {
      RemoveAtCounts(rows, i, a);
    }
  }

  lemma RemoveAtMembers(rows: seq<Receipt>, i: nat)
    requires i < |rows|
    ensures forall x :: x in RemoveAt(rows, i) ==> x in rows
    ensures forall r :: r in rows && r != rows[i] ==> r in RemoveAt(rows, i)
  {
    var after := RemoveAt(rows, i);
    forall x | x in after ensures x in rows {
      var j :| 0 <= j < |after| && after[j] == x;
    }
    forall r | r in rows && r != rows[i] ensures r in after {
      var j :| 0 <= j < |rows| && rows[j] == r;
      assert after[if j < i then j else j - 1] == r;
    }
  }

  lemma RemoveAtKeyed(rows: seq<Receipt>, i: nat, lastNumber: nat, admissions: seq<Key>)
    requires i < |rows| && Keyed(rows, lastNumber, admissions)
    ensures Keyed(RemoveAt(rows, i), lastNumber, admissions)
  {
    var after := RemoveAt(rows, i);
    forall a: nat, b: nat ensures RowsApart(after, a, b) {
      assert RowsApart(rows, if a < i then a else a + 1, if b < i then b else b + 1);
    }
    forall a: nat ensures RowKnown(after, lastNumber, admissions, a) {
      assert RowKnown(rows, lastNumber, admissions, if a < i then a else a + 1);
    }
  }

  lemma RemoveSettledKeeps(g: Registry, i: nat)
    requires Valid(g) && i < |g.receipts| && !g.receipts[i].state.Admitted?
    ensures Transition(g, g.(receipts := RemoveAt(g.receipts, i)))
  {
    var after := RemoveAt(g.receipts, i);
    RemoveAtBounded(g.receipts, i);
    RemoveAtMembers(g.receipts, i);
    SameRowsKeep(g.receipts, after, g.admissions);
    RemoveAtKeyed(g.receipts, i, g.lastNumber, g.admissions);
    forall r ensures RowAgrees(after, g.commits, r) { assert RowAgrees(g.receipts, g.commits, r); }
  }

  lemma {:induction false} PruneFromKeeps(g: Registry, i: nat, cutoff: Time)
    requires Valid(g) && i <= |g.receipts|
    ensures var after := PruneFrom(g.receipts, i, cutoff);
            && Transition(g, g.(receipts := after))
            && (forall x :: x in after ==> x in g.receipts)
            && (forall r :: r in g.receipts && !OutOfDate(r, cutoff) ==> r in after)
    decreases |g.receipts| - i
  {
    if i == |g.receipts| {
      NoChange(g);
    } else if OutOfDate(g.receipts[i], cutoff) {
      var mid := g.(receipts := RemoveAt(g.receipts, i));
      RemoveSettledKeeps(g, i);
      RemoveAtMembers(g.receipts, i);
      PruneFromKeeps(mid, i, cutoff);
      var h := mid.(receipts := PruneFrom(mid.receipts, i, cutoff));
      LaterIsTransitive(g, mid, h);
      SameRowsKeep(g.receipts, h.receipts, g.admissions);
    } else {
      PruneFromKeeps(g, i + 1, cutoff);
    }
  }

  // admission

  lemma {:induction false} AllAdmittedWhenNoneSettled(rows: seq<Receipt>)
    requires forall i :: 0 <= i < |rows| ==> rows[i].state.Admitted?
    ensures CountAdmitted(rows) == |rows|
  {
    if rows != [] {
      AllAdmittedWhenNoneSettled(rows[..|rows| - 1]);
    }
  }

  /** At the cap the eviction always finds a settled row: receipt_capacity cannot happen. */
  lemma RoomIsAlwaysFound(rows: seq<Receipt>)
    requires Bounded(rows)
    ensures MakeRoom(rows).Some?
  {
    if |rows| >= MAX_RECEIPTS && OldestSettled(rows) == |rows| {
      AllAdmittedWhenNoneSettled(rows);
      assert false;
    }
  }

  lemma RoomKeeps(g: Registry)
    requires Valid(g)
    ensures var rows := MakeRoom(g.receipts);
            && rows.Some? && |rows.value| < MAX_RECEIPTS
            && Transition(g, g.(receipts := rows.value))
            && (forall x :: x in rows.value ==> x in g.receipts)
            && (forall r :: r in g.receipts && r.state.Admitted? ==> r in rows.value)
            && CountAdmitted(rows.value) <= CountAdmitted(g.receipts)
            && forall a :: CountAdmittedBy(rows.value, a) <= CountAdmittedBy(g.receipts, a)
  {
    RoomIsAlwaysFound(g.receipts);
    if |g.receipts| < MAX_RECEIPTS {
      NoChange(g);
    } else {
      var i := OldestSettled(g.receipts);
      RemoveSettledKeeps(g, i);
      RemoveAtMembers(g.receipts, i);
      RemoveAtCounts(g.receipts, i, "");
      forall a ensures CountAdmittedBy(RemoveAt(g.receipts, i), a) <= CountAdmittedBy(g.receipts, a) {
        RemoveAtCounts(g.receipts, i, a);
      }
    }
  }

  /** An identity above the mark is above every identity admitted before. */
  lemma FenceAdvances(g: Registry, key: Key)
    requires Fenced(g.admissions, g.adapters) && key.adapter in g.adapters
    requires g.adapters[key.adapter].last.Some? ==> !Text.AtMost(key.command, g.adapters[key.adapter].last.value)
    ensures key !in g.admissions
    ensures Fenced(g.admissions + [key],
                   g.adapters[key.adapter := g.adapters[key.adapter].(last := Some(key.command))])
  {
    var adapters := g.adapters[key.adapter := g.adapters[key.adapter].(last := Some(key.command))];
    var admissions := g.admissions + [key];
    forall k | k in g.admissions && k.adapter == key.adapter ensures Text.Less(k.command, key.command) {
      assert Below(k, g.admissions, g.adapters);
      var last := g.adapters[k.adapter].last.value;
      Text.LessIsConnected(key.command, last);
      if k.command != last { Text.LessIsTransitive(k.command, last, key.command); }
    }
    Text.LessIsIrreflexive(key.command);
    forall k ensures Below(k, admissions, adapters) { assert Below(k, g.admissions, g.adapters); }
    forall i: nat, j: nat ensures Ascending(admissions, i, j) {
      assert Ascending(g.admissions, i, j);
      if i < |g.admissions| { assert g.admissions[i] in g.admissions; }
    }
  }

  lemma RecordKeyed(rows: seq<Receipt>, lastNumber: nat, admissions: seq<Key>, r: Receipt)
    requires Keyed(rows, lastNumber, admissions) && r.number == lastNumber + 1 && r.key !in admissions
    ensures Keyed(rows + [r], r.number, admissions + [r.key])
  {
    var after, keys := rows + [r], admissions + [r.key];
    assert keys[|admissions|] == r.key;
    forall i: nat ensures RowKnown(after, r.number, keys, i) { assert RowKnown(rows, lastNumber, admissions, i); }
    forall i: nat, j: nat ensures RowsApart(after, i, j) {
      assert RowsApart(rows, i, j) && RowKnown(rows, lastNumber, admissions, i);
    }
  }

  lemma RecordBounded(rows: seq<Receipt>, r: Receipt)
    requires Bounded(rows) && |rows| < MAX_RECEIPTS
    requires CountAdmitted(rows) < MAX_ADMITTED_RECEIPTS
    requires CountAdmittedBy(rows, r.key.adapter) < MAX_ADMITTED_RECEIPTS_PER_ADAPTER
    ensures Bounded(rows + [r])
  {
    assert (rows + [r])[..|rows + [r]| - 1] == rows;
  }

  lemma RecordCommits(rows: seq<Receipt>, commits: seq<Commit>, admissions: seq<Key>, r: Receipt)
    requires CommittedOnce(rows, commits, admissions) && r.state.Admitted? && r.key !in admissions
    ensures CommittedOnce(rows + [r], commits, admissions + [r.key])
  {
    forall x ensures RowAgrees(rows + [r], commits, x) {
      assert RowAgrees(rows, commits, x);
      forall c | c in commits ensures c.key != r.key { assert CommitKnown(commits, admissions, c); }
    }
    forall c ensures CommitKnown(commits, admissions + [r.key], c) { assert CommitKnown(commits, admissions, c); }
  }

  lemma RecordContinues(rows: seq<Receipt>, admissions: seq<Key>, r: Receipt)
    requires r.key !in admissions
    ensures NoRevival(rows, admissions, rows + [r]) && KeepsAdmitted(rows, rows + [r])
  {
    var after := rows + [r];
    forall x ensures Descends(rows, admissions, after, x) { assert Continues(x, x); }
    forall x ensures Survives(rows, after, x) { assert x in rows ==> x in after; assert Continues(x, x); }
  }

  lemma RecordKeeps(g: Registry, r: Receipt)
    requires Valid(g) && |g.receipts| < MAX_RECEIPTS && r.state.Admitted? && r.number == g.lastNumber + 1
    requires CountAdmitted(g.receipts) < MAX_ADMITTED_RECEIPTS
    requires CountAdmittedBy(g.receipts, r.key.adapter) < MAX_ADMITTED_RECEIPTS_PER_ADAPTER
    requires r.key.adapter in g.adapters
    requires g.adapters[r.key.adapter].last.Some? ==>
               !Text.AtMost(r.key.command, g.adapters[r.key.adapter].last.value)
    ensures Transition(g, Record(g, g.receipts, r)) && r.key !in g.admissions
  {
    FenceAdvances(g, r.key);
    RecordKeyed(g.receipts, g.lastNumber, g.admissions, r);
    RecordBounded(g.receipts, r);
    RecordCommits(g.receipts, g.commits, g.admissions, r);
    RecordContinues(g.receipts, g.admissions, r);
  }

  lemma AdmitRowKeeps(g: Registry, rows: seq<Receipt>, r: Receipt)
    requires Valid(g) && MakeRoom(g.receipts) == Some(rows) && r.state.Admitted? && r.number == g.lastNumber + 1
    requires CountAdmitted(g.receipts) < MAX_ADMITTED_RECEIPTS
    requires CountAdmittedBy(g.receipts, r.key.adapter) < MAX_ADMITTED_RECEIPTS_PER_ADAPTER
    requires r.key.adapter in g.adapters
    requires g.adapters[r.key.adapter].last.Some? ==>
               !Text.AtMost(r.key.command, g.adapters[r.key.adapter].last.value)
    ensures Transition(g, Record(g, rows, r)) && r.key !in g.admissions
  {
    RoomKeeps(g);
    var mid := g.(receipts := rows);
    var h := Record(mid, rows, r);
    RecordKeeps(mid, r);
    LaterIsTransitive(g, mid, h);
    AdmittedSurvives(g, mid, h);
    assert h == Record(g, rows, r);
  }

  ghost predicate Sound(g: Registry, key: Key, enrollment: Option<EnrollmentId>, verdict: Verdict) {
    && verdict != Answer(Err(ReceiptCapacity))
    && (verdict.Admissible? ==>
          && enrollment.Some?
          && key.adapter in g.adapters
          && CountAdmitted(g.receipts) < MAX_ADMITTED_RECEIPTS
          && CountAdmittedBy(g.receipts, key.adapter) < MAX_ADMITTED_RECEIPTS_PER_ADAPTER
          && (g.adapters[key.adapter].last.Some? ==>
                !Text.AtMost(key.command, g.adapters[key.adapter].last.value)))
  }

  lemma ScreenIsSound(g: Registry, adapter: string, credential: nat, command: string,
                      enrollment: Option<EnrollmentId>, nowMillis: int)
    ensures Sound(g, Key(adapter, command), enrollment,
                  Screen(g, adapter, credential, command, enrollment, nowMillis))
  {
  }

  ghost predicate AdmitsOnce(g: Registry, h: Registry, key: Key) {
    h == g || (h.admissions == g.admissions + [key] && key !in g.admissions)
  }

  lemma ConcludeKeeps(g: Registry, key: Key, enrollment: Option<EnrollmentId>, now: Time, verdict: Verdict)
    requires Valid(g) && Sound(g, key, enrollment, verdict)
    ensures var h := Conclude(g, key, enrollment, now, verdict);
            Transition(g, h.0) && h.1 != Err(ReceiptCapacity) && AdmitsOnce(g, h.0, key) && h.0.commits == g.commits
  {
    if verdict.Answer? {
      NoChange(g);
    } else {
      var r := Receipt(key, g.lastNumber + 1, enrollment.value, now, Admitted);
      var room := MakeRoom(g.receipts);
      assert room.Some? by { RoomIsAlwaysFound(g.receipts); }
      assert Conclude(g, key, enrollment, now, Admissible) == (Record(g, room.value, r), Ok(r));
      assert Transition(g, Record(g, room.value, r)) && key !in g.admissions by {
        AdmitRowKeeps(g, room.value, r);
      }
    }
  }

  /**
   Admission: the registry stays valid, receipt_capacity is never the answer, and a
   key is admitted only if it never was before, whatever was evicted meanwhile.
   */
  lemma AdmissionKeeps(g: Registry, adapter: string, credential: nat, command: string,
                       enrollment: Option<EnrollmentId>, nowMillis: int)
    requires Valid(g)
    ensures var (h, result) := AdmitApprovalCommand(g, adapter, credential, command, enrollment, nowMillis);
            && Transition(g, h)
            && result != Err(ReceiptCapacity)
            && AdmitsOnce(g, h, Key(adapter, command))
            && h.commits == g.commits
  {
    ScreenIsSound(g, adapter, credential, command, enrollment, nowMillis);
    ConcludeKeeps(g, Key(adapter, command), enrollment, nowMillis / 1000,
                  Screen(g, adapter, credential, command, enrollment, nowMillis));
  }

  lemma AdmittedSurvives(a: Registry, b: Registry, c: Registry)
    requires forall r :: r in a.receipts && r.state.Admitted? ==> r in b.receipts
    requires KeepsAdmitted(b.receipts, c.receipts)
    ensures KeepsAdmitted(a.receipts, c.receipts)
  {
    forall r ensures Survives(a.receipts, c.receipts, r) { assert Survives(b.receipts, c.receipts, r); }
  }

  lemma AdaptersKeep(g: Registry, adapters: map<string, Adapter>)
    requires Valid(g)
    requires forall a :: a in g.adapters ==> a in adapters && adapters[a].last == g.adapters[a].last
    ensures Transition(g, g.(adapters := adapters))
  {
    NoChange(g);
    forall k ensures Below(k, g.admissions, adapters) { assert Below(k, g.admissions, g.adapters); }
  }

  /**
   Once a key was admitted, submitting it again never executes it again: while the
   receipt lasts the answer is that receipt, and afterwards it is receipt_expired.
   */
  lemma AdmittedKeyIsNeverReadmitted(g: Registry, adapter: string, credential: nat, command: string,
                                     enrollment: Option<EnrollmentId>, nowMillis: int)
    requires Valid(g) && Key(adapter, command) in g.admissions
    ensures var (h, result) := AdmitApprovalCommand(g, adapter, credential, command, enrollment, nowMillis);
            && h == g
            && (result.Ok? ==> result.value in g.receipts && result.value.key == Key(adapter, command))
            && ((Authorized(g, adapter, credential) && ValidAdapterId(adapter) && CommandId.Canonical(command) &&
                 enrollment.Some? && Lookup(g.receipts, Key(adapter, command)).None?) ==>
                  result == Err(ReceiptExpired))
  {
    assert Below(Key(adapter, command), g.admissions, g.adapters);
  }
}
