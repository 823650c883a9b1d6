/**
 All stages of the store together: the quota that admits reservations, what it says about
 the disk over every interleaving, and the batches in which a parent directory is reaped.
 */
module StagingQuota {
  import opened Basics
  import opened StagingDisk
  import opened Staging

  const MAX_ROWS := 64
  const MAX_BYTES := 0x1_0000_0000
  const MAX_FILE_BYTES := 0x4000_0000
  const MAX_REAP := 8

  /** A stage ever reserved, by its number: its parent directory, when, and what there is of it. */
  datatype Slot = Slot(parent: string, created: Time, cell: Cell)

  function Charge(c: Cell): nat { if c.row.Some? then c.row.value.declared else 0 }

  function One(c: Cell): nat { if c.row.Some? then 1 else 0 }

  /** `count(*)` of the table. */
  function Rows(s: seq<Slot>): nat {
    if s == [] then 0 else Rows(s[..|s| - 1]) + One(s[|s| - 1].cell)
  }

  /** `sum(declared_bytes)` of the table. */
  function Charged(s: seq<Slot>): nat {
    if s == [] then 0 else Charged(s[..|s| - 1]) + Charge(s[|s| - 1].cell)
  }

  /** `reserveLocked` */
  predicate CanReserve(s: seq<Slot>, declared: nat) {
    declared <= MAX_FILE_BYTES && !(Rows(s) >= MAX_ROWS || Charged(s) > MAX_BYTES - declared)
  }

  // ---------------------------------------------------------------- runs

  /**
   What may happen between two commits of one database: a reservation, any one change that a
   stage's protocol makes to its row, its directory or its destination, a power loss.
   */
  datatype Step =
    | Reserve(parent: string, declared: nat, lease: nat, now: Time, expires: Time, taken: bool)
    | Act(stage: nat, next: Cell)
    | PowerFails(left: seq<Cell>)

  predicate CanAct(s: seq<Slot>, i: nat, next: Cell) {
    i < |s| && Safe(next) && KeepsCharge(s[i].cell, next)
  }

  function With(s: seq<Slot>, i: nat, c: Cell): seq<Slot>
    requires i < |s|
  {
    s[i := s[i].(cell := c)]
  }

  predicate MayFail(s: seq<Slot>, left: seq<Cell>) {
    |left| == |s| && forall i :: 0 <= i < |s| ==> Crash(s[i].cell, left[i])
  }

  function Failed(s: seq<Slot>, left: seq<Cell>): (t: seq<Slot>)
    requires |left| == |s|
    ensures |t| == |s| && forall i :: 0 <= i < |t| ==> t[i] == s[i].(cell := left[i])
  {
    seq(|s|, i requires 0 <= i < |s| => s[i].(cell := left[i]))
  }

  function Apply(s: seq<Slot>, step: Step): seq<Slot> {
    match step
    case Reserve(parent, declared, lease, now, expires, taken) =>
      var dest := if taken then Destination.Taken else Free;
      if CanReserve(s, declared) then s + [Slot(parent, now, Reservation(declared, lease, now, expires, dest))] else s
    case Act(i, next) => if CanAct(s, i, next) then With(s, i, next) else s
    case PowerFails(left) => if MayFail(s, left) then Failed(s, left) else s
  }

  function Run(s: seq<Slot>, steps: seq<Step>): seq<Slot> {
    if steps == [] then s else Apply(Run(s, steps[..|steps| - 1]), steps[|steps| - 1])
  }

  ghost predicate StoreOk(s: seq<Slot>) {
    && AllSafe(s)
    && Rows(s) <= MAX_ROWS
    && Charged(s) <= MAX_BYTES
  }

  lemma TotalsAppend(s: seq<Slot>, slot: Slot)
    ensures Rows(s + [slot]) == Rows(s) + One(slot.cell)
    ensures Charged(s + [slot]) == Charged(s) + Charge(slot.cell)
  {
    assert (s + [slot])[..|s + [slot]| - 1] == s;
  }

  lemma {:induction false} TotalsUpdate(s: seq<Slot>, i: nat, c: Cell)
    requires i < |s|
    ensures Rows(With(s, i, c)) == Rows(s) - One(s[i].cell) + One(c)
    ensures Charged(With(s, i, c)) == Charged(s) - Charge(s[i].cell) + Charge(c)
  {
    var n := |s| - 1;
    if i == n {
      assert With(s, i, c)[..n] == s[..n];
    } else {
      assert With(s, i, c)[..n] == With(s[..n], i, c);
      TotalsUpdate(s[..n], i, c);
    }
  }

  lemma {:induction false} SameRowsSameTotals(s: seq<Slot>, t: seq<Slot>)
    requires |t| == |s| && forall i :: 0 <= i < |s| ==> t[i].cell.row == s[i].cell.row
    ensures Rows(t) == Rows(s) && Charged(t) == Charged(s)
  {
    if s != [] {
      SameRowsSameTotals(s[..|s| - 1], t[..|s| - 1]);
    }
  }

  lemma PowerKeepsTotals(s: seq<Slot>, left: seq<Cell>)
    requires MayFail(s, left)
    ensures Rows(Failed(s, left)) == Rows(s) && Charged(Failed(s, left)) == Charged(s)
  {
    hide Rows, Charged;
    forall i | 0 <= i < |s| ensures left[i].row == s[i].cell.row { assert Crash(s[i].cell, left[i]); }
    SameRowsSameTotals(s, Failed(s, left));
  }

  ghost predicate AllSafe(s: seq<Slot>) {
    forall i :: 0 <= i < |s| ==> Safe(s[i].cell)
  }

  lemma StepKeepsSafe(s: seq<Slot>, step: Step)
    requires AllSafe(s)
    ensures AllSafe(Apply(s, step))
  {
    hide CanReserve, KeepsCharge;
    if step.PowerFails? && MayFail(s, step.left) {
      forall i | 0 <= i < |s| ensures Safe(step.left[i]) {
        assert Crash(s[i].cell, step.left[i]);
        CrashKeepsSafe(s[i].cell, step.left[i]);
      }
    } else if step.Reserve? {
      assert Safe(Reservation(step.declared, step.lease, step.now, step.expires, Free));
      assert Safe(Reservation(step.declared, step.lease, step.now, step.expires, Destination.Taken));
    }
  }

  lemma StepKeepsTotals(s: seq<Slot>, step: Step)
    requires Rows(s) <= MAX_ROWS && Charged(s) <= MAX_BYTES
    ensures Rows(Apply(s, step)) <= MAX_ROWS && Charged(Apply(s, step)) <= MAX_BYTES
  {
    hide Safe, Crash;
    var t := Apply(s, step);
    match step
    case Reserve(_, declared, _, _, _, _) =>
      if CanReserve(s, declared) { TotalsAppend(s, t[|s|]); }
    case Act(i, next) =>
      if CanAct(s, i, next) { TotalsUpdate(s, i, next); }
    case PowerFails(left) =>
      if MayFail(s, left) { PowerKeepsTotals(s, left); }
  }

  lemma StepKeepsQuota(s: seq<Slot>, step: Step)
    requires StoreOk(s)
    ensures StoreOk(Apply(s, step))
  {
    hide AllSafe, Apply, Rows, Charged;
    StepKeepsSafe(s, step);
    StepKeepsTotals(s, step);
  }

  /** What a step adds to the charge. */
  function Taken(s: seq<Slot>, step: Step): nat {
    match step
    case Reserve(_, declared, _, _, _, _) => if CanReserve(s, declared) then declared else 0
    case _ => 0
  }

  /** What a step gives back: what the row had declared, when the row is deleted. */
  function Released(s: seq<Slot>, step: Step): nat {
    match step
    case Act(i, next) => if CanAct(s, i, next) && next.row.None? then Charge(s[i].cell) else 0
    case _ => 0
  }

  /** A row is charged from its reservation until it is deleted, and for what it declared. */
  lemma ChargesAreConserved(s: seq<Slot>, step: Step)
    ensures Charged(Apply(s, step)) == Charged(s) + Taken(s, step) - Released(s, step)
  {
    var t := Apply(s, step);
    match step
    case Reserve(parent, declared, lease, now, expires, taken) =>
      if CanReserve(s, declared) { TotalsAppend(s, t[|s|]); }
    case Act(i, next) =>
      if CanAct(s, i, next) { TotalsUpdate(s, i, next); }
    case PowerFails(left) =>
      if MayFail(s, left) { PowerKeepsTotals(s, left); }
  }

  // ---------------------------------------------------------------- what the quota says about the disk

  function Directories(s: seq<Slot>): nat {
    if s == [] then 0 else Directories(s[..|s| - 1]) + (if MayExist(s[|s| - 1].cell.dir) then 1 else 0)
  }

  /** The data a stage may have on disk: nothing without its directory. */
  function DataBytes(c: Cell): nat {
    if MayExist(c.dir) && (MayExist(c.data) || MayExist(c.probe)) then |c.file.bytes| else 0
  }

  function BytesOnDisk(s: seq<Slot>): nat {
    if s == [] then 0 else BytesOnDisk(s[..|s| - 1]) + DataBytes(s[|s| - 1].cell)
  }

  /** The owner of every stage has kept to the size it declared. */
  predicate KeptToSize(s: seq<Slot>) {
    forall i :: 0 <= i < |s| && s[i].cell.row.Some? ==> |s[i].cell.file.bytes| <= s[i].cell.row.value.declared
  }

  lemma {:induction false} DiskIsCharged(s: seq<Slot>)
    requires AllSafe(s)
    ensures Directories(s) <= Rows(s)
    ensures KeptToSize(s) ==> BytesOnDisk(s) <= Charged(s)
  {
    if s != [] {
      DiskIsCharged(s[..|s| - 1]);
      assert Safe(s[|s| - 1].cell);
    }
  }

  /**
   After every run of reservations, stage protocols, reaps and power losses in any order: at
   most 64 rows and 4 GiB are charged, so at most 64 stage directories are on disk, and, when
   owners keep to what they declared, at most 4 GiB of data in them.
   */
  lemma {:induction false} QuotaHolds(steps: seq<Step>)
    ensures var s := Run([], steps);
      && StoreOk(s)
      && Directories(s) <= MAX_ROWS
      && (KeptToSize(s) ==> BytesOnDisk(s) <= MAX_BYTES)
  {
    if steps != [] {
      QuotaHolds(steps[..|steps| - 1]);
      StepKeepsQuota(Run([], steps[..|steps| - 1]), steps[|steps| - 1]);
    }
    DiskIsCharged(Run([], steps));
  }

  // ---------------------------------------------------------------- protocols are runs

  function Acts(i: nat, trace: seq<Cell>): (steps: seq<Step>)
    ensures |steps| == |trace| && forall k :: 0 <= k < |trace| ==> steps[k] == Act(i, trace[k])
  {
    seq(|trace|, k requires 0 <= k < |trace| => Act(i, trace[k]))
  }

  /** What the stage object guarantees of the states it goes through. */
  ghost predicate Traced(trace: seq<Cell>) {
    && trace != []
    && (forall k :: 0 <= k < |trace| ==> Safe(trace[k]))
    && (forall j, k :: 0 <= j < k < |trace| ==> KeepsCharge(trace[j], trace[k]))
  }

  /** So every method of a stage is a run of such changes, from the state it starts in to the one it ends in. */
  lemma {:induction false} TraceIsRun(s: seq<Slot>, i: nat, trace: seq<Cell>)
    requires i < |s| && Traced(trace) && s[i].cell == trace[0]
    ensures Run(s, Acts(i, trace[1..])) == With(s, i, trace[|trace| - 1])
  {
    var steps := Acts(i, trace[1..]);
    var n := |trace| - 1;
    if n == 0 {
      assert With(s, i, trace[0]) == s;
    } else {
      assert steps[..n - 1] == Acts(i, trace[..n][1..]);
      assert trace[..n][|trace[..n]| - 1] == trace[n - 1];
      TraceIsRun(s, i, trace[..n]);
      assert KeepsCharge(trace[n - 1], trace[n]);
      assert With(With(s, i, trace[n - 1]), i, trace[n]) == With(s, i, trace[n]);
    }
  }

  // ---------------------------------------------------------------- batches

  predicate Due(slot: Slot, parent: string, now: Time) {
    && slot.parent == parent
    && slot.cell.row.Some? && slot.cell.row.value.lease.None? && slot.cell.row.value.nextRetry <= now
  }

  /** `order by next_retry_at, created_at, cleanup_id` */
  predicate Before(s: seq<Slot>, i: nat, j: nat)
    requires i < |s| && j < |s| && s[i].cell.row.Some? && s[j].cell.row.Some?
  {
    var a, b := s[i].cell.row.value.nextRetry, s[j].cell.row.value.nextRetry;
    a < b || (a == b && (s[i].created < s[j].created || (s[i].created == s[j].created && i < j)))
  }

  predicate Listed(s: seq<Slot>, ids: seq<nat>) {
    forall k :: 0 <= k < |ids| ==> ids[k] < |s| && s[ids[k]].cell.row.Some?
  }

  predicate InOrder(s: seq<Slot>, ids: seq<nat>)
    requires Listed(s, ids)
  {
    forall j, k :: 0 <= j < k < |ids| ==> Before(s, ids[j], ids[k])
  }

  function Placed(s: seq<Slot>, ids: seq<nat>, i: nat): (r: seq<nat>)
    requires Listed(s, ids) && InOrder(s, ids) && i !in ids && i < |s| && s[i].cell.row.Some?
    ensures Listed(s, r) && InOrder(s, r) && |r| == |ids| + 1
    ensures forall x: nat :: x in r <==> x == i || x in ids
  {
    if ids == [] then [i]
    else if Before(s, i, ids[0]) then [i] + ids
    else
      var rest := Placed(s, ids[1..], i);
      assert forall k :: 0 <= k < |rest| ==> Before(s, ids[0], rest[k]) by {
        forall k | 0 <= k < |rest| ensures Before(s, ids[0], rest[k]) { assert rest[k] in rest; }
      }
      [ids[0]] + rest
  }

  /** The due rows of the parent among the first `n`, in the order of the query. */
  function DueRows(s: seq<Slot>, parent: string, now: Time, n: nat): (ids: seq<nat>)
    requires n <= |s|
    ensures Listed(s, ids) && InOrder(s, ids)
    ensures forall i: nat :: i in ids <==> i < n && Due(s[i], parent, now)
  {
    if n == 0 then []
    else
      var ids := DueRows(s, parent, now, n - 1);
      if Due(s[n - 1], parent, now) then Placed(s, ids, n - 1) else ids
  }

  /** The rows one round examines: the first eight. */
  function Batch(s: seq<Slot>, parent: string, now: Time): (ids: seq<nat>)
    ensures |ids| <= MAX_REAP && Listed(s, ids) && InOrder(s, ids)
  {
    var ids := DueRows(s, parent, now, |s|);
    if |ids| <= MAX_REAP then ids else ids[..MAX_REAP]
  }

  /** The batch holds due rows only, and all of them unless it is full; then it holds the first. */
  lemma BatchIsFirst(s: seq<Slot>, parent: string, now: Time, i: nat)
    requires i < |s| && Due(s[i], parent, now)
    ensures var ids := Batch(s, parent, now);
      i in ids || (|ids| == MAX_REAP && forall k :: 0 <= k < |ids| ==> Before(s, ids[k], i))
  {
    var all := DueRows(s, parent, now, |s|);
    var p :| 0 <= p < |all| && all[p] == i;
  }

  lemma BatchIsDue(s: seq<Slot>, parent: string, now: Time)
    ensures forall i: nat :: i in Batch(s, parent, now) ==> i < |s| && Due(s[i], parent, now)
  {
    var all := DueRows(s, parent, now, |s|);
    forall i: nat | i in Batch(s, parent, now) ensures i in all {}
  }

  // ---------------------------------------------------------------- rounds

  /** A fault-free attempt at `now`: gone if it can be removed, otherwise kept and put off. */
  ghost predicate Attempted(c: Cell, d: Cell, now: Time)
    requires c.row.Some?
  {
    if Reapable(c) then d.row.None? && d.dir.Gone?
    else
      var r := c.row.value;
      d == c.(row := Some(r.(nextRetry := now + Interval(r, now), notified := r.notified || r.expires <= now)))
  }

  /** A fault-free round: every row of the batch is attempted once, and nothing else is touched. */
  ghost predicate Round(s: seq<Slot>, t: seq<Slot>, parent: string, now: Time) {
    && |t| == |s|
    && forall i: nat :: i < |s| ==>
         && t[i] == s[i].(cell := t[i].cell)
         && (if i in Batch(s, parent, now) then s[i].cell.row.Some? && Attempted(s[i].cell, t[i].cell, now)
             else t[i] == s[i])
  }

  ghost function DueSet(s: seq<Slot>, parent: string, now: Time): set<nat> {
    set i: nat | i < |s| && Due(s[i], parent, now)
  }

  ghost function Members(ids: seq<nat>): set<nat> { set i | i in ids }

  lemma {:induction false} MembersSize(ids: seq<nat>)
    requires forall j, k :: 0 <= j < k < |ids| ==> ids[j] != ids[k]
    ensures |Members(ids)| == |ids|
  {
    if ids != [] {
      var n := |ids| - 1;
      MembersSize(ids[..n]);
      assert Members(ids) == Members(ids[..n]) + {ids[n]};
    }
  }

  lemma OrderedApart(s: seq<Slot>, ids: seq<nat>)
    requires Listed(s, ids) && InOrder(s, ids)
    ensures |Members(ids)| == |ids|
  {
    forall j, k | 0 <= j < k < |ids| ensures ids[j] != ids[k] { assert Before(s, ids[j], ids[k]); }
    MembersSize(ids);
  }

  /** The batch is eight of the due rows, or all of them. */
  lemma BatchSize(s: seq<Slot>, parent: string, now: Time)
    ensures var batch := Members(Batch(s, parent, now)); var due := DueSet(s, parent, now);
      batch <= due && |batch| == Min(|due|, MAX_REAP)
  {
    var all := DueRows(s, parent, now, |s|);
    OrderedApart(s, all);
    OrderedApart(s, Batch(s, parent, now));
    assert Members(all) == DueSet(s, parent, now);
    BatchIsDue(s, parent, now);
  }

  /** A round takes its batch off the list of due rows, and puts nothing on it. */
  lemma RoundTakesBatch(s: seq<Slot>, t: seq<Slot>, parent: string, now: Time)
    requires Round(s, t, parent, now)
    ensures DueSet(t, parent, now) == DueSet(s, parent, now) - Members(Batch(s, parent, now))
  {
    BatchIsDue(s, parent, now);
    forall i: nat | i < |s|
      ensures Due(t[i], parent, now) <==> Due(s[i], parent, now) && i !in Batch(s, parent, now)
    {
    }
  }

  lemma RoundTakesEight(s: seq<Slot>, t: seq<Slot>, parent: string, now: Time)
    requires Round(s, t, parent, now)
    ensures |DueSet(t, parent, now)| == |DueSet(s, parent, now)| - Min(|DueSet(s, parent, now)|, MAX_REAP)
  {
    hide Round, Batch, DueSet, Members;
    RoundTakesBatch(s, t, parent, now);
    BatchSize(s, parent, now);
  }

  ghost predicate Rounds(states: seq<seq<Slot>>, parent: string, now: Time) {
    && states != []
    && forall k :: 0 < k < |states| ==> Round(states[k - 1], states[k], parent, now)
  }

  lemma {:induction false} RoundsTakeEights(states: seq<seq<Slot>>, parent: string, now: Time)
    requires Rounds(states, parent, now)
    ensures var n := |states| - 1; var due := |DueSet(states[0], parent, now)|;
      |DueSet(states[n], parent, now)| == if due <= MAX_REAP * n then 0 else due - MAX_REAP * n
  {
    hide Round, DueSet;
    var n := |states| - 1;
    if n > 0 {
      assert Rounds(states[..n], parent, now);
      RoundsTakeEights(states[..n], parent, now);
      assert states[..n][n - 1] == states[n - 1];
      RoundTakesEight(states[n - 1], states[n], parent, now);
    }
  }

  /** What one due row has become: it still is what it was, or it has been attempted once. */
  ghost predicate Handled(c: Cell, d: Cell, due: bool, now: Time) {
    c.row.Some? && if due then d == c else Attempted(c, d, now)
  }

  lemma {:induction false} DueIsHandled(states: seq<seq<Slot>>, parent: string, now: Time, i: nat)
    requires Rounds(states, parent, now) && i < |states[0]| && Due(states[0][i], parent, now)
    ensures var t := states[|states| - 1];
      && |t| == |states[0]| && t[i].parent == parent
      && Handled(states[0][i].cell, t[i].cell, Due(t[i], parent, now), now)
  {
    var n := |states| - 1;
    if n > 0 {
      assert Rounds(states[..n], parent, now);
      DueIsHandled(states[..n], parent, now, i);
      var s, t := states[n - 1], states[n];
      assert states[..n][n - 1] == s && Round(s, t, parent, now);
      BatchIsDue(s, parent, now);
    }
  }

  lemma {:induction false} DueAtMostRows(s: seq<Slot>, parent: string, now: Time)
    ensures |DueSet(s, parent, now)| <= Rows(s)
  {
    if s != [] {
      var n := |s| - 1;
      DueAtMostRows(s[..n], parent, now);
      assert DueSet(s, parent, now) == DueSet(s[..n], parent, now) + if Due(s[n], parent, now) then {n} else {};
    }
  }

  /**
   No stage starves: eight fault-free rounds at one time attempt every due stage of the
   parent exactly once. Those that can be removed are gone; the rest are put off.
   */
  lemma EightRoundsReachAll(states: seq<seq<Slot>>, parent: string, now: Time, i: nat)
    requires Rounds(states, parent, now) && StoreOk(states[0]) && |states| > MAX_ROWS / MAX_REAP
    requires i < |states[0]| && Due(states[0][i], parent, now)
    ensures var t := states[|states| - 1];
      && DueSet(t, parent, now) == {}
      && |t| == |states[0]| && Attempted(states[0][i].cell, t[i].cell, now)
  {
    RoundsTakeEights(states, parent, now);
    DueAtMostRows(states[0], parent, now);
    DueIsHandled(states, parent, now, i);
    assert i in DueSet(states[|states| - 1], parent, now) || !Due(states[|states| - 1][i], parent, now);
  }

  /**
   What reaping a directory may do: rows outside the batch stay as they are, rows in it keep
   their charge while they stay; without faults it is a round.
   */
  ghost predicate AfterReaping(s: seq<Slot>, t: seq<Slot>, parent: string, now: Time, faults: bool) {
    && |t| == |s|
    && (forall i: nat :: i < |s| ==> t[i] == s[i].(cell := t[i].cell) && KeepsCharge(s[i].cell, t[i].cell))
    && (forall i: nat :: i < |s| && i !in Batch(s, parent, now) ==> t[i] == s[i])
    && (!faults ==> Round(s, t, parent, now))
  }

  /** A round after the first `k` rows of its batch. */
  ghost predicate Reaped(s: seq<Slot>, t: seq<Slot>, batch: seq<nat>, k: nat, now: Time, faults: bool) {
    && |t| == |s|
    && forall i: nat :: i < |s| ==>
         && t[i] == s[i].(cell := t[i].cell)
         && KeepsCharge(s[i].cell, t[i].cell)
         && (i !in batch[..Min(k, |batch|)] ==> t[i] == s[i])
         && (i in batch[..Min(k, |batch|)] && !faults ==> s[i].cell.row.Some? && Attempted(s[i].cell, t[i].cell, now))
  }

  /** The next row of the batch is attempted. */
  lemma ReapedStep(s: seq<Slot>, t: seq<Slot>, batch: seq<nat>, k: nat, c: Cell, now: Time, faults: bool)
    requires Reaped(s, t, batch, k, now, faults) && k < |batch| && Listed(s, batch) && InOrder(s, batch)
    requires KeepsCharge(s[batch[k]].cell, c) && (!faults ==> Attempted(s[batch[k]].cell, c, now))
    ensures batch[k] < |t| && Reaped(s, With(t, batch[k], c), batch, k + 1, now, faults)
  {
    hide KeepsCharge, Attempted;
    var i := batch[k];
    assert batch[..k + 1] == batch[..k] + [i];
    assert i !in batch[..k] by {
      forall j | 0 <= j < k ensures batch[j] != i { assert Before(s, batch[j], batch[k]); }
    }
  }

  lemma SameLength(s: seq<Slot>, t: seq<Slot>, parent: string, now: Time, faults: bool)
    requires AfterReaping(s, t, parent, now, faults)
    ensures |t| == |s|
  {
  }

  lemma ReapedNone(s: seq<Slot>, batch: seq<nat>, now: Time, faults: bool)
    ensures Reaped(s, s, batch, 0, now, faults)
  {
  }

  /** The next row of the batch still is as it was when the batch was read. */
  lemma ReapedSame(s: seq<Slot>, t: seq<Slot>, parent: string, k: nat, now: Time, faults: bool)
    requires Reaped(s, t, Batch(s, parent, now), k, now, faults) && k < |Batch(s, parent, now)|
    requires StoreOk(t)
    ensures var i := Batch(s, parent, now)[k];
      && i < |t| && t[i] == s[i] && Safe(t[i].cell) && Due(t[i], parent, now)
  {
    var batch := Batch(s, parent, now);
    BatchIsDue(s, parent, now);
    hide Batch, Safe, KeepsCharge, Attempted, Due, Rows, Charged;
    var i := batch[k];
    assert i in batch;
    assert i !in batch[..k] by {
      forall j | 0 <= j < k ensures batch[j] != i { assert Before(s, batch[j], batch[k]); }
    }
    assert AllSafe(t);
  }

  lemma ReapedMeans(s: seq<Slot>, t: seq<Slot>, parent: string, k: nat, now: Time, faults: bool)
    requires Reaped(s, t, Batch(s, parent, now), k, now, faults)
    ensures faults || k == |Batch(s, parent, now)| ==> AfterReaping(s, t, parent, now, faults)
  {
    hide KeepsCharge, Attempted;
    var batch := Batch(s, parent, now);
    hide Batch;
    assert batch[..|batch|] == batch;
    forall i: nat | i < |s| && i !in batch ensures i !in batch[..Min(k, |batch|)] {}
  }

  /** One row of a batch, as the stage object attempts it. */
  method AttemptOne(c: Cell, token: nat, now: Time, faults: bool) returns (d: Cell)
    requires Safe(c) && c.row.Some? && c.row.value.lease.None? && c.row.value.nextRetry <= now
    ensures Safe(d) && KeepsCharge(c, d)
    ensures !faults ==> Attempted(c, d, now)
  {
    hide Safe, Reapable;
    var stage := new Stage.Inherited(c);
    var _ := stage.ReapOne(token, now, faults);
    assert stage.seen[0] == c;
    return stage.cell;
  }

  // ---------------------------------------------------------------- the store object

  datatype Refusal = TooLarge | DestinationExists | NoCapacity | Failed

  /** A stage its owner may write to: data, marker and directory are there and recorded. */
  predicate Built(slot: Slot, parent: string, declared: nat, lease: nat, now: Time) {
    && slot.parent == parent && slot.created == now
    && slot.cell.row.Some? && slot.cell.row.value.phase.DataCreated?
    && slot.cell.row.value.lease == Some(lease) && slot.cell.row.value.declared == declared
    && Visible(slot.cell.dir) && Visible(slot.cell.data)
  }

  /** The rest of `Create` on the stage object. */
  method BuildOne(declared: nat, lease: nat, now: Time, expires: Time, faults: bool) returns (d: Cell, ok: bool)
    ensures Safe(d) && KeepsCharge(Reservation(declared, lease, now, expires, Free), d)
    ensures !ok ==> faults
    ensures ok ==> d.row.Some? && d.row.value.phase.DataCreated? && d.row.value.lease == Some(lease)
    ensures ok ==> Visible(d.dir) && Visible(d.data)
  {
    hide Safe;
    var late: bool := *;
    var stage := new Stage(lease, declared, expires, now, if late then Destination.Taken else Free);
    ok := stage.Create(now, faults);
    assert stage.seen[0] == Reservation(declared, lease, now, expires, if late then Destination.Taken else Free);
    d := stage.cell;
  }

  class Store {
    var slots: seq<Slot>

    ghost predicate Valid()
      reads this
    {
      StoreOk(slots)
    }

    constructor ()
      ensures Valid() && slots == []
    {
      slots := [];
    }

    /** `reserveLocked`, after the checks of `Create` on the size and the destination. */
    method ReserveLocked(parent: string, declared: nat, lease: nat, now: Time, expires: Time) returns (ok: bool)
      requires Valid() && declared <= MAX_FILE_BYTES
      modifies this
      ensures Valid()
      ensures slots == Apply(old(slots), Reserve(parent, declared, lease, now, expires, false))
      ensures ok <==> CanReserve(old(slots), declared)
      ensures slots == if ok then old(slots) + [Slot(parent, now, Reservation(declared, lease, now, expires, Free))]
                       else old(slots)
      ensures !ok <==> Rows(old(slots)) == MAX_ROWS || Charged(old(slots)) + declared > MAX_BYTES
    {
      StepKeepsQuota(slots, Reserve(parent, declared, lease, now, expires, false));
      var count, bytes := 0, 0;
      for i := 0 to |slots|
        invariant count == Rows(slots[..i]) && bytes == Charged(slots[..i])
      {
        assert slots[..i + 1][..i] == slots[..i];
        count := count + One(slots[i].cell);
        bytes := bytes + Charge(slots[i].cell);
      }
      assert slots[..|slots|] == slots;
      if count >= MAX_ROWS || bytes > MAX_BYTES - declared {
        return false;
      }
      slots := slots + [Slot(parent, now, Reservation(declared, lease, now, expires, Free))];
      return true;
    }

    /**
     `reapParentOpened`: the batch is read once, then each of its rows is attempted. With
     faults any attempt may fail anywhere, and the loop may stop early.
     */
    method ReapParent(parent: string, token: nat, now: Time, faults: bool) returns (ok: bool)
      requires Valid()
      modifies this
      ensures !ok ==> faults
      ensures Valid() && AfterReaping(old(slots), slots, parent, now, faults)
    {
      hide StoreOk, Reaped, AfterReaping, KeepsCharge, Batch, InOrder, Safe;
      ghost var before := slots;
      var batch := Batch(slots, parent, now);
      ReapedNone(slots, batch, now, faults);
      for k := 0 to |batch|
        invariant StoreOk(slots) && Reaped(before, slots, batch, k, now, faults)
      {
        ReapedSame(before, slots, parent, k, now, faults);
        var c := AttemptOne(slots[batch[k]].cell, token, now, faults);
        ReapedStep(before, slots, batch, k, c, now, faults);
        StepKeepsQuota(slots, Act(batch[k], c));
        slots := With(slots, batch[k], c);
        ReapedMeans(before, slots, parent, k + 1, now, faults);
        var stop: bool := *;
        if faults && stop {
          return false;
        }
      }
      ReapedMeans(before, slots, parent, |batch|, now, faults);
      return true;
    }

    /** The stage just reserved is built. */
    method BuildLast(declared: nat, lease: nat, now: Time, expires: Time, faults: bool) returns (ok: bool)
      requires Valid() && slots != []
      requires slots[|slots| - 1].cell == Reservation(declared, lease, now, expires, Free)
      modifies this
      ensures Valid() && |slots| == |old(slots)| && slots[..|slots| - 1] == old(slots)[..|slots| - 1]
      ensures !ok ==> faults
      ensures ok ==> var slot := old(slots)[|slots| - 1];
        slot.created == now ==> Built(slots[|slots| - 1], slot.parent, declared, lease, now)
    {
      hide StoreOk, Safe;
      var cell;
      cell, ok := BuildOne(declared, lease, now, expires, faults);
      StepKeepsQuota(slots, Act(|slots| - 1, cell));
      slots := With(slots, |slots| - 1, cell);
    }

    /**
     `Create`: reap the directory, look at the destination, reserve, build the stage. `taken`
     is what the look finds; somebody may still take the name later.
     */
    method Create(parent: string, declared: nat, lease: nat, token: nat, now: Time, expires: Time, taken: bool,
                  faults: bool)
      returns (refused: Option<Refusal>)
      requires Valid()
      modifies this
      ensures Valid() && |old(slots)| <= |slots| <= |old(slots)| + 1
      ensures refused == Some(TooLarge) <==> declared > MAX_FILE_BYTES
      ensures refused == Some(TooLarge) ==> slots == old(slots)
      ensures declared <= MAX_FILE_BYTES ==> AfterReaping(old(slots), slots[..|old(slots)|], parent, now, faults)
      ensures refused.None? ==> |slots| == |old(slots)| + 1 && Built(slots[|old(slots)|], parent, declared, lease, now)
      ensures !faults && declared <= MAX_FILE_BYTES ==>
        var reaped := slots[..|old(slots)|];
        && refused == (if taken then Some(DestinationExists)
                       else if CanReserve(reaped, declared) then None else Some(NoCapacity))
        && (refused.Some? ==> |slots| == |old(slots)|)
    {
      if declared > MAX_FILE_BYTES {
        return Some(TooLarge);
      }
      hide StoreOk, AfterReaping, Reservation, CanReserve, Apply;
      var reaped := ReapParent(parent, token, now, faults);
      ghost var before := slots;
      SameLength(old(slots), before, parent, now, faults);
      assert slots[..|before|] == slots;
      if !reaped {
        return Some(Failed);
      }
      if taken {
        return Some(DestinationExists);
      }
      var ok := ReserveLocked(parent, declared, lease, now, expires);
      if !ok {
        return Some(NoCapacity);
      }
      assert slots[..|before|] == before;
      var unsure: bool := *;
      if faults && unsure {
        return Some(Failed);
      }
      var built := BuildLast(declared, lease, now, expires, faults);
      return if built then None else Some(Failed);
    }
  }
}
