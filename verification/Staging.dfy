/**
 The staging protocol of a download: write-ahead phases in a row, a private stage
 directory, publication by hard link, cleanup under a lease, and recovery.

 Every change of the disk goes through `Move`, which records the state it leaves:
 `seen` therefore holds every point at which the machine may stop. With `faults`
 a step may fail, and a failed database write may have been applied or not.
 */
module Staging {
  import opened Basics
  import opened StagingDisk

  const RETRY_INTERVAL := 3600
  const EXPIRED_INTERVAL := 24 * 3600

  /** How long a retained stage rests: an hour, or a day once it has expired. */
  function Interval(r: Row, now: Time): Time {
    if now < r.expires then RETRY_INTERVAL else EXPIRED_INTERVAL
  }

  /** What happens to a stage that has lost its owner: attempts to reap it, and power losses. */
  datatype Event = Retried(now: Time) | PowerLost(at: nat, next: Cell)

  function Retries(events: seq<Event>): nat {
    if events == [] then 0
    else Retries(events[..|events| - 1]) + (if events[|events| - 1].Retried? then 1 else 0)
  }

  /** No attempt began on an unsynced removal. */
  predicate AllSynced(begun: seq<Cell>) {
    forall i :: 0 <= i < |begun| ==> !Exposed(begun[i])
  }

  lemma OneMoreBegun(begun: seq<Cell>, c: Cell)
    ensures AllSynced(begun + [c]) <==> AllSynced(begun) && !Exposed(c)
  {
    if AllSynced(begun + [c]) {
      assert !Exposed((begun + [c])[|begun|]);
      forall i | 0 <= i < |begun| ensures !Exposed(begun[i]) { assert begun[i] == (begun + [c])[i]; }
    }
  }

  /** Each life of the process makes at most one attempt. */
  predicate OneAttemptEach(events: seq<Event>) {
    forall i :: 0 < i < |events| ==> !(events[i - 1].Retried? && events[i].Retried?)
  }

  /** What the insert of a reservation leaves: a leased row, and nothing on disk. */
  function Reservation(declared: nat, lease: nat, now: Time, expires: Time, dest: Destination): Cell {
    Cell(Some(Row(Reserved, false, Some(lease), declared, expires, now, false)),
         Gone, Gone, Gone, Gone, false, File([], true), dest, None)
  }

  class Stage {
    var cell: Cell
    var active: bool    // the id is in Store.active
    var lease: nat      // the token this Stage holds
    var released: bool
    var open: bool      // the staged file handle
    var seen: seq<Cell> // not stored by the program

    ghost predicate Valid()
      reads this
    {
      && (forall i :: 0 <= i < |seen| ==> Safe(seen[i]))
      && (forall i, j :: 0 <= i < j < |seen| ==> KeepsCharge(seen[i], seen[j]))
      && seen != [] && seen[|seen| - 1] == cell
    }

    /** Every state since the n-th one keeps removals in order. */
    ghost predicate FirmSince(n: nat)
      reads this
    {
      forall i :: n <= i < |seen| ==> Firm(seen[i])
    }

    predicate Holds(token: nat)
      reads this
    {
      cell.row.Some? && cell.row.value.lease == Some(token)
    }

    /** A stage just reserved: its row is stored and leased, and nothing is on disk yet. */
    constructor (token: nat, declared: nat, expires: Time, nextRetry: Time, dest: Destination)
      requires dest.Free? || dest.Taken?
      ensures Valid() && Firm(cell) && Holds(token) && lease == token && active && !released
      ensures cell == Reservation(declared, token, nextRetry, expires, dest) && seen == [cell]
    {
      cell := Reservation(declared, token, nextRetry, expires, dest);
      active, lease, released, open := true, token, false, false;
      new;
      seen := [cell];
    }

    /** A stage of an earlier process, known by its row and its directory only. */
    constructor Inherited(c: Cell)
      requires Safe(c)
      ensures Valid() && cell == c && !active && released && seen == [c]
    {
      cell, active, lease, released, open := c, false, 0, true, false;
      seen := [c];
    }

    // ---- steps -------------------------------------------------------------

    method Fault(faults: bool) returns (failed: bool)
      ensures failed ==> faults
    {
      var chance: bool := *;
      failed := faults && chance;
    }

    method Move(next: Cell)
      requires Valid() && Safe(next) && KeepsCharge(cell, next)
      modifies this`cell, this`seen
      ensures Valid() && cell == next && seen == old(seen) + [next]
    {
      cell := next;
      seen := seen + [next];
    }

    /** A conditional row update: it succeeds, fails, or fails after taking effect. */
    method UpdateRow(next: Row, faults: bool) returns (ok: bool)
      requires Valid() && cell.row.Some? && Safe(cell.(row := Some(next))) && next.declared == cell.row.value.declared
      modifies this`cell, this`seen
      ensures Valid()
      ensures (cell == old(cell).(row := Some(next)) && seen == old(seen) + [cell]) ||
              (!ok && cell == old(cell) && seen == old(seen))
      ensures !ok ==> faults
    {
      var lost := Fault(faults);
      if lost {
        return false;
      }
      Move(cell.(row := Some(next)));
      var unsure := Fault(faults);
      ok := !unsure;
    }

    /** `deleteClaimedRow` */
    method DeleteClaimedRow(token: Option<nat>, faults: bool) returns (removed: bool)
      requires Valid() && cell.row.Some? && cell.row.value.lease == token && cell.dir.Gone?
      modifies this`cell, this`seen
      ensures Valid()
      ensures (cell == old(cell).(row := None) && seen == old(seen) + [cell]) ||
              (!removed && cell == old(cell) && seen == old(seen))
      ensures !removed ==> faults
    {
      var lost := Fault(faults);
      if lost {
        return false;
      }
      Move(cell.(row := None));
      var unsure := Fault(faults);
      removed := !unsure;
    }

    // ---- cleanup -----------------------------------------------------------

    /** What any cleanup attempt may change: never a foreign entry, never the file, never the destination. */
    ghost predicate CleanedFrom(before: Cell)
      reads this
    {
      && cell.foreign == before.foreign && cell.file == before.file && cell.handedOver == before.handedOver
      && (cell.dest == before.dest || (before.dest.Linking? && cell.dest.Linked?))
      && (cell.row.Some? ==> before.row.Some?)
      && (cell.row.Some? ==> cell.row == before.row ||
                             cell.row.value == before.row.value.(phase := CleanupAuthorized, identified := true))
    }

    /** `removeEmptyStage` */
    method RemoveEmptyStage(token: Option<nat>, faults: bool) returns (removed: bool)
      requires Valid() && cell.row.Some? && cell.row.value.lease == token && cell.row.value.phase.CleanupAuthorized?
      requires Visible(cell.dir) && !Visible(cell.marker) && !Visible(cell.data) && !Visible(cell.probe)
      modifies this`cell, this`seen
      ensures Valid() && CleanedFrom(old(cell)) && old(seen) <= seen
      ensures removed ==> cell.row.None? && cell.dir.Gone?
      ensures !faults ==> (removed <==> !old(cell).foreign) && (!removed ==> cell == old(cell))
      ensures Firm(old(cell)) ==> FirmSince(|old(seen)|) && Firm(cell)
    {
      var unverified := Fault(faults);  // parent or stage identity
      if unverified || cell.foreign {   // rmdir refuses a directory that is not empty
        return false;
      }
      Move(cell.(dir := Removed(cell.dir)));
      var unsynced := Fault(faults);
      if unsynced {
        return false;
      }
      Move(SyncParent(cell));
      removed := DeleteClaimedRow(token, faults);
    }

    /** `cleanupReservedStage`: only an empty directory may go, after its identity is recorded. */
    method CleanupReservedStage(r: Row, faults: bool) returns (removed: bool)
      requires Valid() && cell.row == Some(r) && !r.identified && Visible(cell.dir)
      modifies this`cell, this`seen
      ensures Valid() && CleanedFrom(old(cell)) && old(seen) <= seen
      ensures removed ==> cell.row.None? && cell.dir.Gone?
      ensures !faults ==> (removed <==> StageEmpty(old(cell))) && (!removed ==> cell == old(cell))
      ensures Firm(old(cell)) ==> FirmSince(|old(seen)|) && Firm(cell)
    {
      var unopened := Fault(faults);
      if r.phase != Reserved || unopened || !StageEmpty(cell) {
        return false;
      }
      var ok := UpdateRow(r.(phase := CleanupAuthorized, identified := true), faults);
      if !ok {
        return false;
      }
      removed := RemoveEmptyStage(r.lease, faults);
    }

    /** Remove one visible entry of the stage and sync the directory. */
    method RemoveAndSync(next: Cell, faults: bool) returns (ok: bool)
      requires Valid() && RemovalIsSafe(cell, next) && next.row == cell.row
      modifies this`cell, this`seen
      ensures Valid() && old(seen) <= seen
      ensures ok ==> cell == SyncStage(next)
      ensures !ok ==> faults && (cell == old(cell) || cell == next)
      ensures Firm(old(cell)) && RemovalIsFirm(next) ==> FirmSince(|old(seen)|) && Firm(cell)
    {
      var kept := Fault(faults);
      if kept {
        return false;
      }
      Move(next);
      var unsynced := Fault(faults);
      if unsynced {
        return false;
      }
      Move(SyncStage(cell));
      ok := true;
    }

    /** The removals of `cleanupOpened` once the row says that cleanup is authorized. */
    method RemoveEntries(r: Row, faults: bool) returns (removed: bool)
      requires Valid() && cell.row == Some(r) && r.phase.CleanupAuthorized? && !cell.foreign
      requires Visible(cell.dir) && Visible(cell.marker)
      modifies this`cell, this`seen
      ensures Valid() && CleanedFrom(old(cell)) && old(seen) <= seen
      ensures removed ==> cell.row.None? && cell.dir.Gone?
      ensures !faults ==> removed
      ensures Firm(old(cell)) && !Exposed(old(cell)) ==> FirmSince(|old(seen)|) && Firm(cell)
    {
      hide Safe, Firm;
      var ok;
      if Visible(cell.probe) {
        EntryRemoval(cell);
        ok := RemoveAndSync(ProbeRemoved(cell), faults);
        if !ok { return false; }
      }
      if Visible(cell.data) {
        EntryRemoval(cell);
        ok := RemoveAndSync(DataRemoved(cell), faults);
        if !ok { return false; }
      }
      MarkerRemoval(cell);
      ok := RemoveAndSync(MarkerRemoved(cell), faults);
      if !ok { return false; }
      removed := RemoveEmptyStage(r.lease, faults);
    }

    /** The end of `cleanupOpened`, for a stage with its marker: check the size, authorize, remove. */
    method CleanupMarked(r: Row, faults: bool) returns (removed: bool)
      requires Valid() && cell.row == Some(r) && r.identified && !cell.foreign
      requires Visible(cell.dir) && Visible(cell.marker)
      modifies this`cell, this`seen
      ensures Valid() && CleanedFrom(old(cell)) && old(seen) <= seen
      ensures removed ==> cell.row.None? && cell.dir.Gone?
      ensures !faults ==> (removed <==> SizesFit(old(cell), r.declared)) && (!removed ==> cell == old(cell))
      ensures Firm(old(cell)) && !Exposed(old(cell)) ==> FirmSince(|old(seen)|) && Firm(cell)
    {
      removed := false;
      if (Visible(cell.probe) || Visible(cell.data)) && |cell.file.bytes| > r.declared {
        return;
      }
      var authorized := r.(phase := CleanupAuthorized);
      if r.phase != CleanupAuthorized {
        var ok := UpdateRow(authorized, faults);
        if !ok {
          return;
        }
      }
      removed := RemoveEntries(authorized, faults);
    }

    /**
     `cleanupOpened`. Without faults it removes row and directory exactly when the
     guards of `Reapable` hold, and otherwise changes nothing. With or without
     faults it keeps removals in order, unless it starts on an unsynced removal.
     */
    method CleanupOpened(r: Row, faults: bool) returns (removed: bool)
      requires Valid() && cell.row == Some(r)
      modifies this`cell, this`seen
      ensures Valid() && CleanedFrom(old(cell)) && old(seen) <= seen
      ensures removed ==> cell.row.None? && cell.dir.Gone?
      ensures !faults ==> (removed <==> Reapable(old(cell))) && (!removed ==> cell == old(cell))
      ensures Firm(old(cell)) && !Exposed(old(cell)) ==> FirmSince(|old(seen)|) && Firm(cell)
    {
      var unsafe := Fault(faults);  // record, parent and stage checks
      if unsafe {
        return false;
      }
      if !Visible(cell.dir) {
        var unsynced := Fault(faults);
        if unsynced {
          return false;
        }
        Move(SyncParent(cell));
        removed := DeleteClaimedRow(r.lease, faults);
        return;
      }
      if !r.identified {
        removed := CleanupReservedStage(r, faults);
        return;
      }
      if cell.foreign {
        return false;
      }
      if !Visible(cell.marker) {
        if r.phase.CleanupAuthorized? && StageEmpty(cell) {
          removed := RemoveEmptyStage(r.lease, faults);
          return;
        }
        return false;
      }
      removed := CleanupMarked(r, faults);
    }

    // ---- leases ------------------------------------------------------------

    /** `Startup`: the process lock makes every inherited lease stale. */
    method Startup()
      requires Valid()
      modifies this`cell, this`seen, this`active
      ensures Valid() && !active && old(seen) <= seen
      ensures old(cell).row.None? ==> cell == old(cell)
      ensures old(cell).row.Some? ==> cell == old(cell).(row := Some(old(cell).row.value.(lease := None)))
      ensures Firm(old(cell)) ==> FirmSince(|old(seen)|) && Firm(cell)
    {
      if cell.row.Some? {
        Move(cell.(row := Some(cell.row.value.(lease := None))));
      }
      active := false;
    }

    /** `claim`: only a row without lease, and never one that is being staged here. */
    method Claim(token: nat, faults: bool) returns (r: Option<Row>)
      requires Valid()
      modifies this`cell, this`seen
      ensures Valid() && old(seen) <= seen
      ensures r.Some? ==>
                cell.row == r && r.value.lease == Some(token) && !active && old(cell).row.Some? &&
                old(cell).row.value.lease.None?
      ensures r.Some? ==> cell == old(cell).(row := Some(old(cell).row.value.(lease := Some(token))))
      ensures active || (old(cell).row.Some? && old(cell).row.value.lease.Some?) ==> r.None? && cell == old(cell)
      ensures !faults && !active && old(cell).row.Some? && old(cell).row.value.lease.None? ==> r.Some?
      ensures r.None? ==>
                cell == old(cell) ||
                (old(cell).row.Some? && cell == old(cell).(row := Some(old(cell).row.value.(lease := Some(token)))))
      ensures Firm(old(cell)) ==> FirmSince(|old(seen)|) && Firm(cell)
    {
      if active || cell.row.None? || cell.row.value.lease.Some? {
        return None;
      }
      var ok := UpdateRow(cell.row.value.(lease := Some(token)), faults);
      if !ok {
        if Holds(token) {
          ReleaseClaim(token, faults);
        }
        return None;
      }
      r := cell.row;
    }

    /** `releaseClaim`: best effort. */
    method ReleaseClaim(token: nat, faults: bool)
      requires Valid() && Holds(token)
      modifies this`cell, this`seen
      ensures Valid() && old(seen) <= seen
      ensures cell == old(cell) || cell == old(cell).(row := Some(old(cell).row.value.(lease := None)))
      ensures Firm(old(cell)) ==> FirmSince(|old(seen)|) && Firm(cell)
    {
      var _ := UpdateRow(cell.row.value.(lease := None), faults);
    }

    /** `finishAttempt`, falling back to `releaseClaim`. */
    method FinishAttempt(token: nat, next: Time, notified: bool, faults: bool)
      requires Valid() && Holds(token)
      modifies this`cell, this`seen
      ensures Valid() && old(seen) <= seen
      ensures cell.row.Some? && cell == old(cell).(row := cell.row)
      ensures cell.row.value.phase == old(cell).row.value.phase &&
              cell.row.value.declared == old(cell).row.value.declared
      ensures !faults ==> cell.row.value == old(cell).row.value.(lease := None, nextRetry := next, notified := notified)
      ensures Firm(old(cell)) ==> FirmSince(|old(seen)|) && Firm(cell)
    {
      var ok := UpdateRow(cell.row.value.(lease := None, nextRetry := next, notified := notified), faults);
      if !ok && Holds(token) {
        ReleaseClaim(token, faults);
      }
    }

    /** One round of `reapParentOpened`. */
    method ReapOne(token: nat, now: Time, faults: bool) returns (removed: bool)
      requires Valid()
      modifies this`cell, this`seen
      ensures Valid() && old(seen) <= seen
      ensures removed ==> cell.row.None? && cell.dir.Gone?
      ensures !faults && !active && old(cell).row.Some? && old(cell).row.value.lease.None? &&
              old(cell).row.value.nextRetry <= now ==>
                var r := old(cell).row.value;
                if Reapable(old(cell)) then removed
                else cell == old(cell).(row := Some(r.(nextRetry := now + Interval(r, now),
                                                       notified := r.notified || r.expires <= now)))
      ensures Firm(old(cell)) && !Exposed(old(cell)) ==> FirmSince(|old(seen)|) && Firm(cell)
    {
      if cell.row.None? || cell.row.value.lease.Some? || cell.row.value.nextRetry > now {
        return false;
      }
      var value := Claim(token, faults);
      if value.None? {
        return false;
      }
      var r := value.value;
      removed := CleanupOpened(r, faults);
      if removed {
        return;
      }
      if Holds(token) {
        FinishAttempt(token, now + Interval(r, now), r.notified || r.expires <= now, faults);
      }
    }

    /**
     Recovery after a restart: `Startup`, then one fault-free round once the row is
     due. It removes row and directory, or finds one of the guards closed and keeps
     the row, its phase and its bytes charged to the quota.
     */
    method Recover(token: nat, now: Time) returns (removed: bool)
      requires Valid() && cell.row.Some? && cell.row.value.nextRetry <= now
      modifies this`cell, this`seen, this`active
      ensures Valid()
      ensures removed <==> Reapable(old(cell))
      ensures removed ==> cell.row.None? && cell.dir.Gone?
      ensures !removed ==>
                cell.row.Some? && cell == old(cell).(row := cell.row) &&
                cell.row.value.phase == old(cell).row.value.phase &&
                           cell.row.value.declared == old(cell).row.value.declared
    {
      Startup();
      removed := ReapOne(token, now, false);
    }

    // ---- power loss ---------------------------------------------------------

    /** The machine stops at a point the protocol went through, and with it what was in memory. */
    method PowerLoss(at: nat, next: Cell)
      requires Valid() && at < |seen| && Crash(seen[at], next)
      modifies this
      ensures Valid() && cell == next && seen == old(seen)[..at + 1] + [next]
      ensures !active && !open && released
      ensures old(Firm(seen[at])) ==> Firm(cell)
      ensures !Exposed(cell)
    {
      CrashKeepsSafe(seen[at], next);
      seen := seen[..at + 1] + [next];
      cell, active, released, open := next, false, true, false;
    }

    /** One event: an attempt, in any way it may fail, or a power loss during the last one, and a restart. */
    method Live(token: nat, event: Event, from: nat) returns (since: nat)
      requires Valid() && from < |seen|
      modifies this
      ensures Valid() && since < |seen|
      ensures old(FirmSince(from)) && (event.Retried? ==> !Exposed(old(cell))) ==> FirmSince(since)
      ensures event.PowerLost? ==> !Exposed(cell)
    {
      match event
      case Retried(now) =>
        since := |seen| - 1;
        var _ := ReapOne(token, now, true);
      case PowerLost(at, next) =>
        var point := if from <= at < |seen| then at else |seen| - 1;
        PowerLoss(point, if Crash(seen[point], next) then next else Settled(seen[point]));
        since := |seen| - 1;
        Startup();
    }

    /**
     A stage that lost its owner, over any number of lives of the process: attempts with
     any faults, and power losses at any point since `from` and with any outcome. `begun`
     are the states in which attempts began. All of it is crash safe, and firm as long as
     no attempt begins on an unsynced removal, as when each life makes at most one attempt.
     */
    method Sessions(token: nat, events: seq<Event>, from: nat) returns (begun: seq<Cell>)
      requires Valid() && from < |seen|
      modifies this
      ensures Valid() && |begun| == Retries(events)
      ensures old(FirmSince(from)) && AllSynced(begun) ==> Firm(cell)
      ensures OneAttemptEach(events) && !Exposed(old(cell)) ==> AllSynced(begun)
    {
      begun := [];
      var since: nat := from;
      for n := 0 to |events|
        invariant Valid() && since < |seen| && |begun| == Retries(events[..n])
        invariant old(FirmSince(from)) && AllSynced(begun) ==> FirmSince(since)
        invariant OneAttemptEach(events) && !Exposed(old(cell)) ==>
                    AllSynced(begun) && ((n > 0 && events[n - 1].Retried?) || !Exposed(cell))
      {
        assert events[..n + 1][..n] == events[..n];
        if events[n].Retried? {
          OneMoreBegun(begun, cell);
          begun := begun + [cell];
        }
        since := Live(token, events[n], since);
      }
      assert events[..|events|] == events;
    }

    /**
     After all that, one round without faults removes what is left exactly when it is
     reapable. If no attempt began on an unsynced removal, it fails only for a foreign entry,
     for data beyond the declared size, or for a marker that never became durable.
     */
    method SessionsThenRecover(token: nat, events: seq<Event>, from: nat, now: Time)
      returns (begun: seq<Cell>, stage: Cell, removed: bool)
      requires Valid() && from < |seen|
      modifies this
      ensures Valid() && |begun| == Retries(events)
      ensures stage.row.None? ==> stage.dir.Gone? && cell == stage
      ensures stage.row.Some? ==> (removed <==> Reapable(stage))
      ensures removed ==> cell.row.None? && cell.dir.Gone?
      ensures old(FirmSince(from)) && AllSynced(begun) && stage.row.Some? ==>
                (removed <==> (Visible(stage.dir) ==>
                                 && !stage.foreign && SizesFit(stage, stage.row.value.declared)
                                 && !MarkerNeverMade(stage)))
      ensures OneAttemptEach(events) && !Exposed(old(cell)) ==> AllSynced(begun)
    {
      begun := Sessions(token, events, from);
      stage, removed := cell, false;
      if cell.row.Some? {
        if AllSynced(begun) { WhatRecoveryCannotReap(cell); }
        removed := Recover(token, if now < cell.row.value.nextRetry then cell.row.value.nextRetry else now);
      }
    }

    // ---- the live stage ----------------------------------------------------

    /** `releasePending` */
    method ReleasePending(now: Time, faults: bool)
      requires Valid()
      modifies this
      ensures Valid() && old(seen) <= seen && released && !active && lease == old(lease)
      ensures cell == old(cell).(row := cell.row)
      ensures cell.row.Some? <==> old(cell).row.Some?
      ensures Firm(old(cell)) ==> FirmSince(|old(seen)|) && Firm(cell)
    {
      if !released && Holds(lease) {
        var unread := Fault(faults);
        if unread {
          ReleaseClaim(lease, faults);
        } else {
          var r := cell.row.value;
          FinishAttempt(lease, now + Interval(r, now), r.notified, faults);
        }
      }
      ReleaseLocal();
    }

    method ReleaseLocal()
      modifies this`active, this`released, this`open
      ensures !active && released && !open
    {
      active, released, open := false, true, false;
    }

    /** `Stage.Cleanup` */
    method Cleanup(now: Time, faults: bool) returns (removed: bool)
      requires Valid()
      modifies this
      ensures Valid() && old(seen) <= seen && released
      ensures removed ==> cell.row.None? && cell.dir.Gone?
      ensures cell.dest == old(cell).dest || (old(cell).dest.Linking? && cell.dest.Linked?)
      ensures cell.foreign == old(cell).foreign && cell.file == old(cell).file
      ensures !faults && !old(released) && old(cell).row.Some? && old(cell).row.value.lease == Some(old(lease)) ==>
                (removed <==> Reapable(old(cell)))
      ensures Firm(old(cell)) && !Exposed(old(cell)) ==> FirmSince(|old(seen)|) && Firm(cell)
    {
      removed := false;
      if released {
        return;
      }
      open := false;
      var unread := Fault(faults);
      if !unread && Holds(lease) {
        removed := CleanupOpened(cell.row.value, faults);
      }
      if removed {
        ReleaseLocal();
      } else {
        ReleasePending(now, faults);
      }
    }

    method Update(phase: Phase, identified: bool, now: Time, faults: bool) returns (ok: bool)
      requires Valid() && cell.row.Some?
      requires Safe(cell.(row := Some(cell.row.value.(phase := phase, identified := identified, nextRetry := now))))
      modifies this`cell, this`seen
      ensures Valid() && old(seen) <= seen
      ensures var r := old(cell).row.value.(phase := phase, identified := identified, nextRetry := now);
              var next := old(cell).(row := Some(r));
              && (cell == next || (!ok && cell == old(cell)))
              && (Firm(old(cell)) && Firm(next) ==> FirmSince(|old(seen)|))
      ensures !ok ==> faults
    {
      ok := UpdateRow(cell.row.value.(phase := phase, identified := identified, nextRetry := now), faults);
    }

    ghost predicate Staged()
      reads this
    {
      && Holds(lease) && cell.row.value.phase.DataCreated? && Visible(cell.dir) && Visible(cell.data)
      && (cell.dest.Free? || cell.dest.Taken?)
    }

    /** A change that a fault-prone step makes durable only if it is reached. */
    method Attempt(next: Cell, faults: bool) returns (ok: bool)
      requires Valid() && Safe(next) && KeepsCharge(cell, next)
      modifies this`cell, this`seen
      ensures Valid() && old(seen) <= seen
      ensures cell == (if ok then next else old(cell))
      ensures !ok ==> faults
      ensures Firm(next) ==> FirmSince(|old(seen)|)
    {
      var failed := Fault(faults);
      if failed {
        return false;
      }
      Move(next);
      ok := true;
    }

    /** The directory, recorded with its identity and made durable. */
    method MakeDirectory(now: Time, faults: bool) returns (ok: bool)
      requires Valid() && Holds(lease) && cell.row.value.phase.Reserved?
      requires cell.dir.Gone? && cell.marker.Gone? && cell.data.Gone? && cell.probe.Gone?
      requires cell.dest.Free? || cell.dest.Taken?
      modifies this`cell, this`seen
      ensures Valid() && old(seen) <= seen && FirmSince(|old(seen)|) && Firm(cell)
      ensures !ok ==> faults
      ensures cell == old(cell).(row := cell.row, dir := cell.dir)
      ensures Holds(lease) && cell.row.value.declared == old(cell).row.value.declared
      ensures ok ==> cell.row.value.phase.StageCreated? && cell.row.value.identified && cell.dir.Present?
    {
      ok := Attempt(cell.(dir := Appearing), faults);
      if !ok { return; }
      var rejected := Fault(faults);
      if rejected {  // the new directory failed its own checks and is removed again
        Move(cell.(dir := Removed(cell.dir)));
        return false;
      }
      ok := Update(StageCreated, true, now, faults);
      if !ok { return; }
      ok := Attempt(SyncParent(cell), faults);
    }

    /** The directory and its marker, each recorded before the next step relies on it. */
    method MakeMarkedStage(now: Time, faults: bool) returns (ok: bool)
      requires Valid() && Holds(lease) && cell.row.value.phase.Reserved?
      requires cell.dir.Gone? && cell.marker.Gone? && cell.data.Gone? && cell.probe.Gone?
      requires cell.dest.Free? || cell.dest.Taken?
      modifies this`cell, this`seen
      ensures Valid() && old(seen) <= seen && FirmSince(|old(seen)|) && Firm(cell)
      ensures !ok ==> faults
      ensures Holds(lease) && cell.data.Gone? && cell.probe.Gone?
      ensures ok ==> cell.row.value.phase.MarkerCreated? && cell.row.value.declared == old(cell).row.value.declared
      ensures cell.dest == old(cell).dest && cell.foreign == old(cell).foreign
      ensures ok ==> cell.dir.Present? && cell.marker.Present?
    {
      ok := MakeDirectory(now, faults);
      if !ok { return; }
      ok := Attempt(cell.(marker := Appearing), faults);
      if !ok { return; }
      ok := Attempt(SyncStage(cell), faults);  // after syncing and closing the marker
      if !ok { return; }
      ok := Update(MarkerCreated, true, now, faults);
    }

    /** The hard-link probe: made, removed, and its removal synced with the data. */
    method ProbeLinks(faults: bool) returns (ok: bool)
      requires Valid() && Firm(cell) && Holds(lease) && cell.row.value.phase.MarkerCreated?
      requires cell.dir.Present? && cell.marker.Present? && cell.data.Present? && cell.probe.Gone?
      modifies this`cell, this`seen
      ensures Valid() && old(seen) <= seen && FirmSince(|old(seen)|) && Firm(cell)
      ensures !ok ==> faults
      ensures cell == old(cell).(probe := cell.probe)
      ensures ok ==> cell.probe.Gone?
    {
      ok := Attempt(cell.(probe := Appearing), faults);
      if !ok { return; }
      ok := Attempt(cell.(probe := Removed(cell.probe)), faults);
      if !ok { return; }
      ok := Attempt(SyncStage(cell), faults);
    }

    /** The data file and the hard-link probe. */
    method MakeData(now: Time, faults: bool) returns (ok: bool)
      requires Valid() && Firm(cell) && Holds(lease) && cell.row.value.phase.MarkerCreated?
      requires cell.dir.Present? && cell.marker.Present? && cell.data.Gone? && cell.probe.Gone?
      requires cell.dest.Free? || cell.dest.Taken?
      modifies this`cell, this`seen
      ensures Valid() && old(seen) <= seen && FirmSince(|old(seen)|) && Firm(cell)
      ensures !ok ==> faults
      ensures Holds(lease) && !Exposed(cell)
      ensures ok ==> Staged() && cell.data.Present?
      ensures cell.dest == old(cell).dest && cell.foreign == old(cell).foreign
    {
      ok := Attempt(cell.(data := Appearing, file := File([], false)), faults);
      if !ok { return; }
      ok := Attempt(SyncStage(cell), faults);
      if !ok { return; }
      ok := ProbeLinks(faults);
      if !ok { return; }
      ok := Update(DataCreated, true, now, faults);
    }

    /** `createFilesystem`, from a fresh reservation; every prefix of it is crash safe and firm. */
    method CreateFilesystem(now: Time, faults: bool) returns (ok: bool)
      requires Valid() && Holds(lease) && cell.row.value.phase.Reserved?
      requires cell.dir.Gone? && cell.marker.Gone? && cell.data.Gone? && cell.probe.Gone?
      requires cell.dest.Free? || cell.dest.Taken?
      modifies this
      ensures Valid() && old(seen) <= seen && FirmSince(|old(seen)|) && Firm(cell)
      ensures !ok ==> faults
      ensures ok ==> open && Staged() && cell.data.Present?
      ensures cell.dest == old(cell).dest && cell.foreign == old(cell).foreign && lease == old(lease) &&
              released == old(released)
      ensures Holds(lease) && !Exposed(cell)
    {
      ok := MakeMarkedStage(now, faults);
      if !ok { return; }
      ok := MakeData(now, faults);
      if !ok { return; }
      open := true;
    }

    /**
     What `Create` does after the reservation: build the stage, and clean up at once
     if that fails. All of it is crash safe, and firm as long as it runs.
     */
    method Create(now: Time, faults: bool) returns (ok: bool)
      requires Valid() && Holds(lease) && cell.row.value.phase.Reserved? && !released
      requires cell.dir.Gone? && cell.marker.Gone? && cell.data.Gone? && cell.probe.Gone?
      requires cell.dest.Free? || cell.dest.Taken?
      modifies this
      ensures Valid() && old(seen) <= seen && FirmSince(|old(seen)|) && Firm(cell)
      ensures !ok ==> faults && released
      ensures ok ==> open && Staged() && cell.data.Present? && !released && lease == old(lease)
      ensures cell.dest == old(cell).dest && cell.foreign == old(cell).foreign
    {
      ok := CreateFilesystem(now, faults);
      if !ok {
        var _ := Cleanup(now, faults);
      }
    }

    /** The owner writes into the staged file. */
    method Write(bytes: seq<nat>)
      requires Valid() && open && Staged()
      modifies this`cell, this`seen
      ensures Valid() && Staged() && cell == old(cell).(file := File(bytes, false))
    {
      Move(cell.(file := File(bytes, false)));
    }

    /** The first half of `Publish`: sync the file, record the phase, check the stage. */
    method Prepare(now: Time, faults: bool) returns (ready: bool)
      requires Valid() && open && Staged() && cell.data.Present?
      modifies this`cell, this`seen, this`open
      ensures Valid() && old(seen) <= seen && Holds(lease)
      ensures cell.dest == old(cell).dest && cell.foreign == old(cell).foreign
      ensures cell.file.bytes == old(cell).file.bytes
      ensures cell.row.value.declared == old(cell).row.value.declared
      ensures ready ==>
                cell.row.value.phase.Publishing? && cell.row.value.identified && cell.file.durable &&
                cell.handedOver == Some(cell.file.bytes)
      ensures ready ==>
                Visible(cell.dir) && Visible(cell.marker) && cell.data.Present? &&
                |cell.file.bytes| <= cell.row.value.declared
      ensures !faults ==> (ready <==> |old(cell).file.bytes| <= old(cell).row.value.declared)
      ensures Firm(old(cell)) ==> FirmSince(|old(seen)|) && Firm(cell)
    {
      ready := false;
      var failed := Fault(faults);
      if failed { return; }
      Move(cell.(file := cell.file.(durable := true), handedOver := Some(cell.file.bytes)));
      open := false;
      var stored := Update(Publishing, true, now, faults);
      if !stored { return; }
      failed := Fault(faults);  // parent, stage and identity checks
      if failed || !Visible(cell.marker) || !Visible(cell.data) || |cell.file.bytes| > cell.row.value.declared {
        return;
      }
      ready := true;
    }

    /** The second half, once the link is there: make it durable, then clean up. */
    method Conclude(now: Time, faults: bool) returns (clean: bool)
      requires Valid() && Holds(lease) && cell.row.value.phase.Publishing? && cell.row.value.identified && !released
      requires cell.dest.Linking? && Visible(cell.dir) && Visible(cell.marker) && cell.data.Present?
      requires |cell.file.bytes| <= cell.row.value.declared
      modifies this
      ensures Valid() && old(seen) <= seen
      ensures (cell.dest.Linking? || cell.dest.Linked?) && cell.file == old(cell).file &&
              cell.handedOver == old(cell).handedOver
      ensures clean ==> cell.dest.Linked? && cell.row.None? && cell.dir.Gone?
      ensures !faults ==> (clean <==> !old(cell).foreign)
      ensures Firm(old(cell)) ==> FirmSince(|old(seen)|) && Firm(cell)
    {
      clean := false;
      var failed := Fault(faults);
      if failed {
        ReleasePending(now, faults);
        return;
      }
      Move(SyncParent(cell));
      var stored := Update(CleanupAuthorized, true, now, faults);
      if !stored {
        ReleasePending(now, faults);
        return;
      }
      clean := Cleanup(now, faults);
    }

    /**
     `Publish`. If it commits, the destination is a link to exactly the bytes that
     were synced; if it reports success, the link is durable and stage and row are
     gone. A destination that was taken stays as it was.
     */
    method Publish(now: Time, faults: bool) returns (committed: bool, clean: bool)
      requires Valid() && open && Staged() && !released && cell.data.Present?
      modifies this
      ensures Valid() && old(seen) <= seen
      ensures committed <==> cell.dest.Linking? || cell.dest.Linked?
      ensures committed ==>
                old(cell).dest.Free? && cell.file.bytes == old(cell).file.bytes &&
                cell.handedOver == Some(cell.file.bytes)
      ensures !committed ==> cell.dest == old(cell).dest && !clean
      ensures clean ==> committed && cell.dest.Linked? && cell.row.None? && cell.dir.Gone?
      ensures !faults ==>
                (committed <==> old(cell).dest.Free? && |old(cell).file.bytes| <= old(cell).row.value.declared)
      ensures !faults ==> (clean <==> committed && !old(cell).foreign)
      ensures Firm(old(cell)) ==> FirmSince(|old(seen)|) && Firm(cell)
    {
      committed, clean := false, false;
      var ready := Prepare(now, faults);
      if !ready { return; }
      var failed := Fault(faults);
      if failed || !cell.dest.Free? { return; }
      Move(cell.(dest := Linking));
      committed := true;
      clean := Conclude(now, faults);
    }
  }
}
