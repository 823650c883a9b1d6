/**
 One staged download on disk: its cleanup row, its stage directory and the
 destination name, with what a power loss may leave of each directory entry.
 */
module StagingDisk {
  import opened Basics

  /**
   A directory entry, by what is visible now and what may be on disk:
   `Appearing` is visible but not yet durable, `Vanishing` is removed but its
   removal is not yet durable. A crash may settle each of the two either way,
   independently of every other entry.
   */
  datatype Entry = Gone | Present | Appearing | Vanishing

  predicate Visible(e: Entry) { e.Present? || e.Appearing? }

  predicate MayExist(e: Entry) { !e.Gone? }

  predicate MayLack(e: Entry) { !e.Present? }

  function Removed(e: Entry): Entry { if e.Gone? then Gone else Vanishing }

  function Synced(e: Entry): Entry { if Visible(e) then Present else Gone }

  predicate AfterCrash(e: Entry, f: Entry) {
    match e
    case Gone => f.Gone?
    case Present => f.Present?
    case Appearing => f.Gone? || f.Present?
    case Vanishing => f.Gone? || f.Present?
  }

  datatype Phase = Reserved | StageCreated | MarkerCreated | DataCreated | Publishing | CleanupAuthorized

  /** The row of `get_cleanup`; `identified` says whether the stage identity is stored. */
  datatype Row = Row(phase: Phase, identified: bool, lease: Option<nat>, declared: nat,
                     expires: Time, nextRetry: Time, notified: bool)

  /** The staged bytes and whether the file was synced since the last write. */
  datatype File = File(bytes: seq<nat>, durable: bool)

  /**
   The destination name: free, held by somebody else, or a link to the staged file
   that is durable (`Linked`) or not yet (`Linking`).
   */
  datatype Destination = Free | Taken | Linking | Linked

  /**
   `foreign` says that somebody else put an entry into the stage directory.
   `handedOver` remembers the bytes that Publish synced.
   */
  datatype Cell = Cell(row: Option<Row>, dir: Entry, marker: Entry, data: Entry, probe: Entry, foreign: bool,
                       file: File, dest: Destination, handedOver: Option<seq<nat>>)

  /** A row keeps what it declared for as long as it exists, and one that is gone never comes back. */
  predicate KeepsCharge(c: Cell, d: Cell) {
    d.row.Some? ==> c.row.Some? && d.row.value.declared == c.row.value.declared
  }

  // ---- primitive effects ---------------------------------------------------

  function SyncParent(c: Cell): Cell {
    c.(dir := Synced(c.dir), dest := if c.dest.Linking? then Linked else c.dest)
  }

  function SyncStage(c: Cell): Cell {
    c.(marker := Synced(c.marker), data := Synced(c.data), probe := Synced(c.probe))
  }

  predicate StageEmpty(c: Cell) {
    !Visible(c.marker) && !Visible(c.data) && !Visible(c.probe) && !c.foreign
  }

  /** Power loss: every unsettled entry falls one way or the other, unsynced bytes may be cut. */
  predicate Crash(c: Cell, d: Cell) {
    && d.row == c.row && d.foreign == c.foreign && d.handedOver == c.handedOver
    && AfterCrash(c.dir, d.dir)
    && AfterCrash(c.marker, d.marker) && AfterCrash(c.data, d.data) && AfterCrash(c.probe, d.probe)
    && (if c.file.durable then d.file == c.file else d.file.durable && |d.file.bytes| <= |c.file.bytes|)
    && (match c.dest
        case Linking => d.dest.Linked? || d.dest.Free?
        case other => d.dest == c.dest)
  }

  /** The power loss after which everything visible turns out durable, and nothing else. */
  function Settled(c: Cell): (d: Cell)
    ensures Crash(c, d)
  {
    SyncParent(SyncStage(c)).(file := c.file.(durable := true))
  }

  // ---- crash safety --------------------------------------------------------

  /** What the stage directory may hold in each phase, as far as the directory itself may exist. */
  predicate ContentsFit(c: Cell, phase: Phase) {
    match phase
    case Reserved => c.marker.Gone? && c.data.Gone? && c.probe.Gone?
    case StageCreated => c.data.Gone? && c.probe.Gone?
    case MarkerCreated => c.dir.Present? && c.marker.Present?
    case DataCreated => c.dir.Present? && c.marker.Present? && c.probe.Gone?
    case Publishing => c.dir.Present? && c.marker.Present? && c.probe.Gone?
    case CleanupAuthorized =>
      Visible(c.marker) && (MayExist(c.data) || MayExist(c.probe)) ==> c.marker.Present?
  }

  /**
   A directory that may exist has a row, the row's phase tells what may be inside,
   and a destination that may be ours holds exactly the synced bytes.
   */
  predicate Safe(c: Cell) {
    && (MayExist(c.dir) ==> c.row.Some?)
    && (c.row.Some? ==> (c.row.value.identified <==> c.row.value.phase != Reserved))
    && (c.row.Some? && MayExist(c.dir) ==> ContentsFit(c, c.row.value.phase))
    && (c.dest.Linking? || c.dest.Linked? ==> c.file.durable && c.handedOver == Some(c.file.bytes))
  }

  /** Removal in order: once the marker may be missing, nothing else may come back. */
  predicate Firm(c: Cell) {
    && Safe(c)
    && (c.row.Some? && c.row.value.phase.CleanupAuthorized? && MayExist(c.dir) && MayLack(c.marker) ==>
          c.data.Gone? && c.probe.Gone?)
  }

  /** Crash safety is closed under crashes, so it holds across any number of them. */
  lemma CrashKeepsSafe(c: Cell, d: Cell)
    requires Safe(c) && Crash(c, d)
    ensures Safe(d)
    ensures Firm(c) ==> Firm(d)
    ensures !d.dir.Appearing? && !d.dir.Vanishing? && !d.data.Vanishing? && !d.probe.Vanishing?
  {
  }

  /**
   What safety means at any crash point: whatever the disk holds afterwards, a
   stage directory has a row, and the destination is free, somebody else's, or
   holds exactly the bytes that were synced before it was linked.
   */
  lemma SafeMeans(c: Cell, d: Cell)
    requires Safe(c) && Crash(c, d)
    ensures d.row.None? ==> d.dir.Gone?
    ensures d.dest.Linked? ==> c.handedOver == Some(d.file.bytes)
    ensures d.dest.Taken? <==> c.dest.Taken?
  {
  }

  // ---- recovery ------------------------------------------------------------

  predicate SizesFit(c: Cell, declared: nat) {
    (Visible(c.data) || Visible(c.probe)) ==> |c.file.bytes| <= declared
  }

  /** The guards of `cleanupOpened`, together: exactly then a fault-free attempt removes everything. */
  predicate Reapable(c: Cell)
    requires c.row.Some?
  {
    var r := c.row.value;
    || !Visible(c.dir)
    || (r.phase.Reserved? && StageEmpty(c))
    || (!r.phase.Reserved? && !c.foreign && Visible(c.marker) && SizesFit(c, r.declared))
    || (r.phase.CleanupAuthorized? && StageEmpty(c))
  }

  /** The documented leak: the directory was recorded but its marker never became durable. */
  predicate MarkerNeverMade(c: Cell) {
    c.row.Some? && c.row.value.phase.StageCreated? && Visible(c.dir) && !Visible(c.marker)
  }

  /** The other leak: the marker is gone while an earlier removal came back. */
  predicate RemovalCameBack(c: Cell) {
    c.row.Some? && c.row.value.phase.CleanupAuthorized? && Visible(c.dir) && !Visible(c.marker) &&
    (Visible(c.data) || Visible(c.probe))
  }

  /**
   A stage that a crash leaves behind can be reaped, except when somebody else put an
   entry into it, when it holds more than it declared, or in exactly two further situations.
   */
  lemma WhatRecoveryCannotReap(c: Cell)
    requires Safe(c) && c.row.Some?
    ensures Reapable(c) <==>
            (Visible(c.dir) ==>
               !c.foreign && SizesFit(c, c.row.value.declared) && !MarkerNeverMade(c) && !RemovalCameBack(c))
  {
  }

  /** Firm stages never run into the last one, whatever a crash does. */
  lemma FirmIsReapable(c: Cell, d: Cell)
    requires Firm(c) && Crash(c, d) && c.row.Some?
    ensures Reapable(d) <==>
            (Visible(d.dir) ==> !d.foreign && SizesFit(d, c.row.value.declared) && !MarkerNeverMade(d))
  {
  }

  /** A removal is still unsynced and nothing visible will make the next attempt sync it. */
  predicate Exposed(c: Cell) {
    !Visible(c.data) && !Visible(c.probe) && (c.data.Vanishing? || c.probe.Vanishing?)
  }

  function ProbeRemoved(c: Cell): Cell { c.(probe := Removed(c.probe)) }

  function DataRemoved(c: Cell): Cell { c.(data := Removed(c.data)) }

  /** Removing the marker of an authorized stage whose other entries are out of sight. */
  function MarkerRemoved(c: Cell): Cell { c.(marker := Removed(c.marker)) }

  /** A removal and the sync that follows it are crash safe. */
  predicate RemovalIsSafe(c: Cell, next: Cell) { Safe(c) && Safe(next) && Safe(SyncStage(next)) }

  predicate RemovalIsFirm(next: Cell) { Firm(next) && Firm(SyncStage(next)) }

  /** Cleanup is authorized and the marker is still there. */
  predicate Removable(c: Cell) {
    c.row.Some? && c.row.value.phase.CleanupAuthorized? && Visible(c.dir) && Visible(c.marker)
  }

  /** While the marker stands, the other entries may go one by one. */
  lemma EntryRemoval(c: Cell)
    requires Safe(c) && Removable(c)
    ensures RemovalIsSafe(c, ProbeRemoved(c)) && RemovalIsSafe(c, DataRemoved(c))
    ensures Firm(c) ==> RemovalIsFirm(ProbeRemoved(c)) && RemovalIsFirm(DataRemoved(c))
    ensures !Exposed(SyncStage(ProbeRemoved(c))) && !Exposed(SyncStage(DataRemoved(c)))
  {
  }

  /** The marker may go when nothing else is in sight, and firmly so when no removal is unsynced. */
  lemma MarkerRemoval(c: Cell)
    requires Safe(c) && Removable(c) && !Visible(c.data) && !Visible(c.probe)
    ensures RemovalIsSafe(c, MarkerRemoved(c))
    ensures Firm(c) && !Exposed(c) ==> RemovalIsFirm(MarkerRemoved(c))
  {
  }

  /**
   The step that opens the second leak, exactly: with the other entries removed,
   removing the marker keeps every crash outcome reapable if and only if their
   removal was synced first.
   */
  lemma MarkerRemovalIsSafeIffSynced(c: Cell)
    requires Safe(c) && c.row.Some? && c.row.value.phase.CleanupAuthorized? && Visible(c.dir) && c.marker.Present?
    requires !Visible(c.data) && !Visible(c.probe) && !c.foreign
    requires |c.file.bytes| <= c.row.value.declared
    ensures (forall d :: Crash(MarkerRemoved(c), d) ==> Reapable(d)) <==> !Exposed(c)
  {
    var m := MarkerRemoved(c);
    if Exposed(c) {
      var back := m.(dir := Present, marker := Gone,
                     data := if c.data.Vanishing? then Present else Gone,
                     probe := if c.probe.Vanishing? then Present else Gone,
                     file := c.file.(durable := true),
                     dest := if c.dest.Linking? then Linked else c.dest);
      assert Crash(m, back);
      assert !Reapable(back);
    } else {
      forall d | Crash(m, d) ensures Reapable(d) {}
    }
  }

  /**
   How the second leak comes about. A cleanup of a finished stage removes the data,
   its sync fails, and the attempt ends firm and retained. The retry finds no data,
   so nothing syncs that removal before the marker goes; a crash there can bring
   the data back without its marker, and no later attempt removes the stage.
   */
  lemma RetryAfterFailedSyncCanLeak(c: Cell)
    requires Firm(c) && c.row.Some? && c.row.value.phase.DataCreated? && c.dir.Present? && c.data.Present?
    requires !c.foreign && c.file.durable
    requires c.dest.Free?
    ensures var authorized := c.(row := Some(c.row.value.(phase := CleanupAuthorized)));
            var unsynced := authorized.(data := Removed(authorized.data));
            var retried := MarkerRemoved(unsynced);
            && Firm(authorized) && Firm(unsynced) && Exposed(unsynced) && Safe(retried)
            && exists d :: Crash(retried, d) && RemovalCameBack(d) && !Reapable(d)
  {
    var unsynced := c.(row := Some(c.row.value.(phase := CleanupAuthorized)), data := Removed(c.data));
    var back := unsynced.(marker := Gone, data := Present);
    assert Crash(MarkerRemoved(unsynced), back) && RemovalCameBack(back);
  }
}
