/**
 The bounded enrollment fact log: append, prefix pruning with a replay floor,
 the reservation loops, and replay.
 */
module FactLog {
  import opened Basics

  const MAX_FACT_ROWS := 16832
  const FACT_HISTORY_TARGET := 16384
  const MAX_FACT_PAGE := 256
  const FACT_RETENTION: int := 30 * 24 * 3600

  type EnrollmentId = nat
  type DeviceId = nat

  datatype Kind = PendingAdmitted | PendingExpired | MemberApproved | MemberRevoked

  /** What a transaction asks to append; the table assigns the number. */
  datatype Entry = Entry(kind: Kind, enrollment: EnrollmentId, device: DeviceId, name: string,
                         occurredAt: Time, expiresAt: Option<Time>, revision: Option<nat>)

  datatype Fact = Fact(number: nat, entry: Entry)

  /**
   `rows` is the fact table in ascending number, `floor` the stored replay floor
   and `last` the autoincrement counter. `history` is not stored by the program:
   it remembers every fact ever appended.
   */
  datatype Log = Log(rows: seq<Fact>, floor: nat, last: nat, history: seq<Fact>)

  ghost predicate Numbered(facts: seq<Fact>) {
    forall i :: 0 <= i < |facts| ==> facts[i].number == i + 1
  }

  /** The retained rows are the part of the history after the floor. */
  ghost predicate Wellformed(log: Log) {
    && Numbered(log.history)
    && log.last == |log.history|
    && log.floor <= log.last
    && log.rows == log.history[log.floor..]
  }

  const EmptyLog := Log([], 0, 0, [])

  // ---- append --------------------------------------------------------------

  /** The kinds of one enrollment's facts, in order. */
  function KindsOf(facts: seq<Fact>, e: EnrollmentId): seq<Kind> {
    if facts == [] then []
    else KindsOf(facts[..|facts| - 1], e) +
         (if facts[|facts| - 1].entry.enrollment == e then [facts[|facts| - 1].entry.kind] else [])
  }

  lemma {:induction false} KindsOfConcat(a: seq<Fact>, b: seq<Fact>, e: EnrollmentId)
    ensures KindsOf(a + b, e) == KindsOf(a, e) + KindsOf(b, e)
  {
    if b == [] {
      assert a + b == a;
    } else {
      var c := b[..|b| - 1];
      assert (a + b)[..|a + b| - 1] == a + c;
      KindsOfConcat(a, c, e);
    }
  }

  lemma KindsOfAppend(facts: seq<Fact>, f: Fact, e: EnrollmentId)
    ensures KindsOf(facts + [f], e) ==
            KindsOf(facts, e) + (if f.entry.enrollment == e then [f.entry.kind] else [])
  {
    assert (facts + [f])[..|facts + [f]| - 1] == facts;
  }

  /** `validateFactOrder`: the counts of one enrollment's retained facts, by kind. */
  predicate OrderOk(rows: seq<Fact>, kind: Kind, e: EnrollmentId) {
    var n := multiset(KindsOf(rows, e));
    var admitted, expired, approved, revoked :=
      n[PendingAdmitted], n[PendingExpired], n[MemberApproved], n[MemberRevoked];
    match kind
    case PendingAdmitted => admitted + expired + approved + revoked == 0
    case PendingExpired => admitted == 1 && expired + approved + revoked == 0
    case MemberApproved => admitted == 1 && expired + approved + revoked == 0
    case MemberRevoked => revoked == 0 && expired == 0 && (approved == 1 || admitted == 0)
  }

  function Append(log: Log, entry: Entry): Log {
    var f := Fact(log.last + 1, entry);
    Log(log.rows + [f], log.floor, log.last + 1, log.history + [f])
  }

  /** `insertFact`: nothing is appended when the order check fails. */
  function Insert(log: Log, entry: Entry): Option<Log> {
    if OrderOk(log.rows, entry.kind, entry.enrollment) then Some(Append(log, entry)) else None
  }

  lemma AppendKeepsWellformed(log: Log, entry: Entry)
    requires Wellformed(log)
    ensures Wellformed(Append(log, entry))
  {
    var after := Append(log, entry);
    assert after.history[log.floor..] == log.history[log.floor..] + [Fact(log.last + 1, entry)];
  }

  // ---- pruning -------------------------------------------------------------

  /** The admission of an enrollment that still waits: never pruned. */
  predicate Protected(f: Fact, waiting: set<EnrollmentId>) {
    f.entry.kind.PendingAdmitted? && f.entry.enrollment in waiting
  }

  /** How many of the oldest rows pressure may prune. */
  function FreePrefix(rows: seq<Fact>, waiting: set<EnrollmentId>): (n: nat)
    ensures n <= |rows|
    ensures forall i :: 0 <= i < n ==> !Protected(rows[i], waiting)
    ensures n < |rows| ==> Protected(rows[n], waiting)
  {
    if rows == [] || Protected(rows[0], waiting) then 0
    else 1 + FreePrefix(rows[1..], waiting)
  }

  /** Delete the n oldest rows, leaving the floor at the last one deleted. */
  function DropOldest(log: Log, n: nat): Log
    requires n <= |log.rows|
  {
    if n == 0 then log
    else log.(rows := log.rows[n..], floor := log.rows[n - 1].number)
  }

  lemma DropOldestKeepsWellformed(log: Log, n: nat)
    requires Wellformed(log) && n <= |log.rows|
    ensures Wellformed(DropOldest(log, n))
    ensures DropOldest(log, n).floor == log.floor + n
  {
    if n > 0 {
      assert log.rows[n - 1] == log.history[log.floor + n - 1];
      assert log.rows[n..] == log.history[log.floor + n..];
    }
  }

  lemma DropOldestCompose(log: Log, n: nat)
    requires n + 1 <= |log.rows|
    ensures DropOldest(DropOldest(log, n), 1) == DropOldest(log, n + 1)
  {
    var mid := DropOldest(log, n);
    assert mid.rows == log.rows[n..];
    assert mid.rows[1..] == log.rows[n + 1..];
  }

  lemma {:induction false} FreePrefixAfterDrop(rows: seq<Fact>, waiting: set<EnrollmentId>, n: nat)
    requires n <= FreePrefix(rows, waiting)
    ensures FreePrefix(rows[n..], waiting) == FreePrefix(rows, waiting) - n
  {
    if n == 0 {
      assert rows[0..] == rows;
    } else {
      FreePrefixAfterDrop(rows[1..], waiting, n - 1);
      assert rows[1..][n - 1..] == rows[n..];
    }
  }

  function CountFree(rows: seq<Fact>, waiting: set<EnrollmentId>): nat {
    if rows == [] then 0
    else (if Protected(rows[0], waiting) then 0 else 1) + CountFree(rows[1..], waiting)
  }

  /** Without pressure, a row goes when it is old or the unprotected rest is long enough. */
  predicate Expendable(rows: seq<Fact>, waiting: set<EnrollmentId>, now: Time)
    requires rows != []
  {
    rows[0].entry.occurredAt <= now - FACT_RETENTION || CountFree(rows[1..], waiting) >= FACT_HISTORY_TARGET
  }

  /** `pruneOneFactPrefix` */
  method PruneOneFactPrefix(tx: Log, waiting: set<EnrollmentId>, pressure: bool, now: Time)
    returns (out: Log, pruned: bool)
    ensures pruned <==> tx.rows != [] && !Protected(tx.rows[0], waiting) &&
                        (pressure || Expendable(tx.rows, waiting, now))
    ensures out == if pruned then DropOldest(tx, 1) else tx
  {
    if tx.rows == [] {
      return tx, false;
    }
    var oldest := tx.rows[0];
    if Protected(oldest, waiting) {
      return tx, false;
    }
    if !pressure {
      var newerUnprotected := CountFree(tx.rows[1..], waiting);
      if oldest.entry.occurredAt > now - FACT_RETENTION && newerUnprotected < FACT_HISTORY_TARGET {
        return tx, false;
      }
    }
    return tx.(rows := tx.rows[1..], floor := oldest.number), true;
  }

  // ---- the reservation scheme ----------------------------------------------

  /** `factOccupancy` */
  function Occupancy(rows: seq<Fact>, waiting: set<EnrollmentId>, active: nat): nat {
    |rows| + 2 * |waiting| + active
  }

  /** How many rows have to go before `need` more slots fit. */
  function Excess(log: Log, waiting: set<EnrollmentId>, active: nat, need: nat): nat {
    Max(0, Occupancy(log.rows, waiting, active) + need - MAX_FACT_ROWS)
  }

  predicate CanReserve(log: Log, waiting: set<EnrollmentId>, active: nat, need: nat) {
    Excess(log, waiting, active, need) <= FreePrefix(log.rows, waiting)
  }

  /** What the reservation loop leaves behind, whether it succeeds or not. */
  function Reserved(log: Log, waiting: set<EnrollmentId>, active: nat, need: nat): Log {
    DropOldest(log, Min(Excess(log, waiting, active, need), FreePrefix(log.rows, waiting)))
  }

  /**
   `ensureFactAdmissionCapacity` (need 3) and `ensureFactMemberCapacity` (need 1).
   The loop prunes exactly the excess, no row more, and gives up only when the
   oldest row left is the admission of an enrollment that still waits.
   */
  method EnsureFactCapacity(tx: Log, waiting: set<EnrollmentId>, active: nat, need: nat)
    returns (out: Log, ok: bool)
    ensures ok == CanReserve(tx, waiting, active, need)
    ensures out == Reserved(tx, waiting, active, need)
    ensures ok ==> Occupancy(out.rows, waiting, active) + need <= MAX_FACT_ROWS
    ensures !ok ==> out.rows == [] || Protected(out.rows[0], waiting)
  {
    out := tx;
    ghost var dropped := 0;
    var free := FreePrefix(tx.rows, waiting);
    while true
      invariant dropped <= Excess(tx, waiting, active, need)
      invariant dropped <= free == FreePrefix(tx.rows, waiting)
      invariant out == DropOldest(tx, dropped)
      decreases |out.rows|
    {
      assert out.rows == tx.rows[dropped..];
      FreePrefixAfterDrop(tx.rows, waiting, dropped);
      if Occupancy(out.rows, waiting, active) + need <= MAX_FACT_ROWS {
        return out, true;
      }
      var pruned;
      var before := out;
      out, pruned := PruneOneFactPrefix(before, waiting, true, 0);
      if !pruned {
        return out, false;
      }
      DropOldestCompose(tx, dropped);
      dropped := dropped + 1;
    }
  }

  /** How many rows an unpressured pass removes. */
  function AgedPrefix(rows: seq<Fact>, waiting: set<EnrollmentId>, now: Time): (n: nat)
    ensures n <= FreePrefix(rows, waiting)
  {
    if rows == [] || Protected(rows[0], waiting) || !Expendable(rows, waiting, now) then 0
    else 1 + AgedPrefix(rows[1..], waiting, now)
  }

  lemma {:induction false} AgedPrefixAfterDrop(rows: seq<Fact>, waiting: set<EnrollmentId>, now: Time, n: nat)
    requires n <= AgedPrefix(rows, waiting, now)
    ensures AgedPrefix(rows[n..], waiting, now) == AgedPrefix(rows, waiting, now) - n
  {
    if n == 0 {
      assert rows[0..] == rows;
    } else {
      AgedPrefixAfterDrop(rows[1..], waiting, now, n - 1);
      assert rows[1..][n - 1..] == rows[n..];
    }
  }

  /** The loop of `PruneFacts`. */
  method PruneAged(tx: Log, waiting: set<EnrollmentId>, now: Time) returns (out: Log, count: nat)
    ensures count == AgedPrefix(tx.rows, waiting, now)
    ensures out == DropOldest(tx, count)
  {
    out, count := tx, 0;
    while true
      invariant count <= AgedPrefix(tx.rows, waiting, now)
      invariant out == DropOldest(tx, count)
      decreases |out.rows|
    {
      assert out.rows == tx.rows[count..];
      AgedPrefixAfterDrop(tx.rows, waiting, now, count);
      var pruned;
      var before := out;
      out, pruned := PruneOneFactPrefix(before, waiting, false, now);
      if !pruned {
        return;
      }
      DropOldestCompose(tx, count);
      count := count + 1;
    }
  }

  /**
   What age pruning may cost a reader: rows go only up to the first protected or
   young row, and while a row younger than the retention period is the last one
   removed, at least the history target of unprotected rows stays.
   */
  lemma {:induction false} AgedPruningKeepsTheTarget(rows: seq<Fact>, waiting: set<EnrollmentId>, now: Time)
    ensures var n := AgedPrefix(rows, waiting, now);
            n > 0 ==> rows[n - 1].entry.occurredAt <= now - FACT_RETENTION ||
                      CountFree(rows[n..], waiting) >= FACT_HISTORY_TARGET
  {
    var n := AgedPrefix(rows, waiting, now);
    if n == 1 {
      assert rows[1..] == rows[n..];
    } else if n > 1 {
      AgedPruningKeepsTheTarget(rows[1..], waiting, now);
      assert rows[1..][n - 1..] == rows[n..];
    }
  }

  // ---- replay --------------------------------------------------------------

  datatype Page = Page(facts: seq<Fact>, floor: nat, highWater: nat)

  datatype Replay = Accepted(page: Page) | CursorExpired(floor: nat, highWater: nat) | ReplayInvalid

  /** `coalesce(max(seq), floor)` */
  function HighWater(log: Log): nat {
    if log.rows == [] then log.floor else log.rows[|log.rows| - 1].number
  }

  function Within(rows: seq<Fact>, cursor: nat, highWater: nat): seq<Fact> {
    if rows == [] then []
    else (if cursor < rows[0].number <= highWater then [rows[0]] else []) + Within(rows[1..], cursor, highWater)
  }

  function Take<T>(s: seq<T>, n: nat): seq<T> {
    if |s| <= n then s else s[..n]
  }

  /** `replayFactsRead` after authorization. */
  function ReplayRead(log: Log, cursor: int, highWater: int, limit: int): Replay {
    if cursor < 0 || highWater < 0 || limit <= 0 || limit > MAX_FACT_PAGE then ReplayInvalid
    else
      var current := HighWater(log);
      var high := if highWater == 0 then current else highWater;
      if cursor < log.floor then CursorExpired(log.floor, current)
      else if cursor > high || high > current then ReplayInvalid
      else Accepted(Page(Take(Within(log.rows, cursor, high), limit), log.floor, high))
  }

  lemma HighWaterIsLast(log: Log)
    requires Wellformed(log)
    ensures HighWater(log) == log.last
  {
    if log.rows != [] {
      assert log.rows[|log.rows| - 1] == log.history[log.last - 1];
    }
  }

  /** On consecutive numbers the range query is a slice. */
  lemma {:induction false} WithinIsSlice(rows: seq<Fact>, base: nat, cursor: nat, high: nat)
    requires forall i :: 0 <= i < |rows| ==> rows[i].number == base + i + 1
    requires base <= cursor <= high <= base + |rows|
    ensures Within(rows, cursor, high) == rows[cursor - base..high - base]
    decreases |rows|
  {
    if rows == [] {
    } else if cursor > base {
      WithinIsSlice(rows[1..], base + 1, cursor, high);
      assert rows[1..][cursor - base - 1..high - base - 1] == rows[cursor - base..high - base];
    } else if high > base {
      WithinIsSlice(rows[1..], base + 1, base + 1, high);
      assert rows[..high - base] == [rows[0]] + rows[1..][..high - base - 1];
      WithinPastCursor(rows[1..], base + 1, cursor, high);
    } else {
      WithinBelow(rows, base, cursor, high);
    }
  }

  lemma {:induction false} WithinPastCursor(rows: seq<Fact>, base: nat, cursor: nat, high: nat)
    requires forall i :: 0 <= i < |rows| ==> rows[i].number == base + i + 1
    requires cursor <= base
    ensures Within(rows, cursor, high) == Within(rows, base, high)
    decreases |rows|
  {
    if rows != [] {
      WithinPastCursor(rows[1..], base + 1, cursor, high);
      WithinPastCursor(rows[1..], base + 1, base, high);
    }
  }

  lemma {:induction false} WithinBelow(rows: seq<Fact>, base: nat, cursor: nat, high: nat)
    requires forall i :: 0 <= i < |rows| ==> rows[i].number == base + i + 1
    requires high <= base
    ensures Within(rows, cursor, high) == []
    decreases |rows|
  {
    if rows != [] {
      WithinBelow(rows[1..], base + 1, cursor, high);
    }
  }

  lemma PageIsSlice(log: Log, cursor: nat, high: nat, limit: nat)
    requires Wellformed(log) && log.floor <= cursor <= high <= log.last
    ensures Take(Within(log.rows, cursor, high), limit) == log.history[cursor..Min(cursor + limit, high)]
  {
    WithinIsSlice(log.rows, log.floor, cursor, high);
    var slice := log.history[cursor..high];
    assert Within(log.rows, cursor, high) == slice by {
      assert log.rows[cursor - log.floor..high - log.floor] == slice;
    }
    if |slice| > limit {
      assert slice[..limit] == log.history[cursor..cursor + limit];
    }
  }

  /**
   An accepted page is the next stretch of everything ever appended: no fact is
   missing, none is repeated, and it is empty only at the high-water mark.
   The three outcomes are told apart exactly.
   */
  lemma ReplayIsHistory(log: Log, cursor: nat, highWater: nat, limit: nat)
    requires Wellformed(log) && 1 <= limit <= MAX_FACT_PAGE
    ensures var high := if highWater == 0 then log.last else highWater;
            match ReplayRead(log, cursor, highWater, limit)
            case CursorExpired(floor, current) => cursor < log.floor == floor && current == log.last
            case ReplayInvalid => log.floor <= cursor && (high < cursor || log.last < high)
            case Accepted(page) =>
              && log.floor <= cursor <= high <= log.last
              && page == Page(log.history[cursor..Min(cursor + limit, high)], log.floor, high)
              && (cursor < high ==> page.facts != [])
  {
    HighWaterIsLast(log);
    var high := if highWater == 0 then log.last else highWater;
    if log.floor <= cursor <= high <= log.last {
      PageIsSlice(log, cursor, high, limit);
      var stop := Min(cursor + limit, high);
      assert cursor < high ==> |log.history[cursor..stop]| > 0;
    }
  }

  lemma WithinStep(rows: seq<Fact>, i: nat, cursor: nat, highWater: nat)
    requires i <= |rows|
    ensures i == |rows| ==> Within(rows[i..], cursor, highWater) == []
    ensures i < |rows| ==>
              Within(rows[i..], cursor, highWater) ==
              (if cursor < rows[i].number <= highWater then [rows[i]] else []) +
              Within(rows[i + 1..], cursor, highWater)
  {
    if i < |rows| { assert rows[i..][1..] == rows[i + 1..]; }
  }

  /** The row scan of `replayFactsRead`. */
  method ScanPage(rows: seq<Fact>, cursor: nat, highWater: nat, limit: nat) returns (facts: seq<Fact>)
    ensures facts == Take(Within(rows, cursor, highWater), limit)
  {
    hide Within;
    facts := [];
    var i := 0;
    assert rows[0..] == rows;
    while i < |rows| && |facts| < limit
      invariant i <= |rows| && |facts| <= limit
      invariant Within(rows, cursor, highWater) == facts + Within(rows[i..], cursor, highWater)
    {
      WithinStep(rows, i, cursor, highWater);
      if cursor < rows[i].number <= highWater {
        facts := facts + [rows[i]];
      }
      i := i + 1;
    }
    WithinStep(rows, i, cursor, highWater);
  }
}
