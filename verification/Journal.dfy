/**
 * The journal of recent transfer observations: a table bounded per context, per agent and
 * by age, and the proof that a reader cannot tell it from a journal that keeps everything.
 */
module Journal {
  import opened Basics
  import Names
  import Text

  const MAX_LIMIT := 64
  const MAX_PER_CONTEXT := 64
  const MAX_PER_AGENT := 4096
  const MAX_CONTEXTS := 64
  const MAX_BYTES := 0x4000_0000
  const AGE_ELIGIBILITY: int := 30 * 24 * 3600
  const DEVICE_LENGTH := 43
  const ZERO_TIME: int := -62_135_596_800

  datatype Observation = Observation(context: string, direction: string, transferId: string, kind: string,
                                     peerId: string, peerLabel: string, destination: string, visibility: string,
                                     bytes: int, observedAt: Time)
  {
    /** The UNIQUE columns of the table. */
    function Key(): (string, string, string) {
      (context, direction, transferId)
    }

    predicate Valid() {
      && Text.ValidLabel(context)
      && ValidTransferId(transferId)
      && Names.ValidDevice(peerId)
      && Text.ValidLabel(peerLabel)
      && Names.ValidPortableName(destination)
      && 0 <= bytes <= MAX_BYTES
      && (direction == "send" || direction == "receive")
      && (direction == "send" ==> kind == "sender_observed_commit")
      && (direction == "receive" ==> kind == "receiver_published")
      && (visibility == "private" || visibility == "public")
      && observedAt != ZERO_TIME
    }

    predicate SameMetadata(o: Observation) {
      o.(observedAt := observedAt) == this
    }
  }

  predicate ValidTransferId(id: string) {
    |id| == 64 && forall i :: 0 <= i < |id| ==> Text.IsDigit(id[i]) || 'a' <= id[i] <= 'f'
  }

  datatype Row = Row(sequence: nat, seen: Observation)

  /** `observed_at desc, sequence desc`. */
  predicate Newer(a: Row, b: Row) {
    a.seen.observedAt > b.seen.observedAt || (a.seen.observedAt == b.seen.observedAt && a.sequence > b.sequence)
  }

  /** `rows` is the table in the order of its index, newest first; `last` the autoincrement counter. */
  datatype Table = Table(rows: seq<Row>, last: nat, contexts: set<string>)

  datatype Failure = Corrupt | InvalidQuery | ConstraintViolation | ContextCapacity
  datatype Outcome<T> = Ok(value: T) | Err(failure: Failure)

  const EmptyTable := Table([], 0, {})

  // ---------------------------------------------------------------- the statements

  /** Rows of one context, in order. */
  function Of(rows: seq<Row>, c: string): (r: seq<Row>)
    ensures forall i :: 0 <= i < |r| ==> r[i] in rows && r[i].seen.context == c
  {
    if rows == [] then []
    else if rows[0].seen.context == c then [rows[0]] + Of(rows[1..], c)
    else Of(rows[1..], c)
  }

  function OfPeer(rows: seq<Row>, peer: string): seq<Row> {
    if rows == [] then []
    else if peer == "" || rows[0].seen.peerId == peer then [rows[0]] + OfPeer(rows[1..], peer)
    else OfPeer(rows[1..], peer)
  }

  function Without(rows: seq<Row>, c: string): seq<Row> {
    if rows == [] then []
    else if rows[0].seen.context != c then [rows[0]] + Without(rows[1..], c)
    else Without(rows[1..], c)
  }

  /** `delete ... where observed_at <= cutoff`. */
  function Young(rows: seq<Row>, cutoff: Time): seq<Row> {
    if rows == [] then []
    else if rows[0].seen.observedAt > cutoff then [rows[0]] + Young(rows[1..], cutoff)
    else Young(rows[1..], cutoff)
  }

  /** The inserted row at its place in the index. */
  function Placed(rows: seq<Row>, x: Row): (r: seq<Row>)
    ensures |r| == |rows| + 1
  {
    if rows == [] || Newer(x, rows[0]) then [x] + rows else [rows[0]] + Placed(rows[1..], x)
  }

  /** `delete` of the context's rows at offset `keep` and beyond. */
  function Trimmed(rows: seq<Row>, c: string, keep: nat): seq<Row> {
    if rows == [] then []
    else if rows[0].seen.context != c then [rows[0]] + Trimmed(rows[1..], c, keep)
    else if keep == 0 then Trimmed(rows[1..], c, 0)
    else [rows[0]] + Trimmed(rows[1..], c, keep - 1)
  }

  function Take(rows: seq<Row>, n: nat): (r: seq<Row>)
    ensures |r| == Min(n, |rows|)
  {
    if n <= |rows| then rows[..n] else rows
  }

  predicate HasKey(rows: seq<Row>, key: (string, string, string)) {
    exists i :: 0 <= i < |rows| && rows[i].seen.Key() == key
  }

  predicate Conflicts(rows: seq<Row>, o: Observation) {
    exists i :: 0 <= i < |rows| && rows[i].seen.Key() == o.Key() &&
                (!rows[i].seen.SameMetadata(o) || !rows[i].seen.Valid())
  }

  // ---------------------------------------------------------------- the operations

  function Appended(t: Table, o: Observation): Table {
    var young := Young(t.rows, o.observedAt - AGE_ELIGIBILITY);
    t.(rows := Placed(young, Row(t.last + 1, o)), last := t.last + 1)
  }

  function Capped(t: Table, c: string): Table {
    t.(rows := Take(Trimmed(t.rows, c, MAX_PER_CONTEXT), MAX_PER_AGENT))
  }

  datatype Answer = Fails(failure: Failure) | Known | Stores

  /** The schema refuses times before 1970, peer identities spelled with line breaks, and unknown contexts. */
  function Answered(t: Table, o: Observation): Answer {
    if !o.Valid() then Fails(Corrupt)
    else if HasKey(t.rows, o.Key()) then (if Conflicts(t.rows, o) then Fails(Corrupt) else Known)
    else if o.observedAt < 0 || |o.peerId| != DEVICE_LENGTH || o.context !in t.contexts then Fails(ConstraintViolation)
    else Stores
  }

  function Insert(t: Table, o: Observation): Table {
    if Answered(t, o).Stores? then Capped(Appended(t, o), o.context) else t
  }

  /** The unbounded reference: nothing is evicted for want of room. */
  function Remember(t: Table, o: Observation): Table {
    if Answered(t, o).Stores? then Appended(t, o) else t
  }

  function Clear(t: Table, c: string): Table {
    t.(rows := Without(t.rows, c))
  }

  function AddContext(t: Table, c: string): Table {
    if c in t.contexts || |t.contexts| >= MAX_CONTEXTS then t else t.(contexts := t.contexts + {c})
  }

  /** Deleting the row of a context cascades to its observations. */
  function DropContext(t: Table, c: string): Table {
    t.(rows := Without(t.rows, c), contexts := t.contexts - {c})
  }

  function Listed(t: Table, c: string, peer: string, limit: nat): seq<Row> {
    Take(OfPeer(Of(t.rows, c), peer), limit)
  }

  // ---------------------------------------------------------------- order

  ghost predicate Sorted(rows: seq<Row>) {
    forall i, j :: 0 <= i < j < |rows| ==> Newer(rows[i], rows[j])
  }

  ghost predicate Subset(part: seq<Row>, rows: seq<Row>) {
    forall r :: r in part ==> r in rows
  }

  /** Some of the rows, in the same order. */
  ghost predicate Selects(part: seq<Row>, rows: seq<Row>) {
    Subset(part, rows) && (Sorted(rows) ==> Sorted(part))
  }

  lemma SortedTail(head: Row, rest: seq<Row>)
    ensures Sorted([head] + rest) <==> Sorted(rest) && forall r :: r in rest ==> Newer(head, r)
  {
    var rows := [head] + rest;
    if Sorted(rows) {
      forall i, j | 0 <= i < j < |rest| ensures Newer(rest[i], rest[j]) {
        assert Newer(rows[i + 1], rows[j + 1]);
      }
      forall r | r in rest ensures Newer(head, r) {
        var j :| 0 <= j < |rest| && rest[j] == r;
        assert Newer(rows[0], rows[j + 1]);
      }
    }
  }

  lemma SelectsOneMore(head: Row, part: seq<Row>, rest: seq<Row>)
    requires Selects(part, rest)
    ensures Selects(part, [head] + rest) && Selects([head] + part, [head] + rest)
  {
    SortedTail(head, rest);
    SortedTail(head, part);
  }

  lemma {:induction false} OfSelects(rows: seq<Row>, c: string)
    ensures Selects(Of(rows, c), rows)
  {
    if rows != [] {
      OfSelects(rows[1..], c);
      SelectsOneMore(rows[0], Of(rows[1..], c), rows[1..]);
      assert rows == [rows[0]] + rows[1..];
    }
  }

  lemma {:induction false} YoungSelects(rows: seq<Row>, cutoff: Time)
    ensures Selects(Young(rows, cutoff), rows)
  {
    if rows != [] {
      YoungSelects(rows[1..], cutoff);
      SelectsOneMore(rows[0], Young(rows[1..], cutoff), rows[1..]);
      assert rows == [rows[0]] + rows[1..];
    }
  }

  lemma {:induction false} WithoutSelects(rows: seq<Row>, c: string)
    ensures Selects(Without(rows, c), rows) && forall r :: r in Without(rows, c) ==> r.seen.context != c
  {
    if rows != [] {
      WithoutSelects(rows[1..], c);
      SelectsOneMore(rows[0], Without(rows[1..], c), rows[1..]);
      assert rows == [rows[0]] + rows[1..];
    }
  }

  lemma {:induction false} TrimmedSelects(rows: seq<Row>, c: string, keep: nat)
    ensures Selects(Trimmed(rows, c, keep), rows)
  {
    if rows != [] {
      var less := if rows[0].seen.context == c && keep > 0 then keep - 1 else keep;
      TrimmedSelects(rows[1..], c, less);
      SelectsOneMore(rows[0], Trimmed(rows[1..], c, less), rows[1..]);
      assert rows == [rows[0]] + rows[1..];
    }
  }

  lemma {:induction false} PlacedHolds(rows: seq<Row>, x: Row)
    ensures forall r :: r in Placed(rows, x) <==> r == x || r in rows
  {
    if rows == [] || Newer(x, rows[0]) {
    } else {
      PlacedHolds(rows[1..], x);
    }
  }

  lemma {:induction false} PlacedIsSorted(rows: seq<Row>, x: Row)
    requires Sorted(rows) && forall i :: 0 <= i < |rows| ==> rows[i].sequence < x.sequence
    ensures Sorted(Placed(rows, x))
  {
    if rows == [] || Newer(x, rows[0]) {
    } else {
      PlacedIsSorted(rows[1..], x);
      PlacedHolds(rows[1..], x);
      forall i | 0 <= i < |Placed(rows[1..], x)| ensures Newer(rows[0], Placed(rows[1..], x)[i]) {
        assert Placed(rows[1..], x)[i] in Placed(rows[1..], x);
      }
    }
  }

  // ---------------------------------------------------------------- how a context's view moves

  lemma {:induction false} OfYoung(rows: seq<Row>, c: string, cutoff: Time)
    ensures Of(Young(rows, cutoff), c) == Young(Of(rows, c), cutoff)
  {
    if rows != [] {
      OfYoung(rows[1..], c, cutoff);
      OfHead(rows[0], Young(rows[1..], cutoff), c);
      if rows[0].seen.context == c {
        assert Of(rows, c)[1..] == Of(rows[1..], c);
      }
    }
  }

  lemma OfHead(head: Row, rest: seq<Row>, c: string)
    ensures Of([head] + rest, c) == if head.seen.context == c then [head] + Of(rest, c) else Of(rest, c)
  {
    assert ([head] + rest)[1..] == rest;
  }

  lemma PlacedAtHead(view: seq<Row>, x: Row)
    requires view != [] ==> Newer(x, view[0])
    ensures Placed(view, x) == [x] + view
  {
  }

  lemma PlacedBehind(head: Row, view: seq<Row>, x: Row)
    requires !Newer(x, head)
    ensures Placed([head] + view, x) == [head] + Placed(view, x)
  {
    assert ([head] + view)[1..] == view;
  }

  lemma {:induction false} OfPlaced(rows: seq<Row>, c: string, x: Row)
    requires Sorted(rows)
    ensures Of(Placed(rows, x), c) == if x.seen.context == c then Placed(Of(rows, c), x) else Of(rows, c)
  {
    if rows == [] || Newer(x, rows[0]) {
      OfHead(x, rows, c);
      var view := Of(rows, c);
      if view != [] {
        var i :| 0 <= i < |rows| && rows[i] == view[0];
        assert Newer(x, view[0]);
      }
      PlacedAtHead(view, x);
    } else {
      var head, rest := rows[0], rows[1..];
      OfPlaced(rest, c, x);
      OfHead(head, Placed(rest, x), c);
      if head.seen.context == c {
        PlacedBehind(head, Of(rest, c), x);
      }
    }
  }

  lemma {:induction false} OfTrimmed(rows: seq<Row>, c: string, keep: nat, d: string)
    ensures Of(Trimmed(rows, c, keep), d) == if d == c then Take(Of(rows, c), keep) else Of(rows, d)
  {
    if rows != [] {
      var rest := rows[1..];
      if rows[0].seen.context != c {
        OfTrimmed(rest, c, keep, d);
        assert Trimmed(rows, c, keep)[1..] == Trimmed(rest, c, keep);
      } else if keep == 0 {
        OfTrimmed(rest, c, 0, d);
      } else {
        OfTrimmed(rest, c, keep - 1, d);
        assert Trimmed(rows, c, keep)[1..] == Trimmed(rest, c, keep - 1);
      }
    }
  }

  lemma {:induction false} OfWithout(rows: seq<Row>, c: string, d: string)
    ensures Of(Without(rows, c), d) == if d == c then [] else Of(rows, d)
  {
    if rows != [] {
      OfWithout(rows[1..], c, d);
      assert rows == [rows[0]] + rows[1..];
      OfHead(rows[0], rows[1..], d);
      OfHead(rows[0], Without(rows[1..], c), d);
    }
  }

  /** Expiry removes the tail of a newest-first view, so it commutes with keeping the head. */
  lemma {:induction false} TakeYoung(view: seq<Row>, n: nat, cutoff: Time)
    requires Sorted(view)
    ensures Take(Young(view, cutoff), n) == Young(Take(view, n), cutoff)
  {
    if view == [] || n == 0 {
    } else if view[0].seen.observedAt > cutoff {
      TakeYoung(view[1..], n - 1, cutoff);
      assert Take(view, n)[1..] == Take(view[1..], n - 1);
      assert Young(view, cutoff)[1..] == Young(view[1..], cutoff);
    } else {
      NoneYoung(view, cutoff);
      NoneYoung(Take(view, n), cutoff);
    }
  }

  lemma {:induction false} NoneYoung(view: seq<Row>, cutoff: Time)
    requires forall i :: 0 <= i < |view| ==> view[i].seen.observedAt <= cutoff
    ensures Young(view, cutoff) == []
  {
    if view != [] {
      NoneYoung(view[1..], cutoff);
    }
  }

  lemma TakeCons(head: Row, rest: seq<Row>, n: nat)
    requires n > 0
    ensures Take([head] + rest, n) == [head] + Take(rest, n - 1)
  {
  }

  /** A row beyond the first `n` never influences what the first `n` are after an insertion. */
  lemma {:induction false} TakePlaced(view: seq<Row>, n: nat, x: Row)
    ensures Take(Placed(Take(view, n), x), n) == Take(Placed(view, x), n)
  {
    if n == 0 || view == [] {
    } else {
      var head, rest := view[0], view[1..];
      var few := Take(rest, n - 1);
      assert view == [head] + rest;
      TakeCons(head, rest, n);
      if Newer(x, head) {
        TakeCons(x, view, n);
        TakeCons(x, [head] + few, n);
        assert Take([head] + few, n - 1) == Take(view, n - 1);
      } else {
        TakePlaced(rest, n - 1, x);
        PlacedBehind(head, few, x);
        TakeCons(head, Placed(few, x), n);
        TakeCons(head, Placed(rest, x), n);
      }
    }
  }

  // ---------------------------------------------------------------- what every table keeps

  ghost predicate Stored(r: Row, t: Table) {
    r.sequence <= t.last && r.seen.context in t.contexts && r.seen.Valid() && r.seen.observedAt >= 0
  }

  ghost predicate UniqueKeys(rows: seq<Row>) {
    forall r, s :: r in rows && s in rows && r.seen.Key() == s.seen.Key() ==> r == s
  }

  ghost predicate Coherent(t: Table) {
    && Sorted(t.rows)
    && UniqueKeys(t.rows)
    && (forall r :: r in t.rows ==> Stored(r, t))
    && |t.contexts| <= MAX_CONTEXTS
  }

  ghost predicate Bounded(t: Table) {
    forall c :: |Of(t.rows, c)| <= MAX_PER_CONTEXT
  }

  lemma SelectionIsCoherent(t: Table, rows: seq<Row>)
    requires Coherent(t) && Selects(rows, t.rows)
    ensures Coherent(t.(rows := rows))
  {
    assert forall r :: r in rows ==> Stored(r, t.(rows := rows)) by {
      forall r | r in rows ensures Stored(r, t.(rows := rows)) {
        assert Stored(r, t);
      }
    }
  }

  lemma AppendedIsCoherent(t: Table, o: Observation)
    requires Coherent(t) && Answered(t, o).Stores?
    ensures Coherent(Appended(t, o))
  {
    hide Young, Placed;
    var young := Young(t.rows, o.observedAt - AGE_ELIGIBILITY);
    YoungSelects(t.rows, o.observedAt - AGE_ELIGIBILITY);
    var x := Row(t.last + 1, o);
    var after := Appended(t, o);
    PlacedHolds(young, x);
    assert Sorted(after.rows) by {
      forall i | 0 <= i < |young| ensures young[i].sequence < x.sequence {
        assert young[i] in t.rows && Stored(young[i], t);
      }
      PlacedIsSorted(young, x);
    }
    forall r | r in after.rows ensures Stored(r, after) {
      if r != x {
        assert r in t.rows && Stored(r, t);
      }
    }
    forall r | r in young ensures r.seen.Key() != o.Key() {
      var i :| 0 <= i < |t.rows| && t.rows[i] == r;
    }
  }

  lemma {:induction false} SplitByContext(rows: seq<Row>, c: string)
    ensures |rows| == |Of(rows, c)| + |Without(rows, c)|
  {
    if rows != [] {
      SplitByContext(rows[1..], c);
    }
  }

  lemma {:induction false} RowsByContext(rows: seq<Row>, contexts: set<string>)
    requires forall r :: r in rows ==> r.seen.context in contexts
    requires forall c :: |Of(rows, c)| <= MAX_PER_CONTEXT
    ensures |rows| <= MAX_PER_CONTEXT * |contexts|
    decreases contexts
  {
    if rows != [] {
      assert rows[0] in rows;
      var c := rows[0].seen.context;
      WithoutSelects(rows, c);
      forall d ensures |Of(Without(rows, c), d)| <= MAX_PER_CONTEXT {
        OfWithout(rows, c, d);
      }
      RowsByContext(Without(rows, c), contexts - {c});
      SplitByContext(rows, c);
      assert |contexts - {c}| == |contexts| - 1;
    }
  }

  /** With at most 64 contexts the global cap never evicts a row. */
  lemma GlobalCapNeverEvicts(t: Table, o: Observation)
    requires Coherent(t) && Bounded(t) && Answered(t, o).Stores?
    ensures Insert(t, o).rows == Trimmed(Appended(t, o).rows, o.context, MAX_PER_CONTEXT)
    ensures |Insert(t, o).rows| <= MAX_PER_AGENT
    ensures Coherent(Insert(t, o)) && Bounded(Insert(t, o))
  {
    AppendedIsCoherent(t, o);
    var full := Appended(t, o);
    var rows := Trimmed(full.rows, o.context, MAX_PER_CONTEXT);
    TrimmedSelects(full.rows, o.context, MAX_PER_CONTEXT);
    SelectionIsCoherent(full, rows);
    forall c ensures |Of(rows, c)| <= MAX_PER_CONTEXT {
      ViewAfterInsert(t, o, c);
      OfTrimmed(full.rows, o.context, MAX_PER_CONTEXT, c);
      YoungIsShorter(Of(t.rows, c), o.observedAt - AGE_ELIGIBILITY);
    }
    forall r | r in rows ensures r.seen.context in full.contexts {
      assert Stored(r, full);
    }
    RowsByContext(rows, full.contexts);
  }

  lemma {:induction false} YoungIsShorter(rows: seq<Row>, cutoff: Time)
    ensures |Young(rows, cutoff)| <= |rows|
  {
    if rows != [] {
      YoungIsShorter(rows[1..], cutoff);
    }
  }

  lemma OfAppended(rows: seq<Row>, c: string, cutoff: Time, x: Row)
    requires Sorted(rows)
    ensures var young := Young(Of(rows, c), cutoff);
      Of(Placed(Young(rows, cutoff), x), c) == if x.seen.context == c then Placed(young, x) else young
  {
    assert Sorted(Young(rows, cutoff)) by {
      YoungSelects(rows, cutoff);
    }
    OfPlaced(Young(rows, cutoff), c, x);
    OfYoung(rows, c, cutoff);
  }

  /** One context's view after an append: what has not expired, with the new row in its place. */
  lemma ViewAfterInsert(t: Table, o: Observation, c: string)
    requires Sorted(t.rows)
    ensures var young := Young(Of(t.rows, c), o.observedAt - AGE_ELIGIBILITY);
      Of(Appended(t, o).rows, c) == if o.context == c then Placed(young, Row(t.last + 1, o)) else young
  {
    var cutoff := o.observedAt - AGE_ELIGIBILITY;
    var x := Row(t.last + 1, o);
    assert Appended(t, o).rows == Placed(Young(t.rows, cutoff), x);
    assert x.seen.context == o.context;
    OfAppended(t.rows, c, cutoff, x);
  }
}
