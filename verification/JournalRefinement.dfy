/**
 * The bounded journal against a journal without bounds, over every run: same answers and
 * same listings, as long as no key comes back after it was evicted.
 */
module JournalRefinement {
  import opened Basics
  import opened Journal

  ghost predicate SameView(b: Table, u: Table, c: string) {
    Of(b.rows, c) == Take(Of(u.rows, c), MAX_PER_CONTEXT)
  }

  ghost predicate Refines(b: Table, u: Table) {
    b.last == u.last && b.contexts == u.contexts && forall c :: SameView(b, u, c)
  }

  ghost predicate Paired(b: Table, u: Table) {
    Coherent(b) && Bounded(b) && Coherent(u) && Refines(b, u)
  }

  /** The key was stored once, and the caps have evicted it since. */
  ghost predicate Evicted(b: Table, u: Table, o: Observation) {
    HasKey(u.rows, o.Key()) && !HasKey(b.rows, o.Key())
  }

  // ---------------------------------------------------------------- the answers agree

  lemma {:induction false} InOf(rows: seq<Row>, r: Row)
    requires r in rows
    ensures r in Of(rows, r.seen.context)
  {
    if r != rows[0] {
      InOf(rows[1..], r);
    }
  }

  lemma BoundedIsSubset(b: Table, u: Table)
    requires Refines(b, u)
    ensures Subset(b.rows, u.rows)
  {
    forall r | r in b.rows ensures r in u.rows {
      var c := r.seen.context;
      InOf(b.rows, r);
      assert SameView(b, u, c);
      assert r in Of(u.rows, c);
      OfSelects(u.rows, c);
    }
  }

  lemma SameAnswer(b: Table, u: Table, o: Observation)
    requires Paired(b, u) && !Evicted(b, u, o)
    ensures Answered(b, o) == Answered(u, o)
  {
    hide Sorted, Stored, SameView;
    BoundedIsSubset(b, u);
    if HasKey(b.rows, o.Key()) {
      var i :| 0 <= i < |b.rows| && b.rows[i].seen.Key() == o.Key();
      var r := b.rows[i];
      assert r in b.rows && r in u.rows;
      forall j | 0 <= j < |u.rows| && u.rows[j].seen.Key() == o.Key() ensures u.rows[j] == r {
        assert u.rows[j] in u.rows;
      }
      forall j | 0 <= j < |b.rows| && b.rows[j].seen.Key() == o.Key() ensures b.rows[j] == r {
        assert b.rows[j] in b.rows;
      }
      var k :| 0 <= k < |u.rows| && u.rows[k] == r;
      assert u.rows[k].seen.Key() == o.Key();
    }
  }

  // ---------------------------------------------------------------- one step

  lemma InsertRefines(b: Table, u: Table, o: Observation)
    requires Paired(b, u) && !Evicted(b, u, o)
    ensures Paired(Insert(b, o), Remember(u, o))
  {
    hide Of, Young, Placed, Trimmed;
    SameAnswer(b, u, o);
    if Answered(b, o).Stores? {
      GlobalCapNeverEvicts(b, o);
      AppendedIsCoherent(u, o);
      forall c ensures SameView(Insert(b, o), Remember(u, o), c) {
        ViewRefines(b, u, o, c);
      }
    }
  }

  lemma TakeAppended(mine: seq<Row>, whole: seq<Row>, cutoff: Time, x: Row)
    requires Sorted(whole) && mine == Take(whole, MAX_PER_CONTEXT)
    ensures Young(mine, cutoff) == Take(Young(whole, cutoff), MAX_PER_CONTEXT)
    ensures Take(Placed(Young(mine, cutoff), x), MAX_PER_CONTEXT) ==
            Take(Placed(Young(whole, cutoff), x), MAX_PER_CONTEXT)
  {
    TakeYoung(whole, MAX_PER_CONTEXT, cutoff);
    TakePlaced(Young(whole, cutoff), MAX_PER_CONTEXT, x);
  }

  /** An insertion into the bounded table keeps the first 64 of what the append gives. */
  lemma ViewAfterBoundedInsert(b: Table, o: Observation, c: string)
    requires Coherent(b) && Bounded(b) && Answered(b, o).Stores?
    ensures var young := Young(Of(b.rows, c), o.observedAt - AGE_ELIGIBILITY);
      Of(Insert(b, o).rows, c) ==
        if o.context == c then Take(Placed(young, Row(b.last + 1, o)), MAX_PER_CONTEXT) else young
  {
    ViewAfterInsert(b, o, c);
    assert Insert(b, o).rows == Trimmed(Appended(b, o).rows, o.context, MAX_PER_CONTEXT) by {
      GlobalCapNeverEvicts(b, o);
    }
    OfTrimmed(Appended(b, o).rows, o.context, MAX_PER_CONTEXT, c);
  }

  lemma ViewRefines(b: Table, u: Table, o: Observation, c: string)
    requires Paired(b, u) && Answered(b, o).Stores? && Answered(u, o).Stores?
    ensures SameView(Insert(b, o), Appended(u, o), c)
  {
    hide Of, Young, Placed, UniqueKeys, Stored, Sorted, Insert, Appended, Answered;
    var mine, whole := Of(b.rows, c), Of(u.rows, c);
    var after, full := Of(Insert(b, o).rows, c), Of(Appended(u, o).rows, c);
    var cutoff := o.observedAt - AGE_ELIGIBILITY;
    var x := Row(b.last + 1, o);
    assert Sorted(whole) by {
      OfSelects(u.rows, c);
    }
    assert mine == Take(whole, MAX_PER_CONTEXT) by {
      assert SameView(b, u, c);
    }
    var young := Young(mine, cutoff);
    assert after == if o.context == c then Take(Placed(young, x), MAX_PER_CONTEXT) else young by {
      ViewAfterBoundedInsert(b, o, c);
    }
    assert full == if o.context == c then Placed(Young(whole, cutoff), x) else Young(whole, cutoff) by {
      ViewAfterInsert(u, o, c);
    }
    assert after == Take(full, MAX_PER_CONTEXT) by {
      TakeAppended(mine, whole, cutoff, x);
    }
  }

  lemma DropRefines(b: Table, u: Table, c: string)
    requires Paired(b, u)
    ensures Paired(Clear(b, c), Clear(u, c)) && Paired(DropContext(b, c), DropContext(u, c))
  {
    DropKeeps(b, c);
    DropKeeps(u, c);
    forall d ensures SameView(Clear(b, c), Clear(u, c), d) && |Of(Clear(b, c).rows, d)| <= MAX_PER_CONTEXT {
      assert SameView(b, u, d);
      OfWithout(b.rows, c, d);
      OfWithout(u.rows, c, d);
    }
    forall d ensures SameView(DropContext(b, c), DropContext(u, c), d) {
      assert SameView(Clear(b, c), Clear(u, c), d);
    }
  }

  lemma DropKeeps(t: Table, c: string)
    requires Coherent(t)
    ensures Coherent(Clear(t, c)) && Coherent(DropContext(t, c))
  {
    WithoutSelects(t.rows, c);
    SelectionIsCoherent(t, Without(t.rows, c));
    var after := DropContext(t, c);
    forall r | r in after.rows ensures Stored(r, after) {
      assert Stored(r, Clear(t, c));
    }
    assert |t.contexts - {c}| <= |t.contexts|;
  }

  lemma AddRefines(b: Table, u: Table, c: string)
    requires Paired(b, u)
    ensures Paired(AddContext(b, c), AddContext(u, c))
  {
    forall d ensures SameView(AddContext(b, c), AddContext(u, c), d) {
      assert SameView(b, u, d);
    }
    assert forall r :: r in b.rows ==> Stored(r, b) && Stored(r, AddContext(b, c));
    assert forall r :: r in u.rows ==> Stored(r, u) && Stored(r, AddContext(u, c));
  }

  // ---------------------------------------------------------------- runs

  datatype Op = Inserting(o: Observation) | Clearing(c: string) | Joining(c: string) | Removing(c: string)

  function Apply(t: Table, op: Op): Table {
    match op
    case Inserting(o) => Insert(t, o)
    case Clearing(c) => Clear(t, c)
    case Joining(c) => AddContext(t, c)
    case Removing(c) => DropContext(t, c)
  }

  /** The same run in the unbounded journal. */
  function Recall(t: Table, op: Op): Table {
    if op.Inserting? then Remember(t, op.o) else Apply(t, op)
  }

  function Run(t: Table, ops: seq<Op>): Table {
    if ops == [] then t else Apply(Run(t, ops[..|ops| - 1]), ops[|ops| - 1])
  }

  function History(t: Table, ops: seq<Op>): Table {
    if ops == [] then t else Recall(History(t, ops[..|ops| - 1]), ops[|ops| - 1])
  }

  /** No insertion of the run carries a key the caps evicted earlier. */
  ghost predicate FreshKeys(ops: seq<Op>) {
    forall i :: 0 <= i < |ops| && ops[i].Inserting? ==>
      !Evicted(Run(EmptyTable, ops[..i]), History(EmptyTable, ops[..i]), ops[i].o)
  }

  lemma {:induction false} RunRefines(ops: seq<Op>)
    requires FreshKeys(ops)
    ensures Paired(Run(EmptyTable, ops), History(EmptyTable, ops))
  {
    if ops == [] {
    } else {
      var n := |ops| - 1;
      var op := ops[n];
      assert FreshKeys(ops[..n]) by {
        forall i | 0 <= i < n && ops[..n][i].Inserting?
          ensures !Evicted(Run(EmptyTable, ops[..n][..i]), History(EmptyTable, ops[..n][..i]), ops[..n][i].o)
        {
          assert ops[..n][..i] == ops[..i];
        }
      }
      RunRefines(ops[..n]);
      var b, u := Run(EmptyTable, ops[..n]), History(EmptyTable, ops[..n]);
      match op
      case Inserting(o) => InsertRefines(b, u, o);
      case Clearing(c) => DropRefines(b, u, c);
      case Joining(c) => AddRefines(b, u, c);
      case Removing(c) => DropRefines(b, u, c);
    }
  }

  // ---------------------------------------------------------------- fresh keys

  ghost predicate InsertedBy(ops: seq<Op>, o: Observation) {
    exists i :: 0 <= i < |ops| && ops[i] == Inserting(o)
  }

  lemma {:induction false} HistoryIsInserted(ops: seq<Op>, r: Row)
    requires r in History(EmptyTable, ops).rows
    ensures InsertedBy(ops, r.seen)
  {
    hide Young, Placed, Without, Answered;
    var n := |ops| - 1;
    var before := History(EmptyTable, ops[..n]);
    var op := ops[n];
    if op == Inserting(r.seen) {
    } else {
      assert r in before.rows by {
        match op
        case Inserting(o) =>
          if Answered(before, o).Stores? {
            YoungSelects(before.rows, o.observedAt - AGE_ELIGIBILITY);
            PlacedHolds(Young(before.rows, o.observedAt - AGE_ELIGIBILITY), Row(before.last + 1, o));
          }
        case Clearing(c) => WithoutSelects(before.rows, c);
        case Joining(c) =>
        case Removing(c) => WithoutSelects(before.rows, c);
      }
      HistoryIsInserted(ops[..n], r);
      var i :| 0 <= i < n && ops[..n][i] == Inserting(r.seen);
      assert ops[i] == Inserting(r.seen);
    }
  }

  /** Transfers never reported twice: the condition a caller can keep without knowing the table. */
  ghost predicate DistinctKeys(ops: seq<Op>) {
    forall i, j :: 0 <= i < j < |ops| && ops[i].Inserting? && ops[j].Inserting? ==> ops[i].o.Key() != ops[j].o.Key()
  }

  lemma DistinctKeysAreFresh(ops: seq<Op>)
    requires DistinctKeys(ops)
    ensures FreshKeys(ops)
  {
    forall i | 0 <= i < |ops| && ops[i].Inserting?
      ensures !Evicted(Run(EmptyTable, ops[..i]), History(EmptyTable, ops[..i]), ops[i].o)
    {
      var rows := History(EmptyTable, ops[..i]).rows;
      forall k | 0 <= k < |rows| ensures rows[k].seen.Key() != ops[i].o.Key() {
        HistoryIsInserted(ops[..i], rows[k]);
        var j :| 0 <= j < i && ops[..i][j] == Inserting(rows[k].seen);
        assert ops[j] == ops[..i][j];
      }
    }
  }

  // ---------------------------------------------------------------- what a reader sees

  lemma {:induction false} OfAnyPeer(rows: seq<Row>)
    ensures OfPeer(rows, "") == rows
  {
    if rows != [] {
      OfAnyPeer(rows[1..]);
    }
  }

  /**
   * Without a peer filter a listing is the one the unbounded journal gives. With a filter it
   * shows the peer's rows among the newest 64 of the context.
   */
  lemma ListingIsExact(b: Table, u: Table, c: string, peer: string, limit: nat)
    requires Refines(b, u) && limit <= MAX_LIMIT
    ensures Listed(b, c, "", limit) == Listed(u, c, "", limit)
    ensures Listed(b, c, peer, limit) == Take(OfPeer(Take(Of(u.rows, c), MAX_PER_CONTEXT), peer), limit)
  {
    assert SameView(b, u, c);
    OfAnyPeer(Of(b.rows, c));
    OfAnyPeer(Of(u.rows, c));
  }

  /** Over every run with fresh keys, on any clock. */
  lemma ListingsOverRuns(ops: seq<Op>, c: string, limit: nat)
    requires FreshKeys(ops) && limit <= MAX_LIMIT
    ensures Listed(Run(EmptyTable, ops), c, "", limit) == Listed(History(EmptyTable, ops), c, "", limit)
    ensures |Run(EmptyTable, ops).rows| <= MAX_PER_AGENT
  {
    RunRefines(ops);
    var b := Run(EmptyTable, ops);
    ListingIsExact(b, History(EmptyTable, ops), c, "", limit);
    forall r | r in b.rows ensures r.seen.context in b.contexts {
      assert Stored(r, b);
    }
    RowsByContext(b.rows, b.contexts);
  }

  // ---------------------------------------------------------------- freshness is needed

  ghost predicate Storable(b: Table, o: Observation) {
    o.Valid() && o.context in b.contexts && o.observedAt >= 0 && |o.peerId| == DEVICE_LENGTH
  }

  /** The observation is older than everything its context lists. */
  ghost predicate OlderThanListed(b: Table, o: Observation) {
    forall r :: r in Of(b.rows, o.context) ==> r.seen.observedAt > o.observedAt
  }

  /** The insertion expires nothing. */
  ghost predicate ExpiresNothing(b: Table, o: Observation) {
    forall r :: r in b.rows ==> r.seen.observedAt > o.observedAt - AGE_ELIGIBILITY
  }

  ghost predicate SameListings(b: Table, u: Table) {
    forall c, limit :: 0 <= limit <= MAX_LIMIT ==> Listed(b, c, "", limit) == Listed(u, c, "", limit)
  }

  /**
   * After any insertion a reader still sees the unbounded journal exactly when the key was not
   * evicted before, or the returning key is older than the 64 rows listed and expires nothing.
   */
  lemma WhenListingsAgree(b: Table, u: Table, o: Observation)
    requires Paired(b, u) && Storable(b, o)
    ensures SameListings(Insert(b, o), Remember(u, o)) <==>
      !Evicted(b, u, o) || (OlderThanListed(b, o) && ExpiresNothing(b, o))
  {
    if Evicted(b, u, o) {
      EvictedViewIsFull(b, u, o);
      assert Bounded(Insert(b, o)) by { GlobalCapNeverEvicts(b, o); }
      ListingsAreViews(Insert(b, o), b, u);
      if OlderThanListed(b, o) && ExpiresNothing(b, o) {
        assert SameViews(Insert(b, o), b) by {
          forall c ensures Of(Insert(b, o).rows, c) == Of(b.rows, c) { ReturnsUnseen(b, o, c); }
        }
      } else {
        var c := ReturnsSeen(b, o);
      }
    } else {
      InsertRefines(b, u, o);
      forall c, limit | 0 <= limit <= MAX_LIMIT
        ensures Listed(Insert(b, o), c, "", limit) == Listed(Remember(u, o), c, "", limit)
      {
        ListingIsExact(Insert(b, o), Remember(u, o), c, "", limit);
      }
    }
  }

  /** Only a context that is full has lost keys. The unbounded journal knows the key and ignores it. */
  lemma EvictedViewIsFull(b: Table, u: Table, o: Observation)
    requires Paired(b, u) && Storable(b, o) && Evicted(b, u, o)
    ensures |Of(b.rows, o.context)| == MAX_PER_CONTEXT && Answered(b, o).Stores? && Remember(u, o) == u
  {
    var i :| 0 <= i < |u.rows| && u.rows[i].seen.Key() == o.Key();
    var r := u.rows[i];
    InOf(u.rows, r);
    assert SameView(b, u, o.context);
    assert r !in b.rows by {
      assert forall j :: 0 <= j < |b.rows| ==> b.rows[j].seen.Key() != r.seen.Key();
    }
    OfSelects(b.rows, o.context);
  }

  lemma ListsAll(t: Table, c: string)
    requires |Of(t.rows, c)| <= MAX_LIMIT
    ensures Listed(t, c, "", MAX_LIMIT) == Of(t.rows, c)
    ensures forall limit: nat :: Listed(t, c, "", limit) == Take(Of(t.rows, c), limit)
  {
    OfAnyPeer(Of(t.rows, c));
  }

  ghost predicate SameViews(after: Table, b: Table) {
    forall c :: Of(after.rows, c) == Of(b.rows, c)
  }

  /** Listings agree exactly when every view of the new bounded table is the one the old had. */
  lemma ListingsAreViews(after: Table, b: Table, u: Table)
    requires Bounded(after) && Bounded(b) && Refines(b, u)
    ensures SameListings(after, u) <==> SameViews(after, b)
  {
    if SameListings(after, u) {
      forall c ensures Of(after.rows, c) == Of(b.rows, c) {
        ListsAll(after, c);
        ListsAll(b, c);
        ListingIsExact(b, u, c, "", MAX_LIMIT);
        assert Listed(after, c, "", MAX_LIMIT) == Listed(u, c, "", MAX_LIMIT);
      }
    }
    if SameViews(after, b) {
      forall c, limit | 0 <= limit <= MAX_LIMIT ensures Listed(after, c, "", limit) == Listed(u, c, "", limit) {
        ListsAll(after, c);
        ListsAll(b, c);
        ListingIsExact(b, u, c, "", limit);
      }
    }
  }

  lemma {:induction false} PlacedLast(view: seq<Row>, x: Row)
    requires forall r :: r in view ==> !Newer(x, r)
    ensures Placed(view, x) == view + [x]
  {
    if view != [] {
      PlacedLast(view[1..], x);
    }
  }

  lemma {:induction false} PlacedWithin(view: seq<Row>, x: Row, r: Row)
    requires r in view && Newer(x, r)
    ensures x in Placed(view, x)[..|view|]
  {
    if Newer(x, view[0]) {
      assert Placed(view, x)[..|view|][0] == x;
    } else {
      PlacedWithin(view[1..], x, r);
      assert Placed(view, x)[..|view|] == [view[0]] + Placed(view[1..], x)[..|view| - 1];
    }
  }

  lemma {:induction false} AllYoung(view: seq<Row>, cutoff: Time)
    requires forall r :: r in view ==> r.seen.observedAt > cutoff
    ensures Young(view, cutoff) == view
  {
    if view != [] {
      AllYoung(view[1..], cutoff);
    }
  }

  lemma {:induction false} OnlyYoung(view: seq<Row>, cutoff: Time)
    ensures forall r :: r in Young(view, cutoff) ==> r in view && r.seen.observedAt > cutoff
  {
    if view != [] {
      OnlyYoung(view[1..], cutoff);
    }
  }

  lemma ReturnsUnseen(b: Table, o: Observation, c: string)
    requires Coherent(b) && Bounded(b) && Answered(b, o).Stores? && OlderThanListed(b, o) && ExpiresNothing(b, o)
    requires |Of(b.rows, o.context)| == MAX_PER_CONTEXT
    ensures Of(Insert(b, o).rows, c) == Of(b.rows, c)
  {
    hide Of, Young, Placed;
    OfSelects(b.rows, c);
    AllYoung(Of(b.rows, c), o.observedAt - AGE_ELIGIBILITY);
    ViewAfterBoundedInsert(b, o, c);
    if o.context == c {
      PlacedLast(Of(b.rows, c), Row(b.last + 1, o));
    }
  }

  /** The new row is none of the old ones, and newer than any that is not observed later. */
  lemma NewRowIsNew(b: Table, o: Observation, c: string)
    requires Coherent(b)
    ensures var x := Row(b.last + 1, o);
      x !in Of(b.rows, c) && forall r :: r in Of(b.rows, c) && r.seen.observedAt <= o.observedAt ==> Newer(x, r)
  {
    OfSelects(b.rows, c);
    forall r | r in Of(b.rows, c) ensures r.sequence <= b.last { assert Stored(r, b); }
  }

  /** The view of the context lists the new row, or some view has lost an expired one. */
  lemma ReturnsSeen(b: Table, o: Observation) returns (c: string)
    requires Coherent(b) && Bounded(b) && Answered(b, o).Stores? && !(OlderThanListed(b, o) && ExpiresNothing(b, o))
    ensures Of(Insert(b, o).rows, c) != Of(b.rows, c)
  {
    hide Of, Young, Placed;
    var cutoff := o.observedAt - AGE_ELIGIBILITY;
    if !ExpiresNothing(b, o) {
      var r :| r in b.rows && r.seen.observedAt <= cutoff;
      c := r.seen.context;
      ExpiredIsLost(b, o, r);
    } else {
      c := o.context;
      var r :| r in Of(b.rows, c) && r.seen.observedAt <= o.observedAt;
      var x := Row(b.last + 1, o);
      NewRowIsNew(b, o, c);
      OfSelects(b.rows, c);
      AllYoung(Of(b.rows, c), cutoff);
      ViewAfterBoundedInsert(b, o, c);
      PlacedWithin(Of(b.rows, c), x, r);
      assert x in Of(Insert(b, o).rows, c);
    }
  }

  lemma ExpiredIsLost(b: Table, o: Observation, r: Row)
    requires Coherent(b) && Bounded(b) && Answered(b, o).Stores?
    requires r in b.rows && r.seen.observedAt <= o.observedAt - AGE_ELIGIBILITY
    ensures r in Of(b.rows, r.seen.context) && r !in Of(Insert(b, o).rows, r.seen.context)
  {
    var c := r.seen.context;
    var cutoff := o.observedAt - AGE_ELIGIBILITY;
    var young := Young(Of(b.rows, c), cutoff);
    InOf(b.rows, r);
    OnlyYoung(Of(b.rows, c), cutoff);
    ViewAfterBoundedInsert(b, o, c);
    PlacedHolds(young, Row(b.last + 1, o));
  }
}
