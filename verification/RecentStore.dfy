/** The store object over the journal table: statement by statement, as its transactions run. */
module RecentStore {
  import opened Journal

  class Store {
    var rows: seq<Row>
    var last: nat
    var contexts: set<string>

    function State(): Table
      reads this
    {
      Table(rows, last, contexts)
    }

    constructor ()
      ensures State() == EmptyTable
    {
      rows, last, contexts := [], 0, {};
    }

    method InsertTx(o: Observation) returns (r: Outcome<()>)
      modifies this
      ensures State() == Insert(old(State()), o)
      ensures r == match Answered(old(State()), o) {
                     case Fails(f) => Err(f)
                     case _ => Ok(())
                   }
    {
      if !o.Valid() {
        return Err(Corrupt);
      }
      if HasKey(rows, o.Key()) {
        if Conflicts(rows, o) {
          return Err(Corrupt);
        }
        return Ok(());
      }
      if o.observedAt < 0 || |o.peerId| != DEVICE_LENGTH || o.context !in contexts {
        return Err(ConstraintViolation);
      }
      rows := Young(rows, o.observedAt - AGE_ELIGIBILITY);
      last := last + 1;
      rows := Placed(rows, Row(last, o));
      rows := Trimmed(rows, o.context, MAX_PER_CONTEXT);
      rows := Take(rows, MAX_PER_AGENT);
      return Ok(());
    }

    /** On a coherent table the answer is the listing: `Corrupt` cannot be returned. */
    method List(c: string, peer: string, limit: int) returns (r: Outcome<seq<Row>>)
      ensures c == "" || limit <= 0 || limit > MAX_LIMIT ==> r == Err(InvalidQuery)
      ensures c != "" && 0 < limit <= MAX_LIMIT && Coherent(State()) ==> r == Ok(Listed(State(), c, peer, limit))
      ensures c != "" && 0 < limit <= MAX_LIMIT && r.Ok? ==>
        r.value == Listed(State(), c, peer, limit) && forall i :: 0 <= i < |r.value| ==> r.value[i].seen.Valid()
      ensures r.Err? ==> r.failure == InvalidQuery || r.failure == Corrupt
    {
      hide Listed, Coherent, Observation.Valid;
      if c == "" || limit <= 0 || limit > MAX_LIMIT {
        return Err(InvalidQuery);
      }
      var found := Listed(State(), c, peer, limit);
      if Coherent(State()) {
        ListedIsStored(State(), c, peer, limit);
      }
      var values: seq<Row> := [];
      for i := 0 to |found|
        invariant values == found[..i]
        invariant forall k :: 0 <= k < i ==> found[k].seen.Valid()
      {
        if !found[i].seen.Valid() {
          return Err(Corrupt);
        }
        values := values + [found[i]];
      }
      assert found[..|found|] == found;
      return Ok(values);
    }

    method Clear(c: string) returns (r: Outcome<nat>)
      modifies this
      ensures c == "" ==> r == Err(InvalidQuery) && State() == old(State())
      ensures c != "" ==>
        && State() == Journal.Clear(old(State()), c)
        && r == Ok(|Of(old(rows), c)|)
    {
      if c == "" {
        return Err(InvalidQuery);
      }
      SplitByContext(rows, c);
      var before := |rows|;
      rows := Without(rows, c);
      return Ok(before - |rows|);
    }
  }

  lemma {:induction false} OfPeerSelects(rows: seq<Row>, peer: string)
    ensures Subset(OfPeer(rows, peer), rows)
  {
    if rows != [] {
      OfPeerSelects(rows[1..], peer);
    }
  }

  lemma ListedIsStored(t: Table, c: string, peer: string, limit: nat)
    requires Coherent(t)
    ensures forall i :: 0 <= i < |Listed(t, c, peer, limit)| ==> Listed(t, c, peer, limit)[i].seen.Valid()
  {
    OfSelects(t.rows, c);
    OfPeerSelects(Of(t.rows, c), peer);
    forall i | 0 <= i < |Listed(t, c, peer, limit)| ensures Listed(t, c, peer, limit)[i].seen.Valid() {
      assert Listed(t, c, peer, limit)[i] in OfPeer(Of(t.rows, c), peer);
      assert Stored(Listed(t, c, peer, limit)[i], t);
    }
  }
}
