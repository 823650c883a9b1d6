/**
 * Root authority of a context while operations use it: counters of the operations in flight
 * guard every change of the offered, inbox and put roots. Joins, updates, enabling,
 * disabling and removal hold the lifecycle lock; removal and disabling give up the inner
 * mutex in the middle, so they are several steps here and operations interleave with them.
 */
module RootAuthority {
  import opened Basics

  const MAX_CONTEXTS := 64
  const FILESYSTEM_ROOT := "filesystem-root"

  datatype Scope = Scope(offered: bool, inbox: bool, put: bool)

  datatype Offer = Offer(root: string, scope: string, acknowledged: bool, revision: nat)
  datatype Put = Put(root: Option<string>, allowed: bool, revision: nat)
  datatype Row = Row(enabled: bool, offer: Offer, inbox: string, put: Put)

  /** An operation in flight, with the row it was handed when it began. */
  datatype Operation = Operation(name: string, scope: Scope, nonlocal: bool, captured: Row)

  datatype Counters = Counters(total: int, offered: int, inbox: int, put: int)

  /** Who holds the lifecycle lock between two of its critical sections. */
  datatype Lifecycle =
    | Free
    | Disabling(name: string)
    | Waiting(name: string, done: nat)
    | Draining(name: string)
    | Removing(name: string)

  /**
   * `active` and `done` are the manager's two maps, `closed` the closed channels. `flying` and
   * `orphans` are not stored by the program: the operations between their begin and end, and
   * those whose context was deleted meanwhile. `fault` records a close that would panic.
   */
  datatype State = State(rows: map<string, Row>, active: map<string, Counters>, done: map<string, nat>,
                         made: nat, closed: set<nat>, lifecycle: Lifecycle,
                         flying: map<nat, Operation>, orphans: set<nat>, fault: bool)

  const Boot := State(map[], map[], map[], 0, {}, Free, map[], {}, false)

  function Counted(s: State, name: string): Counters {
    if name in s.active then s.active[name] else Counters(0, 0, 0, 0)
  }

  function Shift(c: Counters, scope: Scope, delta: int): Counters {
    Counters(c.total + delta,
             if scope.offered then c.offered + delta else c.offered,
             if scope.inbox then c.inbox + delta else c.inbox,
             if scope.put then c.put + delta else c.put)
  }

  // ---------------------------------------------------------------- operations

  predicate CanBegin(s: State, id: nat, name: string, nonlocal: bool) {
    id !in s.flying && id !in s.orphans && name in s.rows && (nonlocal ==> s.rows[name].enabled)
  }

  function Begun(s: State, id: nat, name: string, scope: Scope, nonlocal: bool): State
    requires name in s.rows
  {
    var first := Counted(s, name).total == 0;
    s.(active := s.active[name := Shift(Counted(s, name), scope, 1)],
       done := if first then s.done[name := s.made] else s.done,
       made := if first then s.made + 1 else s.made,
       flying := s.flying[id := Operation(name, scope, nonlocal, s.rows[name])])
  }

  function Ended(s: State, id: nat): State
    requires id in s.flying
  {
    var op := s.flying[id];
    var left := Shift(Counted(s, op.name), op.scope, -1);
    var landed := s.(flying := s.flying - {id});
    if left.total != 0 then landed.(active := s.active[op.name := left])
    else if op.name in s.done then
      landed.(active := s.active - {op.name}, done := s.done - {op.name},
              closed := s.closed + {s.done[op.name]}, fault := s.fault || s.done[op.name] in s.closed)
    else landed.(active := s.active - {op.name}, fault := true)
  }

  // ---------------------------------------------------------------- configuration

  /** What a request asks for; `None` leaves the setting alone. */
  datatype Change = Change(offered: Option<(string, string)>, inbox: Option<string>,
                           putRoot: Option<string>, clearPut: bool, allowPut: Option<bool>)

  function NewOffer(now: Offer, c: Change): Offer {
    if c.offered.None? then now else
    var (root, scope) := c.offered.value;
    var acknowledged := scope == FILESYSTEM_ROOT;
    if root != now.root || scope != now.scope || acknowledged != now.acknowledged
    then Offer(root, scope, acknowledged, now.revision + 1)
    else now
  }

  function NewPut(now: Put, c: Change): Put {
    var root := if c.putRoot.Some? then c.putRoot else if c.clearPut then None else now.root;
    var allowed := if c.allowPut.Some? then c.allowPut.value else now.allowed;
    if root != now.root || allowed != now.allowed then Put(root, allowed, now.revision + 1) else now
  }

  function Configured(r: Row, c: Change): Row {
    Row(r.enabled, NewOffer(r.offer, c), if c.inbox.Some? then c.inbox.value else r.inbox, NewPut(r.put, c))
  }

  /** The check under which a row may be replaced by another. */
  predicate Unguarded(c: Counters, r: Row, next: Row) {
    && (next.offer != r.offer ==> c.offered == 0)
    && (next.inbox != r.inbox ==> c.inbox == 0)
    && (next.put != r.put ==> c.put == 0)
  }

  predicate CanUpdate(s: State, name: string, c: Change) {
    && s.lifecycle.Free? && name in s.rows
    && var next := Configured(s.rows[name], c);
       (next.put.allowed ==> next.put.root.Some?) && Unguarded(Counted(s, name), s.rows[name], next)
  }

  /** A join asks for an offered root and an inbox, and re-enables a context that exists. */
  function Joined(s: State, name: string, c: Change): Row {
    if name in s.rows then Configured(s.rows[name], c).(enabled := true)
    else
      var blank := Row(true, Offer("", "", false, 0), "", Put(None, false, 1));
      var row := Configured(blank, c);
      row.(offer := row.offer.(revision := 1), put := row.put.(revision := 1))
  }

  predicate CanJoin(s: State, name: string, c: Change) {
    && s.lifecycle.Free?
    && c.offered.Some? && c.inbox.Some? && !c.clearPut
    && (c.allowPut == Some(true) ==> c.putRoot.Some?)
    && if name in s.rows then Unguarded(Counted(s, name), s.rows[name], Joined(s, name, c))
       else |s.rows| < MAX_CONTEXTS
  }

  // ---------------------------------------------------------------- the steps

  datatype Step =
    | Begin(id: nat, name: string, scope: Scope)
    | BeginLocal(id: nat, name: string, scope: Scope)
    | End(id: nat)
    | Join(name: string, change: Change)
    | Update(name: string, change: Change)
    | Enable(name: string)
    | Disable(name: string)
    | LookForTransfers
    | TransfersDone
    | StopWaiting
    | Remove(name: string)
    | RemoveIfIdle
    | RemoveRow
    | RemoveFails

  function With(s: State, name: string, row: Row): State {
    s.(rows := s.rows[name := row])
  }

  /** Refused calls change nothing. A step of a lock holder is enabled only for that holder. */
  function Apply(s: State, step: Step): State {
    match step
    case Begin(id, name, scope) => if CanBegin(s, id, name, true) then Begun(s, id, name, scope, true) else s
    case BeginLocal(id, name, scope) => if CanBegin(s, id, name, false) then Begun(s, id, name, scope, false) else s
    case End(id) => if id in s.flying then Ended(s, id) else s
    case Join(name, c) => if CanJoin(s, name, c) then With(s, name, Joined(s, name, c)) else s
    case Update(name, c) => if CanUpdate(s, name, c) then With(s, name, Configured(s.rows[name], c)) else s
    case Enable(name) =>
      if s.lifecycle.Free? && name in s.rows then With(s, name, s.rows[name].(enabled := true)) else s
    case Disable(name) =>
      if s.lifecycle.Free? && name in s.rows
      then With(s, name, s.rows[name].(enabled := false)).(lifecycle := Disabling(name)) else s
    case LookForTransfers =>
      if !s.lifecycle.Disabling? then s
      else if s.lifecycle.name in s.done then s.(lifecycle := Waiting(s.lifecycle.name, s.done[s.lifecycle.name]))
      else s.(lifecycle := Free)
    case TransfersDone => if s.lifecycle.Waiting? && s.lifecycle.done in s.closed then s.(lifecycle := Free) else s
    case StopWaiting =>
      if s.lifecycle.Waiting? || s.lifecycle.Disabling? || s.lifecycle.Draining? then s.(lifecycle := Free) else s
    case Remove(name) =>
      if s.lifecycle.Free? && name in s.rows && Counted(s, name).total == 0 then s.(lifecycle := Draining(name)) else s
    case RemoveIfIdle =>
      if !s.lifecycle.Draining? || s.lifecycle.name !in s.rows then s
      else if Counted(s, s.lifecycle.name).total != 0 then s.(lifecycle := Free)
      else
        With(s, s.lifecycle.name, s.rows[s.lifecycle.name].(enabled := false))
        .(lifecycle := Removing(s.lifecycle.name))
    case RemoveRow =>
      if !s.lifecycle.Removing? then s
      else s.(rows := s.rows - {s.lifecycle.name}, lifecycle := Free,
              orphans := s.orphans + FlyingOn(s.flying, s.lifecycle.name))
    case RemoveFails => if s.lifecycle.Removing? then s.(lifecycle := Free) else s
  }

  function Run(s: State, steps: seq<Step>): State {
    if steps == [] then s else Apply(Run(s, steps[..|steps| - 1]), steps[|steps| - 1])
  }

  // ---------------------------------------------------------------- counting

  datatype Kind = Total | Offered | Inboxed | Putting

  predicate Uses(op: Operation, name: string, kind: Kind) {
    && op.name == name
    && match kind
       case Total => true
       case Offered => op.scope.offered
       case Inboxed => op.scope.inbox
       case Putting => op.scope.put
  }

  function Users(flying: map<nat, Operation>, name: string, kind: Kind): set<nat> {
    set id | id in flying && Uses(flying[id], name, kind)
  }

  function FlyingOn(flying: map<nat, Operation>, name: string): set<nat> {
    Users(flying, name, Total)
  }

  function Holding(flying: map<nat, Operation>, name: string): Counters {
    Counters(|Users(flying, name, Total)|, |Users(flying, name, Offered)|,
             |Users(flying, name, Inboxed)|, |Users(flying, name, Putting)|)
  }

  lemma OneMoreUser(flying: map<nat, Operation>, id: nat, op: Operation, name: string, kind: Kind)
    requires id !in flying
    ensures |Users(flying[id := op], name, kind)| == |Users(flying, name, kind)| + if Uses(op, name, kind) then 1 else 0
  {
    var after := flying[id := op];
    assert Users(after, name, kind) == Users(flying, name, kind) + if Uses(op, name, kind) then {id} else {};
  }

  lemma OneMore(flying: map<nat, Operation>, id: nat, op: Operation, name: string)
    requires id !in flying
    ensures Holding(flying[id := op], name) ==
            if op.name == name then Shift(Holding(flying, name), op.scope, 1) else Holding(flying, name)
  {
    OneMoreUser(flying, id, op, name, Total);
    OneMoreUser(flying, id, op, name, Offered);
    OneMoreUser(flying, id, op, name, Inboxed);
    OneMoreUser(flying, id, op, name, Putting);
  }

  lemma OneLess(flying: map<nat, Operation>, id: nat, name: string)
    requires id in flying
    ensures var op := flying[id];
      Holding(flying - {id}, name) ==
      if op.name == name then Shift(Holding(flying, name), op.scope, -1) else Holding(flying, name)
  {
    var before := flying - {id};
    assert before[id := flying[id]] == flying;
    OneMore(before, id, flying[id], name);
  }

  lemma HoldsMeansFlies(flying: map<nat, Operation>, id: nat)
    requires id in flying
    ensures var c := Holding(flying, flying[id].name); var scope := flying[id].scope;
      c.total > 0 && (scope.offered ==> c.offered > 0) && (scope.inbox ==> c.inbox > 0) && (scope.put ==> c.put > 0)
  {
    OneLess(flying, id, flying[id].name);
  }

  // ---------------------------------------------------------------- the invariant

  ghost predicate CountsFor(active: map<string, Counters>, done: map<string, nat>, flying: map<nat, Operation>,
                            name: string) {
    && (name in active <==> name in done)
    && (if name in active then active[name] == Holding(flying, name) && active[name].total > 0
        else Holding(flying, name) == Counters(0, 0, 0, 0))
  }

  /** The counters equal the operations in flight; a channel exists exactly while there are any. */
  ghost predicate Counts(active: map<string, Counters>, done: map<string, nat>, flying: map<nat, Operation>) {
    forall name :: CountsFor(active, done, flying, name)
  }

  ghost predicate OpenChannels(done: map<string, nat>, made: nat, closed: set<nat>) {
    && (forall name :: name in done ==> done[name] < made && done[name] !in closed)
    && (forall a, b :: a in done && b in done && done[a] == done[b] ==> a == b)
    && (forall ch :: ch in closed ==> ch < made)
  }

  /** What an operation may rely on: the roots of its scope are those it was handed. */
  predicate SameRoots(scope: Scope, captured: Row, now: Row) {
    && (scope.offered ==> now.offer == captured.offer)
    && (scope.inbox ==> now.inbox == captured.inbox)
    && (scope.put ==> now.put == captured.put)
  }

  ghost predicate FrozenFor(rows: map<string, Row>, op: Operation) {
    op.name in rows && SameRoots(op.scope, op.captured, rows[op.name])
  }

  ghost predicate Frozen(rows: map<string, Row>, flying: map<nat, Operation>, orphans: set<nat>) {
    forall id :: id in flying ==>
      (flying[id].nonlocal ==> id !in orphans) && (id !in orphans ==> FrozenFor(rows, flying[id]))
  }

  ghost predicate OnlyLocal(flying: map<nat, Operation>, name: string) {
    forall id :: id in flying && flying[id].name == name ==> !flying[id].nonlocal
  }

  predicate Disabled(rows: map<string, Row>, name: string) {
    name in rows && !rows[name].enabled
  }

  ghost predicate HolderOk(s: State) {
    match s.lifecycle
    case Free => true
    case Draining(name) => name in s.rows
    case Disabling(name) => Disabled(s.rows, name)
    case Waiting(name, ch) =>
      && Disabled(s.rows, name)
      && ch < s.made
      && (if ch in s.closed then OnlyLocal(s.flying, name) else name in s.done && s.done[name] == ch)
    case Removing(name) => Disabled(s.rows, name) && OnlyLocal(s.flying, name)
  }

  ghost predicate Inv(s: State) {
    && !s.fault
    && Counts(s.active, s.done, s.flying)
    && OpenChannels(s.done, s.made, s.closed)
    && Frozen(s.rows, s.flying, s.orphans)
    && HolderOk(s)
    && |s.rows| <= MAX_CONTEXTS
  }

  // ---------------------------------------------------------------- operations keep it

  lemma IdleMeansOnlyLocal(flying: map<nat, Operation>, name: string)
    requires Holding(flying, name).total == 0
    ensures OnlyLocal(flying, name)
  {
    var users := FlyingOn(flying, name);
    assert users == {};
    assert forall id :: id in flying && flying[id].name == name ==> id in users;
  }

  lemma ReplacedSize(rows: map<string, Row>, name: string, row: Row)
    requires name in rows
    ensures |rows[name := row]| == |rows|
  {
    assert rows[name := row].Keys == rows.Keys;
    assert |rows.Keys| == |rows| && |rows[name := row].Keys| == |rows[name := row]|;
  }

  lemma BegunCounts(s: State, id: nat, name: string, scope: Scope, nonlocal: bool)
    requires Inv(s) && CanBegin(s, id, name, nonlocal)
    ensures var t := Begun(s, id, name, scope, nonlocal); Counts(t.active, t.done, t.flying)
  {
    var t := Begun(s, id, name, scope, nonlocal);
    forall n ensures CountsFor(t.active, t.done, t.flying, n) {
      assert CountsFor(s.active, s.done, s.flying, n);
      OneMore(s.flying, id, t.flying[id], n);
    }
  }

  lemma BegunKeeps(s: State, id: nat, name: string, scope: Scope, nonlocal: bool)
    requires Inv(s) && CanBegin(s, id, name, nonlocal)
    ensures Inv(Begun(s, id, name, scope, nonlocal))
  {
    var t := Begun(s, id, name, scope, nonlocal);
    BegunCounts(s, id, name, scope, nonlocal);
    assert OpenChannels(t.done, t.made, t.closed) by {
      assert CountsFor(s.active, s.done, s.flying, name);
    }
    forall i | i in t.flying
      ensures t.flying[i].nonlocal ==> i !in t.orphans
      ensures i !in t.orphans ==> FrozenFor(t.rows, t.flying[i])
    {
      if i != id {
        assert t.flying[i] == s.flying[i];
      }
    }
    assert HolderOk(t) by {
      assert CountsFor(s.active, s.done, s.flying, name);
    }
  }

  lemma EndedCounts(s: State, id: nat)
    requires Inv(s) && id in s.flying
    ensures Counts(Ended(s, id).active, Ended(s, id).done, Ended(s, id).flying)
    ensures var name := s.flying[id].name;
      name in s.done && (name !in Ended(s, id).done <==> Holding(Ended(s, id).flying, name).total == 0)
  {
    var name := s.flying[id].name;
    var t := Ended(s, id);
    assert CountsFor(s.active, s.done, s.flying, name);
    HoldsMeansFlies(s.flying, id);
    OneLess(s.flying, id, name);
    forall n ensures CountsFor(t.active, t.done, t.flying, n) {
      if n != name {
        assert CountsFor(s.active, s.done, s.flying, n);
        OneLess(s.flying, id, n);
      } else if Holding(t.flying, name).total == 0 {
        NoneAtAll(t.flying, name);
      }
    }
  }

  lemma NoneAtAll(flying: map<nat, Operation>, name: string)
    requires Holding(flying, name).total == 0
    ensures Holding(flying, name) == Counters(0, 0, 0, 0)
  {
    var users := Users(flying, name, Total);
    assert users == {};
    assert Users(flying, name, Offered) <= users && Users(flying, name, Inboxed) <= users &&
           Users(flying, name, Putting) <= users;
  }

  lemma EndedChannels(s: State, id: nat)
    requires !s.fault && OpenChannels(s.done, s.made, s.closed) && id in s.flying && s.flying[id].name in s.done
    ensures var t := Ended(s, id); OpenChannels(t.done, t.made, t.closed) && !t.fault
  {
    hide Shift, Counted;
  }

  lemma EndedFrozen(s: State, id: nat)
    requires Frozen(s.rows, s.flying, s.orphans) && id in s.flying
    ensures var t := Ended(s, id); Frozen(t.rows, t.flying, t.orphans)
  {
    hide FrozenFor, Shift;
  }

  lemma EndedHolder(s: State, id: nat)
    requires HolderOk(s) && OpenChannels(s.done, s.made, s.closed) && id in s.flying && s.flying[id].name in s.done
    requires var t := Ended(s, id); s.flying[id].name !in t.done ==> OnlyLocal(t.flying, s.flying[id].name)
    ensures HolderOk(Ended(s, id))
  {
    hide Shift, Counted;
  }

  lemma EndedKeeps(s: State, id: nat)
    requires Inv(s) && id in s.flying
    ensures Inv(Ended(s, id))
  {
    hide OpenChannels, Frozen, HolderOk, Counts, OnlyLocal;
    var name := s.flying[id].name;
    var t := Ended(s, id);
    EndedCounts(s, id);
    EndedChannels(s, id);
    EndedFrozen(s, id);
    if name !in t.done {
      IdleMeansOnlyLocal(t.flying, name);
    }
    EndedHolder(s, id);
  }

  /** A guarded change of one row leaves every operation the roots it was handed. */
  lemma GuardedChange(s: State, name: string, row: Row)
    requires Inv(s) && name in s.rows && Unguarded(Counted(s, name), s.rows[name], row)
    ensures Frozen(s.rows[name := row], s.flying, s.orphans)
  {
    assert CountsFor(s.active, s.done, s.flying, name);
    forall id | id in s.flying && id !in s.orphans ensures FrozenFor(s.rows[name := row], s.flying[id]) {
      assert FrozenFor(s.rows, s.flying[id]);
      if s.flying[id].name == name {
        HoldsMeansFlies(s.flying, id);
      }
    }
  }

  lemma ReplacedKeeps(s: State, name: string, row: Row, holder: Lifecycle)
    requires Inv(s) && name in s.rows && Unguarded(Counted(s, name), s.rows[name], row)
    requires holder.Free? || (holder == Disabling(name) && !row.enabled)
    ensures Inv(With(s, name, row).(lifecycle := holder))
  {
    GuardedChange(s, name, row);
    ReplacedSize(s.rows, name, row);
  }

  lemma AddedKeeps(s: State, name: string, row: Row)
    requires Inv(s) && name !in s.rows && |s.rows| < MAX_CONTEXTS && s.lifecycle.Free?
    ensures Inv(With(s, name, row))
  {
    var after := s.rows[name := row];
    assert after.Keys == s.rows.Keys + {name};
    assert |after.Keys| == |after| && |s.rows.Keys| == |s.rows|;
    forall id | id in s.flying && id !in s.orphans ensures FrozenFor(after, s.flying[id]) {
      assert FrozenFor(s.rows, s.flying[id]);
    }
  }

  lemma ConfigurationKeeps(s: State, step: Step)
    requires Inv(s) && (step.Join? || step.Update? || step.Enable? || step.Disable?)
    ensures Inv(Apply(s, step))
  {
    match step
    case Join(name, c) =>
      if CanJoin(s, name, c) {
        if name in s.rows {
          ReplacedKeeps(s, name, Joined(s, name, c), Free);
        } else {
          AddedKeeps(s, name, Joined(s, name, c));
        }
      }
    case Update(name, c) =>
      if CanUpdate(s, name, c) {
        ReplacedKeeps(s, name, Configured(s.rows[name], c), Free);
      }
    case Enable(name) =>
      if s.lifecycle.Free? && name in s.rows {
        ReplacedKeeps(s, name, s.rows[name].(enabled := true), Free);
      }
    case Disable(name) =>
      if s.lifecycle.Free? && name in s.rows {
        ReplacedKeeps(s, name, s.rows[name].(enabled := false), Disabling(name));
      }
  }

  lemma RemoveIfIdleKeeps(s: State)
    requires Inv(s)
    ensures Inv(Apply(s, RemoveIfIdle))
  {
    var t := Apply(s, RemoveIfIdle);
    if t.lifecycle.Removing? && t != s {
      var name := s.lifecycle.name;
      GuardedChange(s, name, t.rows[name]);
      ReplacedSize(s.rows, name, t.rows[name]);
      assert CountsFor(s.active, s.done, s.flying, name);
      IdleMeansOnlyLocal(s.flying, name);
    }
  }

  lemma RemoveRowKeeps(s: State)
    requires Inv(s)
    ensures Inv(Apply(s, RemoveRow))
  {
    var t := Apply(s, RemoveRow);
    if t != s {
      var name := s.lifecycle.name;
      assert t.rows.Keys == s.rows.Keys - {name};
      assert |t.rows.Keys| == |t.rows| && |s.rows.Keys| == |s.rows|;
      forall id | id in s.flying
        ensures s.flying[id].nonlocal ==> id !in t.orphans
        ensures id !in t.orphans ==> FrozenFor(t.rows, s.flying[id])
      {
        assert id in FlyingOn(s.flying, name) <==> s.flying[id].name == name;
      }
    }
  }

  lemma StepKeepsInv(s: State, step: Step)
    requires Inv(s)
    ensures Inv(Apply(s, step))
  {
    match step
    case Begin(id, name, scope) =>
      if CanBegin(s, id, name, true) {
        BegunKeeps(s, id, name, scope, true);
      }
    case BeginLocal(id, name, scope) =>
      if CanBegin(s, id, name, false) {
        BegunKeeps(s, id, name, scope, false);
      }
    case End(id) =>
      if id in s.flying {
        EndedKeeps(s, id);
      }
    case Join(_, _) => ConfigurationKeeps(s, step);
    case Update(_, _) => ConfigurationKeeps(s, step);
    case Enable(_) => ConfigurationKeeps(s, step);
    case Disable(_) => ConfigurationKeeps(s, step);
    case RemoveIfIdle => RemoveIfIdleKeeps(s);
    case RemoveRow => RemoveRowKeeps(s);
    case LookForTransfers =>
    case TransfersDone =>
    case StopWaiting =>
    case Remove(_) =>
    case RemoveFails =>
  }

  lemma {:induction false} RunKeeps(steps: seq<Step>)
    ensures Inv(Run(Boot, steps))
  {
    if steps == [] {
      assert forall name :: Holding(map[], name) == Counters(0, 0, 0, 0) && CountsFor(map[], map[], map[], name);
    } else {
      RunKeeps(steps[..|steps| - 1]);
      StepKeepsInv(Run(Boot, steps[..|steps| - 1]), steps[|steps| - 1]);
    }
  }

  // ---------------------------------------------------------------- what follows

  /**
   * Over all interleavings, an operation that is not local sees the roots of its scope as it
   * was handed them; so does a local one, unless its context was removed under it.
   */
  lemma RootsAreFrozen(steps: seq<Step>, id: nat)
    requires id in Run(Boot, steps).flying
    ensures var s := Run(Boot, steps); var op := s.flying[id];
      op.nonlocal || id !in s.orphans ==> op.name in s.rows && SameRoots(op.scope, op.captured, s.rows[op.name])
  {
    RunKeeps(steps);
  }

  predicate NeverEnds(steps: seq<Step>, id: nat) {
    forall i :: 0 <= i < |steps| ==> steps[i] != End(id)
  }

  /** The operation flies, its context is there, and nobody is about to delete the context. */
  ghost predicate Protected(s: State, id: nat, op: Operation) {
    && Inv(s)
    && id in s.flying && s.flying[id] == op && id !in s.orphans
    && s.lifecycle != Removing(op.name)
  }

  lemma FlyingIsCounted(s: State, id: nat)
    requires Counts(s.active, s.done, s.flying) && id in s.flying
    ensures Counted(s, s.flying[id].name).total > 0
  {
    assert CountsFor(s.active, s.done, s.flying, s.flying[id].name);
    HoldsMeansFlies(s.flying, id);
  }

  /** The second check of a removal sees the operation in the counters. */
  lemma StaysProtected(s: State, step: Step, id: nat, op: Operation)
    requires id in s.flying && s.flying[id] == op && id !in s.orphans && s.lifecycle != Removing(op.name)
    requires Counted(s, op.name).total > 0 && step != End(id)
    ensures var t := Apply(s, step);
      id in t.flying && t.flying[id] == op && id !in t.orphans && t.lifecycle != Removing(op.name)
  {
    hide CanJoin, CanUpdate, Joined, Configured, Shift;
  }

  lemma StepProtects(s: State, step: Step, id: nat, op: Operation)
    requires Protected(s, id, op) && step != End(id)
    ensures Protected(Apply(s, step), id, op)
  {
    hide Apply, Counts, Counted, OpenChannels, Frozen, HolderOk;
    StepKeepsInv(s, step);
    FlyingIsCounted(s, id);
    StaysProtected(s, step, id, op);
  }

  lemma {:induction false} RunProtects(s: State, steps: seq<Step>, id: nat, op: Operation)
    requires Protected(s, id, op) && NeverEnds(steps, id)
    ensures Protected(Run(s, steps), id, op) && FrozenFor(Run(s, steps).rows, op)
  {
    hide Apply;
    if steps != [] {
      var n := |steps| - 1;
      RunProtects(s, steps[..n], id, op);
      StepProtects(Run(s, steps[..n]), steps[n], id, op);
    }
  }

  ghost predicate MeetsOtherRoots(rows: map<string, Row>, op: Operation) {
    op.name in rows && !SameRoots(op.scope, op.captured, rows[op.name])
  }

  /** Settings none of which equals what the row offers now. */
  function OtherSettings(r: Row): Change {
    Change(Some((r.offer.root + "x", "narrow")), Some(r.inbox + "x"),
           Some(if r.put.root.Some? then r.put.root.value + "x" else "x"), false, Some(true))
  }

  lemma RemovedAndJoined(s: State, name: string, r: Row)
    requires s.lifecycle == Removing(name) && name in s.rows && |s.rows| <= MAX_CONTEXTS
    ensures var t := Apply(Apply(s, RemoveRow), Join(name, OtherSettings(r)));
      && name in t.rows && t.rows[name].offer.root == r.offer.root + "x" && t.rows[name].inbox == r.inbox + "x"
      && t.rows[name].put.root != r.put.root
  {
    var removed := Apply(s, RemoveRow);
    assert removed.rows.Keys == s.rows.Keys - {name};
    assert |removed.rows.Keys| == |removed.rows| && |s.rows.Keys| == |s.rows|;
    assert CanJoin(removed, name, OtherSettings(r));
    assert r.put.root.Some? ==> |r.put.root.value + "x"| != |r.put.root.value|;
  }

  lemma RunThenStep(s: State, steps: seq<Step>, step: Step)
    ensures Run(s, []) == s
    ensures Run(s, steps + [step]) == Apply(Run(s, steps), step)
  {
    hide Apply;
    assert (steps + [step])[..|steps|] == steps;
  }

  lemma TwoSteps(s: State, a: Step, b: Step)
    ensures Run(s, [a]) == Apply(s, a)
    ensures Run(s, [a, b]) == Apply(Apply(s, a), b)
  {
    hide Apply;
    RunThenStep(s, [], a);
    RunThenStep(s, [a], b);
    assert [] + [a] == [a] && [a] + [b] == [a, b];
  }

  lemma RemovalExposes(s: State, id: nat, name: string, scope: Scope)
    requires Inv(s) && CanBegin(s, id, name, false) && s.lifecycle == Removing(name)
    ensures var t := Begun(s, id, name, scope, false); var again := Join(name, OtherSettings(s.rows[name]));
      && !FrozenFor(Run(t, [RemoveRow]).rows, t.flying[id])
      && ((scope.offered || scope.inbox || scope.put) ==>
         MeetsOtherRoots(Run(t, [RemoveRow, again]).rows, t.flying[id]))
  {
    var t := Begun(s, id, name, scope, false);
    var r := s.rows[name];
    var again := Join(name, OtherSettings(r));
    TwoSteps(t, RemoveRow, again);
    RemovedAndJoined(t, name, r);
    assert |r.offer.root + "x"| != |r.offer.root| && |r.inbox + "x"| != |r.inbox|;
  }

  /** Whatever happens before it ends, the operation finds the roots it was handed. */
  ghost predicate AlwaysFrozen(s: State, id: nat, op: Operation) {
    forall rest :: NeverEnds(rest, id) ==> FrozenFor(Run(s, rest).rows, op)
  }

  ghost predicate CanMeetOtherRoots(s: State, id: nat, op: Operation) {
    exists rest :: NeverEnds(rest, id) && MeetsOtherRoots(Run(s, rest).rows, op)
  }

  lemma ProtectedIsFrozen(s: State, id: nat, op: Operation)
    requires Protected(s, id, op)
    ensures AlwaysFrozen(s, id, op) && !CanMeetOtherRoots(s, id, op)
  {
    hide Protected, Run;
    forall rest | NeverEnds(rest, id)
      ensures FrozenFor(Run(s, rest).rows, op) && !MeetsOtherRoots(Run(s, rest).rows, op)
    {
      RunProtects(s, rest, id, op);
    }
  }

  lemma RemovingIsExposed(s: State, id: nat, name: string, scope: Scope)
    requires Inv(s) && CanBegin(s, id, name, false) && s.lifecycle == Removing(name)
    ensures var t := Begun(s, id, name, scope, false);
      && !AlwaysFrozen(t, id, t.flying[id])
      && (CanMeetOtherRoots(t, id, t.flying[id]) <==> scope.offered || scope.inbox || scope.put)
  {
    hide Run, FrozenFor, Inv;
    RemovalExposes(s, id, name, scope);
    var again := Join(name, OtherSettings(s.rows[name]));
    assert NeverEnds([RemoveRow], id) && NeverEnds([RemoveRow, again], id);
  }

  /**
   * For local operations the roots are frozen from the begin on exactly when no removal of the
   * context has passed its second check; if one has, the operation can meet other roots.
   */
  lemma LocalRootsAreFrozenIff(s: State, id: nat, name: string, scope: Scope)
    requires Inv(s) && CanBegin(s, id, name, false)
    ensures var t := Begun(s, id, name, scope, false); var op := t.flying[id];
      && (AlwaysFrozen(t, id, op) <==> s.lifecycle != Removing(name))
      && (CanMeetOtherRoots(t, id, op) <==>
            s.lifecycle == Removing(name) && (scope.offered || scope.inbox || scope.put))
  {
    hide Inv, AlwaysFrozen, CanMeetOtherRoots;
    if s.lifecycle == Removing(name) {
      RemovingIsExposed(s, id, name, scope);
    } else {
      var t := Begun(s, id, name, scope, false);
      BegunKeeps(s, id, name, scope, false);
      ProtectedIsFrozen(t, id, t.flying[id]);
    }
  }

  /** The counters, and the channel that exists exactly while there is something to count. */
  lemma CountersAreExact(steps: seq<Step>, name: string)
    ensures var s := Run(Boot, steps);
      && Counted(s, name) == Holding(s.flying, name)
      && (name in s.done <==> Counted(s, name).total > 0)
      && (name in s.done ==> s.done[name] !in s.closed)
      && !s.fault
  {
    RunKeeps(steps);
    var s := Run(Boot, steps);
    assert CountsFor(s.active, s.done, s.flying, name);
  }

  lemma ContextsAreBounded(steps: seq<Step>)
    ensures |Run(Boot, steps).rows| <= MAX_CONTEXTS
  {
    RunKeeps(steps);
  }

  /** When `Disable` ends its wait because the transfers are done, no non-local operation runs. */
  lemma DisableDrains(steps: seq<Step>, wake: Step)
    requires var s := Run(Boot, steps);
      || (wake.TransfersDone? && s.lifecycle.Waiting? && s.lifecycle.done in s.closed)
      || (wake.LookForTransfers? && s.lifecycle.Disabling? && s.lifecycle.name !in s.done)
    ensures var s := Run(Boot, steps); var t := Apply(s, wake);
      t.lifecycle.Free? && Disabled(t.rows, s.lifecycle.name) && OnlyLocal(t.flying, s.lifecycle.name)
  {
    RunKeeps(steps);
    var s := Run(Boot, steps);
    var name := s.lifecycle.name;
    if wake.LookForTransfers? {
      assert CountsFor(s.active, s.done, s.flying, name);
      IdleMeansOnlyLocal(s.flying, name);
    }
  }

  // ---------------------------------------------------------------- the exception is real

  lemma ThreeMore(s: State, steps: seq<Step>, a: Step, b: Step, c: Step)
    ensures Run(s, steps + [a] + [b] + [c]) == Apply(Apply(Apply(Run(s, steps), a), b), c)
  {
    hide Run, Apply;
    RunThenStep(s, steps, a);
    RunThenStep(s, steps + [a], b);
    RunThenStep(s, steps + [a] + [b], c);
  }

  /** A removal between its second check and the deletion of the row. */
  ghost predicate HalfRemoved(s: State) {
    s.lifecycle == Removing("home") && s.rows.Keys == {"home"} && s.flying == map[] && s.orphans == {}
  }

  lemma HalfARemoval(join: Step)
    requires join == Join("home", Change(Some(("/offered", "narrow")), Some("/inbox"), Some("/put"), false, Some(true)))
    ensures HalfRemoved(Apply(Apply(Apply(Boot, join), Remove("home")), RemoveIfIdle))
  {
    var s := Apply(Boot, join);
    assert CanJoin(Boot, "home", join.change);
    assert s.rows.Keys == {"home"} && s == Boot.(rows := s.rows);
    assert Apply(s, Remove("home")) == s.(lifecycle := Draining("home"));
  }

  lemma RemovalIsReachable()
    ensures exists steps :: HalfRemoved(Run(Boot, steps))
  {
    hide Run, Apply, HalfRemoved;
    var join := Join("home", Change(Some(("/offered", "narrow")), Some("/inbox"), Some("/put"), false, Some(true)));
    HalfARemoval(join);
    assert Run(Boot, []) == Boot by { RunThenStep(Boot, [], join); }
    ThreeMore(Boot, [], join, Remove("home"), RemoveIfIdle);
    assert HalfRemoved(Run(Boot, [] + [join] + [Remove("home")] + [RemoveIfIdle]));
  }

  /** A local operation that meets other roots than it was handed. */
  ghost predicate Orphaned(s: State, id: nat) {
    id in s.flying && !s.flying[id].nonlocal && MeetsOtherRoots(s.rows, s.flying[id])
  }

  lemma BegunBetween(s: State, put: Scope)
    requires HalfRemoved(s)
    ensures CanBegin(s, 0, "home", false)
    ensures Apply(s, BeginLocal(0, "home", put)) == Begun(s, 0, "home", put, false)
  {
  }

  lemma FlyingStays(t: State, again: Step)
    requires again.Join?
    ensures Apply(Apply(t, RemoveRow), again).flying == t.flying
  {
    hide Joined, CanJoin, FlyingOn;
  }

  lemma OrphanedAfter(s: State, put: Scope, again: Step)
    requires Inv(s) && HalfRemoved(s) && put.put && again == Join("home", OtherSettings(s.rows["home"]))
    ensures Orphaned(Apply(Apply(Apply(s, BeginLocal(0, "home", put)), RemoveRow), again), 0)
  {
    hide Run, Apply, Inv, OtherSettings;
    BegunBetween(s, put);
    var t := Begun(s, 0, "home", put, false);
    RemovalExposes(s, 0, "home", put);
    TwoSteps(t, RemoveRow, again);
    FlyingStays(t, again);
  }

  /**
   * A local operation may begin between the two halves of a removal. Its context can then be
   * joined again with another root while it still runs.
   */
  lemma LocalOperationCanBeOrphaned()
    ensures exists steps :: Orphaned(Run(Boot, steps), 0)
  {
    hide Run, Apply, Inv, Orphaned, OtherSettings;
    RemovalIsReachable();
    var removing :| HalfRemoved(Run(Boot, removing));
    var s := Run(Boot, removing);
    RunKeeps(removing);
    var put := Scope(false, false, true);
    var begin, again := BeginLocal(0, "home", put), Join("home", OtherSettings(s.rows["home"]));
    OrphanedAfter(s, put, again);
    ThreeMore(Boot, removing, begin, RemoveRow, again);
    assert Orphaned(Run(Boot, removing + [begin] + [RemoveRow] + [again]), 0);
  }
}
