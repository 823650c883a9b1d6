/** The manager object: the critical sections of its operations on one inner mutex. */
module RootManager {
  import opened RootAuthority

  datatype Answer = Handed(row: Row) | NotFound | IsDisabled

  predicate HasOpenChannel(s: State, name: string) {
    name in s.done && s.done[name] !in s.closed
  }

  /** An operation in flight has a counter to lower and a channel that can still be closed. */
  lemma EndHasChannel(s: State, id: nat)
    requires Inv(s) && id in s.flying
    ensures HasOpenChannel(s, s.flying[id].name)
  {
    EndedCounts(s, id);
  }

  class Manager {
    var state: State

    constructor ()
      ensures state == Boot
    {
      state := Boot;
    }

    method Count(id: nat, name: string, scope: Scope, nonlocal: bool)
      requires name in state.rows
      modifies this
      ensures state == Begun(old(state), id, name, scope, nonlocal)
    {
      var active := if name in state.active then state.active[name] else Counters(0, 0, 0, 0);
      if active.total == 0 {
        state := state.(done := state.done[name := state.made], made := state.made + 1);
      }
      active := active.(total := active.total + 1);
      if scope.offered {
        active := active.(offered := active.offered + 1);
      }
      if scope.inbox {
        active := active.(inbox := active.inbox + 1);
      }
      if scope.put {
        active := active.(put := active.put + 1);
      }
      state := state.(active := state.active[name := active],
                      flying := state.flying[id := Operation(name, scope, nonlocal, state.rows[name])]);
    }

    /** `id` names the new operation; the program has no such number, its caller is the operation. */
    method BeginContextOperation(id: nat, name: string, scope: Scope) returns (r: Answer)
      requires id !in state.flying && id !in state.orphans
      modifies this
      ensures state == Apply(old(state), Begin(id, name, scope))
      ensures r == if name !in old(state).rows then NotFound
                   else if !old(state).rows[name].enabled then IsDisabled
                   else Handed(old(state).rows[name])
    {
      if name !in state.rows {
        return NotFound;
      }
      if !state.rows[name].enabled {
        return IsDisabled;
      }
      var row := state.rows[name];
      Count(id, name, scope, true);
      return Handed(row);
    }

    /** A local operation may begin on a disabled context. */
    method BeginLocalContextOperation(id: nat, name: string, scope: Scope) returns (r: Answer)
      requires id !in state.flying && id !in state.orphans
      modifies this
      ensures state == Apply(old(state), BeginLocal(id, name, scope))
      ensures r == if name !in old(state).rows then NotFound else Handed(old(state).rows[name])
    {
      if name !in state.rows {
        return NotFound;
      }
      var row := state.rows[name];
      Count(id, name, scope, false);
      return Handed(row);
    }

    method EndContextOperation(id: nat)
      requires Inv(state) && id in state.flying
      modifies this
      ensures state == Apply(old(state), End(id))
      ensures state.fault == old(state).fault
    {
      EndHasChannel(state, id);
      Release(id);
    }

    method Release(id: nat)
      requires id in state.flying && HasOpenChannel(state, state.flying[id].name)
      modifies this
      ensures state == Ended(old(state), id) && state.fault == old(state).fault
    {
      var op := state.flying[id];
      var name := op.name;
      var active := if name in state.active then state.active[name] else Counters(0, 0, 0, 0);
      active := active.(total := active.total - 1);
      if op.scope.offered {
        active := active.(offered := active.offered - 1);
      }
      if op.scope.inbox {
        active := active.(inbox := active.inbox - 1);
      }
      if op.scope.put {
        active := active.(put := active.put - 1);
      }
      state := state.(flying := state.flying - {id});
      if active.total == 0 {
        var channel := state.done[name];
        state := state.(active := state.active - {name}, done := state.done - {name},
                        closed := state.closed + {channel}, fault := state.fault || channel in state.closed);
      } else {
        state := state.(active := state.active[name := active]);
      }
    }

    /** `Update` between its lookup and its commit: refused while the roots it changes are in use. */
    method Update(name: string, change: Change) returns (ok: bool)
      requires state.lifecycle.Free?
      modifies this
      ensures state == Apply(old(state), RootAuthority.Update(name, change))
      ensures ok <==> CanUpdate(old(state), name, change)
      ensures Inv(old(state)) ==> Frozen(state.rows, state.flying, state.orphans)
    {
      hide Frozen, Configured, Counts, OpenChannels, HolderOk;
      if name !in state.rows {
        return false;
      }
      var row := state.rows[name];
      var next := Configured(row, change);
      if next.put.allowed && next.put.root.None? {
        return false;
      }
      var active := if name in state.active then state.active[name] else Counters(0, 0, 0, 0);
      var authorityChanged := next.offer != row.offer;
      var inboxChanged := next.inbox != row.inbox;
      var putAuthorityChanged := next.put != row.put;
      if (authorityChanged && active.offered != 0) || (inboxChanged && active.inbox != 0) ||
         (putAuthorityChanged && active.put != 0) {
        return false;
      }
      if Inv(state) {
        GuardedChange(state, name, next);
      }
      state := state.(rows := state.rows[name := next]);
      return true;
    }
  }
}
