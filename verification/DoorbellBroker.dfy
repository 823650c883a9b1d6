/** The broker object: its critical sections, each run to the end under the mutex. */
module DoorbellBroker {
  import opened Doorbell

  datatype Subscription = Opened(channel: nat) | NotRunning | CapacityReached

  /** Channels of the given subscribers whose one place is free. */
  function Ready(s: System, ids: set<string>): set<nat> {
    set id | id in ids && id in s.subscribers && s.subscribers[id] !in s.marked :: s.subscribers[id]
  }

  /** Channels of the given subscribers that still hold an unread marker. */
  function Stalled(s: System, ids: set<string>): set<nat> {
    set id | id in ids && id in s.subscribers && s.subscribers[id] in s.marked :: s.subscribers[id]
  }

  /** Subscribers left when those in `ids` have had their turn. */
  function Remaining(s: System, ids: set<string>): map<string, nat> {
    map id | id in s.subscribers && (id in ids ==> s.subscribers[id] !in s.marked) :: s.subscribers[id]
  }

  function FannedTo(s: System, ids: set<string>): System {
    s.(subscribers := Remaining(s, ids), marked := s.marked + Ready(s, ids), closed := s.closed + Stalled(s, ids))
  }

  /** `fanout` of runner `r` after the turns of the subscribers in `done`. */
  function Midway(s: System, r: nat, done: set<string>): System {
    FannedTo(s, done).(runners := s.runners[r := Fanning(s.subscribers.Keys - done)])
  }

  function Fanned(s: System, r: nat): System {
    FannedTo(s, s.subscribers.Keys).(runners := s.runners[r := Idle])
  }

  lemma TurnSets(s: System, done: set<string>, id: string)
    requires OpenChannels(s.subscribers, s.made, s.closed)
    requires done <= s.subscribers.Keys && id in s.subscribers.Keys - done
    ensures var ch := s.subscribers[id];
      id in Remaining(s, done) && Remaining(s, done)[id] == ch && ch !in Ready(s, done)
    ensures var ch := s.subscribers[id];
      if ch in s.marked then
        && Remaining(s, done + {id}) == Remaining(s, done) - {id}
        && Stalled(s, done + {id}) == Stalled(s, done) + {ch}
        && Ready(s, done + {id}) == Ready(s, done)
      else
        && Remaining(s, done + {id}) == Remaining(s, done)
        && Stalled(s, done + {id}) == Stalled(s, done)
        && Ready(s, done + {id}) == Ready(s, done) + {ch}
  {
  }

  /** One turn adds one subscriber to what is done, in whatever order the map yields them. */
  lemma TurnExtends(s: System, r: nat, done: set<string>, id: string)
    requires OpenChannels(s.subscribers, s.made, s.closed) && !s.fault
    requires done <= s.subscribers.Keys && id in s.subscribers.Keys - done
    ensures Apply(Midway(s, r, done), FanOne(r, id)) == Midway(s, r, done + {id})
  {
    var ch := s.subscribers[id];
    var before, after := Midway(s, r, done), Midway(s, r, done + {id});
    TurnSets(s, done, id);
    assert s.subscribers.Keys - done - {id} == s.subscribers.Keys - (done + {id});
    assert ch !in before.closed by {
      assert ch !in Stalled(s, done);
    }
    assert before.runners[r := Fanning(s.subscribers.Keys - done - {id})] == after.runners;
    assert ch in before.marked <==> ch in s.marked;
    var turned := Rung(before, r, id);
    assert turned.closed == after.closed;
    assert turned.marked == after.marked;
    assert turned.subscribers == after.subscribers;
  }

  lemma FanStarts(s: System, r: nat)
    requires !Locked(s) && InPhase(s.runners, r, Claimed)
    ensures Apply(s, BeginFan(r)) == Midway(s, r, {})
  {
    assert Remaining(s, {}) == s.subscribers;
    assert s.subscribers.Keys - {} == s.subscribers.Keys;
    assert s.marked + Ready(s, {}) == s.marked && s.closed + Stalled(s, {}) == s.closed;
  }

  lemma FanEnds(s: System, r: nat)
    ensures Apply(Midway(s, r, s.subscribers.Keys), EndFan(r)) == Fanned(s, r)
  {
    assert s.subscribers.Keys - s.subscribers.Keys == {};
    assert s.runners[r := Fanning({})][r := Idle] == s.runners[r := Idle];
  }

  function ChannelsOf(subscribers: map<string, nat>, ids: set<string>): set<nat> {
    set id | id in ids && id in subscribers :: subscribers[id]
  }

  function ClosedFor(s: System, ids: set<string>): System {
    s.(closed := s.closed + ChannelsOf(s.subscribers, ids), subscribers := s.subscribers - ids)
  }

  lemma OneMoreClosed(s: System, ids: set<string>, id: string)
    requires OpenChannels(s.subscribers, s.made, s.closed) && !s.fault && id in s.subscribers && id !in ids
    ensures var next := Close(ClosedFor(s, ids), s.subscribers[id]);
      next.(subscribers := next.subscribers - {id}) == ClosedFor(s, ids + {id})
  {
    var ch := s.subscribers[id];
    assert ch !in ChannelsOf(s.subscribers, ids);
    assert ChannelsOf(s.subscribers, ids + {id}) == ChannelsOf(s.subscribers, ids) + {ch};
    assert s.subscribers - ids - {id} == s.subscribers - (ids + {id});
    assert s.closed + ChannelsOf(s.subscribers, ids) + {ch} == s.closed + ChannelsOf(s.subscribers, ids + {id});
  }

  lemma ClosedForNoneAndAll(s: System)
    requires OpenChannels(s.subscribers, s.made, s.closed) && !s.fault
    ensures ClosedFor(s, {}) == s
    ensures ClosedFor(s, s.subscribers.Keys) == CloseAll(s) && !CloseAll(s).fault
  {
    assert ChannelsOf(s.subscribers, {}) == {};
    assert s.subscribers - {} == s.subscribers;
    assert ChannelsOf(s.subscribers, s.subscribers.Keys) == s.subscribers.Values;
    assert s.subscribers - s.subscribers.Keys == map[];
    assert s.subscribers.Values * s.closed == {};
  }

  class Broker {
    var state: System

    constructor (capacity: nat)
      ensures state == Fresh(capacity)
    {
      state := Fresh(capacity);
    }

    /** `Start`: a second start is refused while the first is in force. */
    method Start() returns (ok: bool)
      requires !Locked(state)
      modifies this
      ensures ok == !old(state).running
      ensures state == Apply(old(state), Step.Start)
    {
      if state.running {
        return false;
      }
      state := state.(running := true, runners := state.runners[state.launched := Born],
                      launched := state.launched + 1);
      return true;
    }

    method Subscribe(id: string) returns (r: Subscription)
      requires !Locked(state)
      modifies this
      ensures state == Apply(old(state), Step.Subscribe(id))
      ensures r == NotRunning <==> !old(state).running
      ensures r == CapacityReached <==>
        old(state).running && id !in old(state).subscribers && |old(state).subscribers| >= MAX_SUBSCRIBERS
      ensures r.Opened? ==>
        r.channel == old(state).made && id in state.subscribers && state.subscribers[id] == r.channel
    {
      if !state.running {
        return NotRunning;
      }
      var replacing := id in state.subscribers;
      if !replacing && |state.subscribers| >= MAX_SUBSCRIBERS {
        return CapacityReached;
      }
      if replacing {
        state := Close(state, state.subscribers[id]);
      }
      var channel := state.made;
      state := state.(subscribers := state.subscribers[id := channel], made := channel + 1);
      return Opened(channel);
    }

    /** The function `Subscribe` hands back. */
    method CancelSubscription(id: string, channel: nat)
      requires !Locked(state)
      modifies this
      ensures state == Apply(old(state), Cancel(id, channel))
    {
      if channel in state.spent {
        return;
      }
      state := state.(spent := state.spent + {channel});
      if id in state.subscribers && state.subscribers[id] == channel {
        state := Close(state, channel).(subscribers := state.subscribers - {id});
      }
    }

    /**
     * `fanout`, when no consumer interleaves: every free channel gets a marker, every stalled
     * one is closed and forgotten, whatever the order of the map.
     */
    method FanOut(r: nat)
      requires OpenChannels(state.subscribers, state.made, state.closed) && !state.fault
      requires !Locked(state) && InPhase(state.runners, r, Claimed)
      modifies this
      ensures state == Fanned(old(state), r)
    {
      ghost var s := state;
      FanStarts(s, r);
      state := Apply(state, BeginFan(r));
      var todo := state.subscribers.Keys;
      ghost var done: set<string> := {};
      while todo != {}
        invariant done <= s.subscribers.Keys && todo == s.subscribers.Keys - done
        invariant state == Midway(s, r, done)
        decreases todo
      {
        var id :| id in todo;
        TurnExtends(s, r, done, id);
        state := Apply(state, FanOne(r, id));
        done := done + {id};
        todo := todo - {id};
      }
      assert done == s.subscribers.Keys;
      FanEnds(s, r);
      state := Apply(state, EndFan(r));
    }

    /** The last section of `Stop`. */
    method CloseSubscribers()
      requires OpenChannels(state.subscribers, state.made, state.closed) && !state.fault
      modifies this
      ensures state == CloseAll(old(state)) && !state.fault
    {
      ghost var s := state;
      var rest := state.subscribers.Keys;
      ghost var done: set<string> := {};
      ClosedForNoneAndAll(s);
      while rest != {}
        invariant done <= s.subscribers.Keys && rest == s.subscribers.Keys - done
        invariant state == ClosedFor(s, done)
        decreases rest
      {
        var id :| id in rest;
        assert state.subscribers[id] == s.subscribers[id];
        OneMoreClosed(s, done, id);
        state := Close(state, state.subscribers[id]);
        state := state.(subscribers := state.subscribers - {id});
        done := done + {id};
        rest := rest - {id};
      }
      assert done == s.subscribers.Keys;
    }
  }
}
