/**
 * The doorbell broker: fact notifications enter a bounded channel without blocking, a
 * runner takes them out and rings every subscriber, and subscribers come, go, replace one
 * another and are thrown out when they stall. Every step another goroutine can observe is a
 * step here, so a run is an interleaving.
 */
module Doorbell {
  import opened Basics

  const MAX_SUBSCRIBERS := 64

  /**
   * A runner has been launched but not yet looked at `b.done`, waits in its select, holds a
   * taken token, or is inside `fanout` with the mutex.
   */
  datatype Phase = Born | Idle | Claimed | Fanning(todo: set<string>)

  /**
   * Every start makes one `done` channel, numbered like the runner it launches. `held` maps a
   * runner to the one it will close, `ended` are those closed, and `torn` records that one was
   * closed twice, which would panic.
   */
  datatype Dones = Dones(held: map<nat, nat>, ended: set<nat>, torn: bool)

  /**
   * Channels are numbered as they are made. `marked` are those whose one-place buffer is
   * full. `dirty` is not stored by the program: it holds the channels for which facts were
   * notified since a marker was last consumed from them. `fault` records a send on, or a
   * close of, a closed subscriber channel, which would panic.
   */
  datatype System = System(
    capacity: nat, tokens: nat,
    subscribers: map<string, nat>, made: nat, marked: set<nat>, closed: set<nat>, spent: set<nat>,
    running: bool, runners: map<nat, Phase>, launched: nat, doomed: set<nat>,
    dirty: set<nat>, fault: bool, dones: Dones)

  function Fresh(capacity: nat): System {
    System(capacity, 0, map[], 0, {}, {}, {}, false, map[], 0, {}, {}, false, Dones(map[], {}, false))
  }

  predicate InPhase(runners: map<nat, Phase>, r: nat, p: Phase) {
    r in runners && runners[r] == p
  }

  predicate Fans(runners: map<nat, Phase>, r: nat) {
    r in runners && runners[r].Fanning?
  }

  /** `fanout` keeps the mutex from its first to its last subscriber. */
  predicate Locked(s: System) {
    exists r :: r in s.runners && Fans(s.runners, r)
  }

  // ---------------------------------------------------------------- channels

  function Close(s: System, ch: nat): System {
    s.(closed := s.closed + {ch}, fault := s.fault || ch in s.closed)
  }

  function Send(s: System, ch: nat): System {
    s.(marked := s.marked + {ch}, fault := s.fault || ch in s.closed)
  }

  function CloseAll(s: System): System {
    s.(closed := s.closed + s.subscribers.Values,
       fault := s.fault || s.subscribers.Values * s.closed != {},
       subscribers := map[])
  }

  // ---------------------------------------------------------------- the steps

  datatype Step =
    | Notify(handed: Option<nat>)
    | Claim(r: nat)
    | BeginFan(r: nat)
    | FanOne(r: nat, id: string)
    | EndFan(r: nat)
    | Consume(ch: nat)
    | Subscribe(id: string)
    | Cancel(id: string, ch: nat)
    | Start
    | Capture(r: nat)
    | Doom(r: nat)
    | Exit(r: nat)
    | StopBegin
    | StopFinish(done: Option<nat>)

  /**
   * The non-blocking send. A buffered channel takes a token unless it is full. An unbuffered
   * one passes it on only to a runner that is already waiting.
   */
  function Notified(s: System, handed: Option<nat>): System {
    var rung := s.(dirty := s.dirty + s.subscribers.Values);
    if s.capacity > 0 then rung.(tokens := if s.tokens < s.capacity then s.tokens + 1 else s.tokens)
    else if handed.Some? && InPhase(s.runners, handed.value, Idle)
    then rung.(runners := s.runners[handed.value := Claimed])
    else rung
  }

  /** One turn of the loop in `fanout`: a marker, or the door for a subscriber that stalled. */
  function Rung(s: System, r: nat, id: string): System
    requires Fans(s.runners, r) && id in s.runners[r].todo && id in s.subscribers
  {
    var ch := s.subscribers[id];
    var next := s.(runners := s.runners[r := Fanning(s.runners[r].todo - {id})]);
    if ch !in s.marked then Send(next, ch) else Close(next, ch).(subscribers := s.subscribers - {id})
  }

  predicate CanSubscribe(s: System, id: string) {
    s.running && (id in s.subscribers || |s.subscribers| < MAX_SUBSCRIBERS)
  }

  function Subscribed(s: System, id: string): System {
    if !CanSubscribe(s, id) then s else
    var replaced := if id in s.subscribers then Close(s, s.subscribers[id]) else s;
    replaced.(subscribers := s.subscribers[id := s.made], made := s.made + 1)
  }

  /** The returned function: at most once per channel, and only if the channel is still current. */
  function Cancelled(s: System, id: string, ch: nat): System {
    if ch in s.spent then s else
    var once := s.(spent := s.spent + {ch});
    if id in s.subscribers && s.subscribers[id] == ch then Close(once, ch).(subscribers := s.subscribers - {id})
    else once
  }

  /** The deferred close evaluates `b.done` when the runner first runs: the newest one by then. */
  function Captured(s: System, r: nat): System
    requires s.launched > 0
  {
    s.(runners := s.runners[r := Idle], dones := s.dones.(held := s.dones.held[r := s.launched - 1]))
  }

  function Closed(d: Dones, r: nat): Dones {
    if r in d.held then Dones(d.held, d.ended + {d.held[r]}, d.torn || d.held[r] in d.ended) else d
  }

  function Exited(s: System, r: nat): System {
    s.(runners := s.runners - {r}, dones := Closed(s.dones, r))
  }

  predicate CanStart(s: System) {
    !Locked(s) && !s.running
  }

  /** `Stop` waits for the `done` channel it found, or for none if there was none yet. */
  predicate MayFinish(s: System, done: Option<nat>) {
    !Locked(s) && (done.Some? ==> done.value in s.dones.ended)
  }

  /** A step that is not enabled, because the mutex is held or its goroutine is elsewhere, changes nothing. */
  function Apply(s: System, step: Step): System {
    match step
    case Notify(handed) => Notified(s, handed)
    case Claim(r) =>
      if InPhase(s.runners, r, Idle) && s.tokens > 0
      then s.(tokens := s.tokens - 1, runners := s.runners[r := Claimed])
      else s
    case BeginFan(r) =>
      if InPhase(s.runners, r, Claimed) && !Locked(s)
      then s.(runners := s.runners[r := Fanning(s.subscribers.Keys)])
      else s
    case FanOne(r, id) =>
      if Fans(s.runners, r) && id in s.runners[r].todo && id in s.subscribers then Rung(s, r, id) else s
    case EndFan(r) =>
      if InPhase(s.runners, r, Fanning({})) then s.(runners := s.runners[r := Idle]) else s
    case Consume(ch) =>
      if ch in s.marked then s.(marked := s.marked - {ch}, dirty := s.dirty - {ch}) else s
    case Subscribe(id) => if Locked(s) then s else Subscribed(s, id)
    case Cancel(id, ch) => if Locked(s) then s else Cancelled(s, id, ch)
    case Start =>
      if CanStart(s)
      then s.(running := true, runners := s.runners[s.launched := Born], launched := s.launched + 1)
      else s
    case Capture(r) => if InPhase(s.runners, r, Born) && s.launched > 0 then Captured(s, r) else s
    case Doom(r) => s.(doomed := s.doomed + {r})
    case Exit(r) =>
      if InPhase(s.runners, r, Idle) && r in s.doomed then Exited(s, r) else s
    case StopBegin =>
      if Locked(s) || s.launched == 0 then s
      else s.(running := false, doomed := if s.running then s.doomed + {s.launched - 1} else s.doomed)
    case StopFinish(done) => if MayFinish(s, done) then CloseAll(s) else s
  }

  function Run(s: System, steps: seq<Step>): System {
    if steps == [] then s else Apply(Run(s, steps[..|steps| - 1]), steps[|steps| - 1])
  }

  // ---------------------------------------------------------------- the invariant

  /** Every subscriber has a channel of its own, and it is open. */
  ghost predicate OpenChannels(subscribers: map<string, nat>, made: nat, closed: set<nat>) {
    && (forall id :: id in subscribers ==> subscribers[id] < made && subscribers[id] !in closed)
    && (forall a, b :: a in subscribers && b in subscribers && subscribers[a] == subscribers[b] ==> a == b)
  }

  ghost predicate Below(channels: set<nat>, made: nat) {
    forall ch :: ch in channels ==> ch < made
  }

  /** At most one runner is inside `fanout`, and what it has left are current subscribers. */
  ghost predicate OneFanout(runners: map<nat, Phase>, launched: nat, ids: set<string>) {
    && (forall r :: r in runners ==> r < launched && (runners[r].Fanning? ==> runners[r].todo <= ids))
    && (forall q, r :: Fans(runners, q) && Fans(runners, r) ==> q == r)
  }

  /** A wakeup for the subscriber is on its way, or waits in its channel. */
  ghost predicate OnItsWay(s: System, id: string)
    requires id in s.subscribers
  {
    || s.tokens > 0
    || (exists r :: InPhase(s.runners, r, Claimed))
    || (exists r :: Fans(s.runners, r) && id in s.runners[r].todo)
    || s.subscribers[id] in s.marked
  }

  /** No lost wakeup. */
  ghost predicate NothingLost(s: System) {
    forall id :: id in s.subscribers && s.subscribers[id] in s.dirty ==> OnItsWay(s, id)
  }

  ghost predicate Inv(s: System) {
    && !s.fault
    && s.tokens <= s.capacity
    && |s.subscribers| <= MAX_SUBSCRIBERS
    && OpenChannels(s.subscribers, s.made, s.closed)
    && Below(s.closed, s.made) && Below(s.marked, s.made) && Below(s.dirty, s.made)
    && OneFanout(s.runners, s.launched, s.subscribers.Keys)
  }

  // ---------------------------------------------------------------- every step keeps it

  /** A runner in any phase but `fanout` may be replaced, added next or removed. */
  lemma RunnersMove(runners: map<nat, Phase>, launched: nat, ids: set<string>, r: nat, p: Phase)
    requires OneFanout(runners, launched, ids) && !p.Fanning?
    ensures r < launched ==> OneFanout(runners[r := p], launched, ids)
    ensures r == launched ==> OneFanout(runners[r := p], launched + 1, ids)
    ensures OneFanout(runners - {r}, launched, ids)
  {
    var after := runners[r := p];
    forall q | Fans(after, q) ensures Fans(runners, q) {
    }
    var without := runners - {r};
    forall q | Fans(without, q) ensures Fans(runners, q) {
    }
  }

  /** The mutex lets one runner in, and what it has left only shrinks. */
  lemma RunnerFans(runners: map<nat, Phase>, launched: nat, ids: set<string>, r: nat, todo: set<string>)
    requires OneFanout(runners, launched, ids) && r in runners && todo <= ids
    requires forall q :: q in runners && Fans(runners, q) ==> q == r
    ensures OneFanout(runners[r := Fanning(todo)], launched, ids)
  {
    assert forall q :: Fans(runners[r := Fanning(todo)], q) ==> q == r || Fans(runners, q);
  }

  lemma NobodyFans(runners: map<nat, Phase>, launched: nat, ids: set<string>, others: set<string>)
    requires OneFanout(runners, launched, ids) && forall q :: q in runners ==> !Fans(runners, q)
    ensures OneFanout(runners, launched, others)
  {
    assert forall q :: q in runners ==> !runners[q].Fanning? by {
      forall q | q in runners ensures !runners[q].Fanning? {
        assert !Fans(runners, q);
      }
    }
  }

  /** The steps of runners, but for the turns inside `fanout`. */
  lemma RunnerStepKeeps(s: System, step: Step)
    requires Inv(s)
    requires step.Claim? || step.EndFan? || step.Start? || step.Capture? || step.Exit? || step.BeginFan?
    ensures Inv(Apply(s, step))
  {
    hide OpenChannels, Below, Subscribed, Cancelled, CloseAll, Rung, Notified;
    match step
    case Claim(r) =>
      RunnersMove(s.runners, s.launched, s.subscribers.Keys, r, Claimed);
    case EndFan(r) =>
      RunnersMove(s.runners, s.launched, s.subscribers.Keys, r, Idle);
    case Start =>
      RunnersMove(s.runners, s.launched, s.subscribers.Keys, s.launched, Born);
    case Capture(r) =>
      RunnersMove(s.runners, s.launched, s.subscribers.Keys, r, Idle);
    case Exit(r) =>
      RunnersMove(s.runners, s.launched, s.subscribers.Keys, r, Idle);
    case BeginFan(r) =>
      if InPhase(s.runners, r, Claimed) && !Locked(s) {
        RunnerFans(s.runners, s.launched, s.subscribers.Keys, r, s.subscribers.Keys);
      }
  }

  lemma StepKeepsInv(s: System, step: Step)
    requires Inv(s)
    ensures Inv(Apply(s, step))
  {
    hide OneFanout, OpenChannels, Subscribed, Cancelled, CloseAll, Rung, Notified;
    match step
    case FanOne(r, id) =>
      if Fans(s.runners, r) && id in s.runners[r].todo && id in s.subscribers {
        RungKeeps(s, r, id);
      }
    case Subscribe(id) =>
      if !Locked(s) {
        SubscribedKeeps(s, id);
      }
    case Cancel(id, ch) =>
      if !Locked(s) {
        CancelledKeeps(s, id, ch);
      }
    case StopFinish(done) =>
      if MayFinish(s, done) {
        CloseAllKeeps(s);
      }
    case Notify(handed) =>
      NotifiedKeeps(s, handed);
    case Claim(_) => RunnerStepKeeps(s, step);
    case EndFan(_) => RunnerStepKeeps(s, step);
    case Start => RunnerStepKeeps(s, step);
    case Capture(_) => RunnerStepKeeps(s, step);
    case Exit(_) => RunnerStepKeeps(s, step);
    case BeginFan(_) => RunnerStepKeeps(s, step);
    case Doom(_) =>
    case StopBegin =>
    case Consume(_) =>
  }

  lemma NotifiedKeeps(s: System, handed: Option<nat>)
    requires Inv(s)
    ensures Inv(Notified(s, handed))
  {
    assert Below(s.dirty + s.subscribers.Values, s.made);
    if handed.Some? {
      RunnersMove(s.runners, s.launched, s.subscribers.Keys, handed.value, Claimed);
    }
  }

  lemma CloseAllKeeps(s: System)
    requires Inv(s) && !Locked(s)
    ensures Inv(CloseAll(s))
  {
    assert s.subscribers.Values * s.closed == {};
    assert Below(s.closed + s.subscribers.Values, s.made);
    NobodyFans(s.runners, s.launched, s.subscribers.Keys, {});
  }

  lemma FewerIds(subscribers: map<string, nat>, id: string)
    ensures |subscribers - {id}| <= |subscribers| && (subscribers - {id}).Keys == subscribers.Keys - {id}
  {
    assert (subscribers - {id}).Keys == subscribers.Keys - {id};
    assert |subscribers.Keys - {id}| <= |subscribers.Keys|;
  }

  /** Closing a subscriber's channel as it leaves the map is safe. */
  lemma LeavingKeeps(subscribers: map<string, nat>, made: nat, closed: set<nat>, id: string)
    requires OpenChannels(subscribers, made, closed) && id in subscribers
    ensures OpenChannels(subscribers - {id}, made, closed + {subscribers[id]})
  {
  }

  lemma RungKeeps(s: System, r: nat, id: string)
    requires Inv(s) && Fans(s.runners, r) && id in s.runners[r].todo && id in s.subscribers
    ensures Inv(Rung(s, r, id))
  {
    var t := Rung(s, r, id);
    var todo := s.runners[r].todo - {id};
    FewerIds(s.subscribers, id);
    LeavingKeeps(s.subscribers, s.made, s.closed, id);
    assert forall q :: q in s.runners && Fans(s.runners, q) ==> q == r;
    RunnerFans(s.runners, s.launched, s.subscribers.Keys, r, todo);
    if s.subscribers[id] in s.marked {
      assert OneFanout(t.runners, t.launched, t.subscribers.Keys) by {
        OnlyItsTodo(t.runners, t.launched, s.subscribers.Keys, r, todo, t.subscribers.Keys);
      }
    }
  }

  lemma OnlyItsTodo(runners: map<nat, Phase>, launched: nat, ids: set<string>, r: nat, todo: set<string>,
                    fewer: set<string>)
    requires OneFanout(runners, launched, ids) && InPhase(runners, r, Fanning(todo)) && todo <= fewer
    ensures OneFanout(runners, launched, fewer)
  {
    forall q | q in runners && runners[q].Fanning? ensures q == r {
      assert Fans(runners, q) && Fans(runners, r);
    }
  }

  /** A new channel takes the place in the map of a closed one, or a free place. */
  lemma JoiningKeeps(subscribers: map<string, nat>, made: nat, closed: set<nat>, id: string)
    requires OpenChannels(subscribers, made, closed) && Below(closed, made)
    ensures OpenChannels(subscribers[id := made], made + 1,
                         closed + if id in subscribers then {subscribers[id]} else {})
  {
    var after := subscribers[id := made];
    assert forall other :: other in after && other != id ==> other in subscribers && after[other] == subscribers[other];
    assert made !in closed;
  }

  lemma MoreIds(subscribers: map<string, nat>, id: string, ch: nat)
    ensures |subscribers[id := ch]| == if id in subscribers then |subscribers| else |subscribers| + 1
  {
    var after := subscribers[id := ch];
    assert after.Keys == subscribers.Keys + {id};
    if id in subscribers {
      assert after.Keys == subscribers.Keys;
    }
    assert |after.Keys| == |after| && |subscribers.Keys| == |subscribers|;
  }

  lemma SubscribedKeeps(s: System, id: string)
    requires Inv(s) && !Locked(s)
    ensures Inv(Subscribed(s, id))
  {
    var t := Subscribed(s, id);
    JoiningKeeps(s.subscribers, s.made, s.closed, id);
    MoreIds(s.subscribers, id, s.made);
    NobodyFans(s.runners, s.launched, s.subscribers.Keys, t.subscribers.Keys);
    assert s.closed + {} == s.closed;
  }

  lemma CancelledKeeps(s: System, id: string, ch: nat)
    requires Inv(s) && !Locked(s)
    ensures Inv(Cancelled(s, id, ch))
  {
    var t := Cancelled(s, id, ch);
    NobodyFans(s.runners, s.launched, s.subscribers.Keys, t.subscribers.Keys);
    if ch !in s.spent && id in s.subscribers && s.subscribers[id] == ch {
      FewerIds(s.subscribers, id);
      LeavingKeeps(s.subscribers, s.made, s.closed, id);
    }
  }

  /** With room for one token, no step loses a wakeup. */
  lemma StepLosesNothing(s: System, step: Step)
    requires Inv(s) && s.capacity > 0 && NothingLost(s)
    ensures NothingLost(Apply(s, step))
  {
    var t := Apply(s, step);
    forall id | id in t.subscribers && t.subscribers[id] in t.dirty ensures OnItsWay(t, id) {
      if step.Notify? {
        assert t.tokens > 0;
      } else {
        StaysDirty(s, step, id);
        StillOnItsWay(s, step, id);
      }
    }
  }

  /** Only a notification makes a channel dirty, and a new channel is clean. */
  lemma StaysDirty(s: System, step: Step, id: string)
    requires !step.Notify? && Below(s.dirty, s.made)
    requires var t := Apply(s, step); id in t.subscribers && t.subscribers[id] in t.dirty
    ensures id in s.subscribers && Apply(s, step).subscribers[id] == s.subscribers[id] && s.subscribers[id] in s.dirty
  {
  }

  lemma StillOnItsWay(s: System, step: Step, id: string)
    requires Inv(s) && id in s.subscribers && OnItsWay(s, id)
    requires var t := Apply(s, step); id in t.subscribers && t.subscribers[id] == s.subscribers[id]
    requires !step.Notify? && s.subscribers[id] in Apply(s, step).dirty
    ensures OnItsWay(Apply(s, step), id)
  {
    if s.tokens > 0 {
      TokensGoOn(s, step);
    } else if r :| InPhase(s.runners, r, Claimed) {
      ClaimedGoesOn(s, step, r);
    } else if r :| Fans(s.runners, r) && id in s.runners[r].todo {
      FanoutGoesOn(s, step, r, id);
    } else {
      MarkerGoesOn(s, step, s.subscribers[id]);
    }
  }

  lemma TokensGoOn(s: System, step: Step)
    requires s.tokens > 0 && !step.Notify?
    ensures var t := Apply(s, step); t.tokens > 0 || exists r :: InPhase(t.runners, r, Claimed)
  {
    if step.Claim? && Apply(s, step) != s {
      assert InPhase(Apply(s, step).runners, step.r, Claimed);
    }
  }

  lemma MarkerGoesOn(s: System, step: Step, ch: nat)
    requires ch in s.marked && ch in Apply(s, step).dirty
    ensures ch in Apply(s, step).marked
  {
  }

  lemma ClaimedGoesOn(s: System, step: Step, r: nat)
    requires OneFanout(s.runners, s.launched, s.subscribers.Keys) && InPhase(s.runners, r, Claimed)
    ensures var t := Apply(s, step);
      || InPhase(t.runners, r, Claimed)
      || (t.subscribers == s.subscribers && InPhase(t.runners, r, Fanning(s.subscribers.Keys)))
  {
  }

  lemma FanoutGoesOn(s: System, step: Step, r: nat, id: string)
    requires OneFanout(s.runners, s.launched, s.subscribers.Keys)
    requires Fans(s.runners, r) && id in s.runners[r].todo
    ensures var t := Apply(s, step);
      if step == FanOne(r, id) then id in s.subscribers && (id in t.subscribers ==> s.subscribers[id] in t.marked)
      else Fans(t.runners, r) && id in t.runners[r].todo
  {
    assert s.runners[r].todo <= s.subscribers.Keys;
  }

  lemma StepKeeps(s: System, step: Step)
    requires Inv(s)
    ensures Inv(Apply(s, step)) && Apply(s, step).capacity == s.capacity
    ensures s.capacity > 0 && NothingLost(s) ==> NothingLost(Apply(s, step))
  {
    StepKeepsInv(s, step);
    if s.capacity > 0 && NothingLost(s) {
      StepLosesNothing(s, step);
    }
  }

  lemma RunThenStep(s: System, steps: seq<Step>, step: Step)
    ensures Run(s, []) == s
    ensures Run(s, steps + [step]) == Apply(Run(s, steps), step)
  {
    hide Apply;
    assert (steps + [step])[..|steps|] == steps;
  }

  lemma ThreeSteps(s: System, a: Step, b: Step, c: Step)
    ensures Run(s, [a, b, c]) == Apply(Apply(Apply(s, a), b), c)
  {
    hide Apply;
    var one, two := [] + [a], [a] + [b];
    assert Run(s, one) == Apply(s, a) by {
      RunThenStep(s, [], a);
    }
    assert Run(s, two) == Apply(Run(s, one), b) by {
      RunThenStep(s, one, b);
      assert one == [a];
    }
    assert two + [c] == [a, b, c];
    RunThenStep(s, two, c);
  }

  /** In every run: no subscriber channel is misused, at most 64 subscribers, and with a place no wakeup is lost. */
  lemma {:induction false} RunKeeps(capacity: nat, steps: seq<Step>)
    ensures Inv(Run(Fresh(capacity), steps)) && Run(Fresh(capacity), steps).capacity == capacity
    ensures capacity > 0 ==> NothingLost(Run(Fresh(capacity), steps))
  {
    hide Apply;
    if steps == [] {
    } else {
      var n := |steps| - 1;
      RunKeeps(capacity, steps[..n]);
      StepKeeps(Run(Fresh(capacity), steps[..n]), steps[n]);
    }
  }

  /** With no place the ring is dropped while the runner is not yet waiting. */
  lemma RingUnheard()
    ensures !NothingLost(Apply(Apply(Apply(Fresh(0), Start), Subscribe("adapter")), Notify(None)))
  {
    var started := Apply(Fresh(0), Start);
    assert started.runners == map[0 := Born];
    assert !Locked(started);
    var joined := Apply(started, Subscribe("adapter"));
    assert joined.subscribers == map["adapter" := 0];
    var s := Apply(joined, Notify(None));
    assert !OnItsWay(s, "adapter");
  }

  lemma UnbufferedLoses()
    ensures exists steps :: !NothingLost(Run(Fresh(0), steps))
  {
    var a, b, c := Start, Subscribe("adapter"), Notify(None);
    RingUnheard();
    ThreeSteps(Fresh(0), a, b, c);
    assert !NothingLost(Run(Fresh(0), [a, b, c]));
  }

  /** The notification channel needs room for one token, and one is enough. */
  lemma WakeupsNeedOnePlace(capacity: nat)
    ensures (forall steps :: NothingLost(Run(Fresh(capacity), steps))) <==> capacity >= 1
  {
    hide Apply;
    if capacity >= 1 {
      forall steps ensures NothingLost(Run(Fresh(capacity), steps)) {
        RunKeeps(capacity, steps);
      }
    } else {
      UnbufferedLoses();
    }
  }

  /**
   * Every run of `fanout` reaches a subscriber it found: when its turn comes the channel holds
   * a marker afterwards, or the subscriber has been disconnected and sees the close.
   */
  lemma TurnRings(s: System, r: nat, id: string)
    requires Inv(s) && Fans(s.runners, r) && id in s.runners[r].todo
    ensures id in s.subscribers
    ensures var t := Apply(s, FanOne(r, id)); var ch := s.subscribers[id];
      if ch in s.marked then ch in t.closed && id !in t.subscribers
      else ch in t.marked && ch !in t.closed && t.subscribers == s.subscribers
  {
    assert s.runners[r].todo <= s.subscribers.Keys;
  }

  /** A pending token and a waiting runner are enough to reach any open subscriber. */
  lemma TokenReachesSubscriber(s: System, r: nat, id: string)
    requires Inv(s) && !Locked(s) && InPhase(s.runners, r, Idle) && s.tokens > 0 && id in s.subscribers
    ensures var t := Run(s, [Claim(r), BeginFan(r), FanOne(r, id)]); var ch := s.subscribers[id];
      if ch in s.marked then ch in t.closed else ch in t.marked && ch !in t.closed
  {
    ThreeSteps(s, Claim(r), BeginFan(r), FanOne(r, id));
    var claimed := Apply(s, Claim(r));
    var fanning := Apply(claimed, BeginFan(r));
    assert InPhase(fanning.runners, r, Fanning(s.subscribers.Keys)) by {
      forall q | q in claimed.runners ensures !Fans(claimed.runners, q) {
        assert q != r ==> !Fans(s.runners, q);
      }
    }
    assert Inv(fanning) by {
      StepKeepsInv(s, Claim(r));
      StepKeepsInv(claimed, BeginFan(r));
    }
    TurnRings(fanning, r, id);
  }

  lemma StoppedStep(s: System, step: Step)
    requires !s.running && s.subscribers == map[] && !step.Start?
    ensures !Apply(s, step).running && Apply(s, step).subscribers == map[]
  {
  }

  predicate NoStart(steps: seq<Step>) {
    forall i :: 0 <= i < |steps| ==> !steps[i].Start?
  }

  /** Once `Stop` has returned, nobody is subscribed until the broker is started again. */
  lemma {:induction false} StoppedStaysEmpty(s: System, steps: seq<Step>)
    requires !s.running && s.subscribers == map[]
    requires NoStart(steps)
    ensures !Run(s, steps).running && Run(s, steps).subscribers == map[]
  {
    hide Apply;
    if steps != [] {
      var n := |steps| - 1;
      StoppedStaysEmpty(s, steps[..n]);
      StoppedStep(Run(s, steps[..n]), steps[n]);
    }
  }

  // ---------------------------------------------------------------- the done channel

  /** No launched runner is still to look at `b.done`. */
  ghost predicate NobodyBorn(s: System) {
    forall r :: r in s.runners ==> !s.runners[r].Born?
  }

  /** Every start of the run happens after the runners launched before it have begun to run. */
  ghost predicate Careful(capacity: nat, steps: seq<Step>) {
    forall i :: 0 <= i < |steps| && steps[i].Start? && CanStart(Run(Fresh(capacity), steps[..i])) ==>
      NobodyBorn(Run(Fresh(capacity), steps[..i]))
  }

  /** A runner closes the channel made with it, which is open for as long as the runner lives. */
  ghost predicate OwnDone(s: System, r: nat) {
    r in s.runners ==>
      && r < s.launched && r !in s.dones.ended
      && (if s.runners[r].Born? then r == s.launched - 1 else r in s.dones.held && s.dones.held[r] == r)
  }

  ghost predicate DoneInv(s: System) {
    && !s.dones.torn
    && (forall r :: OwnDone(s, r))
    && (forall d :: d in s.dones.ended ==> d < s.launched)
  }

  lemma StepKeepsOwn(s: System, step: Step, r: nat)
    requires DoneInv(s) && (step.Start? && CanStart(s) ==> NobodyBorn(s))
    ensures OwnDone(Apply(s, step), r)
  {
    hide Locked, CanSubscribe;
    assert OwnDone(s, r);
    if step.Capture? || step.Exit? { assert OwnDone(s, step.r); }
  }

  lemma StepEndsOnce(s: System, step: Step)
    requires DoneInv(s)
    ensures var t := Apply(s, step); !t.dones.torn && forall d :: d in t.dones.ended ==> d < t.launched
  {
    hide Locked, CanSubscribe;
    if step.Exit? { assert OwnDone(s, step.r); }
  }

  lemma StepKeepsDone(s: System, step: Step)
    requires DoneInv(s) && (step.Start? && CanStart(s) ==> NobodyBorn(s))
    ensures DoneInv(Apply(s, step))
  {
    hide OwnDone, Apply;
    var t := Apply(s, step);
    forall r ensures OwnDone(t, r) { StepKeepsOwn(s, step, r); }
    StepEndsOnce(s, step);
  }

  /** In a careful run no `done` channel is closed twice, and a closed one means its runner is gone. */
  lemma {:induction false} CarefulRunsCloseOnce(capacity: nat, steps: seq<Step>)
    requires Careful(capacity, steps)
    ensures var s := Run(Fresh(capacity), steps);
      DoneInv(s) && !s.dones.torn && forall d :: d in s.dones.ended ==> d !in s.runners
  {
    hide Apply;
    if steps == [] {
    } else {
      var n := |steps| - 1;
      var front := steps[..n];
      assert Careful(capacity, front) by {
        forall i | 0 <= i < n && front[i].Start? && CanStart(Run(Fresh(capacity), front[..i]))
          ensures NobodyBorn(Run(Fresh(capacity), front[..i]))
        {
          assert front[..i] == steps[..i];
        }
      }
      CarefulRunsCloseOnce(capacity, front);
      StepKeepsDone(Run(Fresh(capacity), front), steps[n]);
    }
    var s := Run(Fresh(capacity), steps);
    forall d | d in s.dones.ended ensures d !in s.runners {
      assert OwnDone(s, d);
    }
  }

  lemma {:induction false} NoStartKeepsDone(s: System, steps: seq<Step>)
    requires DoneInv(s) && NoStart(steps)
    ensures DoneInv(Run(s, steps))
  {
    hide Apply;
    if steps != [] {
      var n := |steps| - 1;
      NoStartKeepsDone(s, steps[..n]);
      StepKeepsDone(Run(s, steps[..n]), steps[n]);
    }
  }

  lemma BothCapture(s: System, senior: nat, junior: nat)
    requires senior != junior && s.launched == junior + 1
    requires InPhase(s.runners, senior, Born) && InPhase(s.runners, junior, Born)
    ensures var t := Apply(Apply(s, Capture(senior)), Capture(junior));
      && InPhase(t.runners, senior, Idle) && InPhase(t.runners, junior, Idle)
      && t.dones == s.dones.(held := s.dones.held[senior := junior][junior := junior])
  {
  }

  lemma BothDoomed(s: System, senior: nat, junior: nat)
    ensures Apply(Apply(s, Doom(senior)), Doom(junior)) == s.(doomed := s.doomed + {senior} + {junior})
  {
  }

  lemma BothExit(s: System, senior: nat, junior: nat)
    requires senior != junior && senior in s.doomed && junior in s.doomed
    requires InPhase(s.runners, senior, Idle) && InPhase(s.runners, junior, Idle)
    requires senior in s.dones.held && junior in s.dones.held && s.dones.held[senior] == s.dones.held[junior]
    ensures Apply(Apply(s, Exit(senior)), Exit(junior)).dones.torn
  {
    assert Apply(s, Exit(senior)).dones.ended == s.dones.ended + {s.dones.held[senior]};
  }

  lemma TwoSteps(s: System, a: Step, b: Step)
    ensures Run(s, [a, b]) == Apply(Apply(s, a), b)
  {
    hide Apply;
    RunThenStep(s, [], a);
    RunThenStep(s, [a], b);
    assert [] + [a] == [a] && [a] + [b] == [a, b];
  }

  /** Both runners look at `b.done` after the second start, and both close what they find. */
  lemma BothCloseTheSame(s: System, senior: nat)
    requires senior < s.launched && CanStart(s) && InPhase(s.runners, senior, Born)
    ensures exists steps :: NoStart(steps) && Run(Apply(s, Start), steps).dones.torn
  {
    var junior := s.launched;
    var a := Apply(s, Start);
    assert a.launched == junior + 1 && InPhase(a.runners, senior, Born) && InPhase(a.runners, junior, Born);
    var captures, dooms := [Capture(senior), Capture(junior)], [Doom(senior), Doom(junior)];
    var exits := [Exit(senior), Exit(junior)];
    var b := Run(a, captures);
    TwoSteps(a, Capture(senior), Capture(junior));
    BothCapture(a, senior, junior);
    var c := Run(b, dooms);
    TwoSteps(b, Doom(senior), Doom(junior));
    BothDoomed(b, senior, junior);
    assert Run(c, exits).dones.torn by {
      TwoSteps(c, Exit(senior), Exit(junior));
      BothExit(c, senior, junior);
    }
    RunAppend(a, captures + dooms, exits);
    RunAppend(a, captures, dooms);
    assert NoStart(captures + dooms + exits) && Run(a, captures + dooms + exits).dones.torn;
  }

  lemma {:induction false} RunAppend(s: System, a: seq<Step>, b: seq<Step>)
    ensures Run(s, a + b) == Run(Run(s, a), b)
  {
    hide Apply;
    if b == [] {
      assert a + b == a;
    } else {
      var n := |b| - 1;
      assert (a + b)[..|a + b| - 1] == a + b[..n];
      RunAppend(s, a, b[..n]);
    }
  }

  /**
   * After a careful run, a start is safe exactly when no runner launched earlier is still to
   * begin: otherwise both may close the same channel, whatever else happens.
   */
  lemma StartIsSafeIffNobodyBorn(capacity: nat, steps: seq<Step>)
    requires Careful(capacity, steps) && CanStart(Run(Fresh(capacity), steps))
    ensures var s := Run(Fresh(capacity), steps);
      (forall rest :: NoStart(rest) ==> !Run(Apply(s, Start), rest).dones.torn)
      <==> NobodyBorn(s)
  {
    hide Apply;
    var s := Run(Fresh(capacity), steps);
    CarefulRunsCloseOnce(capacity, steps);
    if NobodyBorn(s) {
      StepKeepsDone(s, Start);
      forall rest | NoStart(rest) ensures !Run(Apply(s, Start), rest).dones.torn {
        NoStartKeepsDone(Apply(s, Start), rest);
      }
    } else {
      var senior :| senior in s.runners && s.runners[senior].Born?;
      assert OwnDone(s, senior);
      BothCloseTheSame(s, senior);
    }
  }

  /** What a caller can see: nothing was started before, or the newest runner has closed its channel. */
  ghost predicate PreviousIsOver(s: System) {
    s.launched == 0 || s.launched - 1 in s.dones.ended
  }

  /** A start after a `Stop` that returned without an error never closes a channel twice. */
  lemma {:induction false} RestartAfterStopIsCareful(capacity: nat, steps: seq<Step>)
    requires forall i :: 0 <= i < |steps| && steps[i].Start? && CanStart(Run(Fresh(capacity), steps[..i])) ==>
      PreviousIsOver(Run(Fresh(capacity), steps[..i]))
    ensures Careful(capacity, steps) && !Run(Fresh(capacity), steps).dones.torn
  {
    hide Apply;
    if steps == [] {
    } else {
      var n := |steps| - 1;
      var front := steps[..n];
      assert forall i :: 0 <= i < n ==> front[..i] == steps[..i];
      RestartAfterStopIsCareful(capacity, front);
      CarefulRunsCloseOnce(capacity, front);
      var s := Run(Fresh(capacity), front);
      if PreviousIsOver(s) {
        forall r | r in s.runners ensures !s.runners[r].Born? {
          assert OwnDone(s, r);
        }
      }
      forall i | 0 <= i < |steps| && steps[i].Start? && CanStart(Run(Fresh(capacity), steps[..i]))
        ensures NobodyBorn(Run(Fresh(capacity), steps[..i]))
      {
        if i < n { assert front[i] == steps[i]; } else { assert steps[..i] == front; }
      }
    }
    CarefulRunsCloseOnce(capacity, steps);
  }
}
