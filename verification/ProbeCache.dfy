/** The single-flight probe cache: any number of threads probe any keys through a cache
    with a time to live; per key one thread probes and the others wait on its event. */
module ProbeCache {
  type Key = nat
  type Thread = nat
  type EventId = nat

  datatype Cached = Cached(at: real, result: nat)

  /** Where a thread stands in `_probe_health`. The clock is read before the lock. */
  datatype Place =
    | Looping(key: Key)
    | Clocked(key: Key, now: real)
    | Waiting(key: Key, event: EventId)
    | Probing(key: Key, event: EventId)

  datatype Record =
    | Completed(key: Key, result: nat, at: real)
    | HandedOut(key: Key, result: nat, readAt: real, storedAt: real)

  datatype State = State(
    cache: map<Key, Cached>, inflight: map<Key, EventId>, isSet: set<EventId>, nextEvent: EventId,
    threads: map<Thread, Place>, clock: real, log: seq<Record>)

  datatype Step =
    | Call(t: Thread, key: Key)
    | ReadClock(t: Thread, at: real)
    | Enter(t: Thread)
    | Wake(t: Thread)
    | Complete(t: Thread, result: nat, at: real)
    | Fail(t: Thread)

  const EMPTY: State := State(map[], map[], {}, 0, map[], 0.0, [])

  predicate At(s: State, t: Thread, p: Place) {
    t in s.threads && s.threads[t] == p
  }

  predicate Fresh(s: State, key: Key, now: real, ttl: real) {
    key in s.cache && now - s.cache[key].at < ttl
  }

  predicate Enabled(s: State, step: Step) {
    match step
    case Call(t, _) => t !in s.threads
    case ReadClock(t, at) => t in s.threads && s.threads[t].Looping? && s.clock <= at
    case Enter(t) => t in s.threads && s.threads[t].Clocked?
    case Wake(t) => t in s.threads && s.threads[t].Waiting? && s.threads[t].event in s.isSet
    case Complete(t, _, at) => t in s.threads && s.threads[t].Probing? && s.clock <= at
    case Fail(t) => t in s.threads && s.threads[t].Probing?
  }

  function Next(s: State, ttl: real, step: Step): State
    requires Enabled(s, step)
  {
    match step
    case Call(t, key) => s.(threads := s.threads[t := Looping(key)])
    case ReadClock(t, at) => s.(threads := s.threads[t := Clocked(s.threads[t].key, at)], clock := at)
    case Enter(t) =>
      var key, now := s.threads[t].key, s.threads[t].now;
      if Fresh(s, key, now, ttl) then
        s.(threads := s.threads - {t}, log := s.log + [HandedOut(key, s.cache[key].result, now, s.cache[key].at)])
      else if key in s.inflight then
        s.(threads := s.threads[t := Waiting(key, s.inflight[key])])
      else
        s.(threads := s.threads[t := Probing(key, s.nextEvent)], inflight := s.inflight[key := s.nextEvent],
           nextEvent := s.nextEvent + 1)
    case Wake(t) => s.(threads := s.threads[t := Looping(s.threads[t].key)])
    case Complete(t, result, at) =>
      var key, event := s.threads[t].key, s.threads[t].event;
      s.(cache := s.cache[key := Cached(at, result)], inflight := s.inflight - {key}, isSet := s.isSet + {event},
         threads := s.threads - {t}, clock := at, log := s.log + [Completed(key, result, at)])
    case Fail(t) =>
      var key, event := s.threads[t].key, s.threads[t].event;
      s.(inflight := s.inflight - {key}, isSet := s.isSet + {event}, threads := s.threads - {t})
  }

  datatype Decision = Hit(result: nat) | WaitOn(event: EventId) | Probe(event: EventId)

  /** The fields behind the probe lock; every method is one critical section. */
  class HealthChecker {
    const ttl: real
    var probeCache: map<Key, Cached>
    var probeInflight: map<Key, EventId>
    var eventsSet: set<EventId>
    var nextEvent: EventId
    ghost var threads: map<Thread, Place>
    ghost var clock: real
    ghost var log: seq<Record>

    ghost function Abstract(): State
      reads this
    {
      State(probeCache, probeInflight, eventsSet, nextEvent, threads, clock, log)
    }

    constructor (ttl: real)
      ensures this.ttl == ttl && Abstract() == EMPTY
    {
      this.ttl := ttl;
      probeCache, probeInflight, eventsSet, nextEvent := map[], map[], {}, 0;
      threads, clock, log := map[], 0.0, [];
    }

    method EnterLock(ghost t: Thread, key: Key, now: real) returns (d: Decision)
      requires At(Abstract(), t, Clocked(key, now))
      modifies this
      ensures Abstract() == Next(old(Abstract()), ttl, Enter(t))
      ensures d.Hit? <==> t !in threads
      ensures d.Hit? <==> key in old(probeCache) && now - old(probeCache)[key].at < ttl
      ensures d.Hit? ==> d.result == old(probeCache)[key].result && probeInflight == old(probeInflight)
      ensures d.WaitOn? ==> key in old(probeInflight) && d.event == old(probeInflight)[key] && probeInflight == old(probeInflight)
      ensures d.Probe? ==> key !in old(probeInflight) && probeInflight == old(probeInflight)[key := d.event]
      ensures probeCache == old(probeCache) && eventsSet == old(eventsSet)
      ensures d.WaitOn? ==> At(Abstract(), t, Waiting(key, d.event))
      ensures d.Probe? ==> At(Abstract(), t, Probing(key, d.event))
    {
      if key in probeCache && now - probeCache[key].at < ttl {
        log := log + [HandedOut(key, probeCache[key].result, now, probeCache[key].at)];
        threads := threads - {t};
        return Hit(probeCache[key].result);
      }
      if key in probeInflight {
        threads := threads[t := Waiting(key, probeInflight[key])];
        return WaitOn(probeInflight[key]);
      }
      var event := nextEvent;
      nextEvent := nextEvent + 1;
      probeInflight := probeInflight[key := event];
      threads := threads[t := Probing(key, event)];
      return Probe(event);
    }

    method CompleteProbe(ghost t: Thread, key: Key, event: EventId, result: nat, at: real)
      requires At(Abstract(), t, Probing(key, event)) && clock <= at
      modifies this
      ensures Abstract() == Next(old(Abstract()), ttl, Complete(t, result, at))
      ensures probeCache == old(probeCache)[key := Cached(at, result)]
      ensures probeInflight == old(probeInflight) - {key} && eventsSet == old(eventsSet) + {event}
    {
      probeCache := probeCache[key := Cached(at, result)];
      probeInflight := probeInflight - {key};
      eventsSet := eventsSet + {event};
      threads, clock, log := threads - {t}, at, log + [Completed(key, result, at)];
    }

    method FailProbe(ghost t: Thread, key: Key, event: EventId)
      requires At(Abstract(), t, Probing(key, event))
      modifies this
      ensures Abstract() == Next(old(Abstract()), ttl, Fail(t))
      ensures probeCache == old(probeCache)
      ensures probeInflight == old(probeInflight) - {key} && eventsSet == old(eventsSet) + {event}
    {
      probeInflight := probeInflight - {key};
      eventsSet := eventsSet + {event};
      threads := threads - {t};
    }
  }

  // ------------------------------------------------------------------ what every step keeps

  /** Registered events are unset, belong to one key each, and their owner is probing. */
  ghost predicate FlightInv(s: State) {
    EventsInv(s) && forall k :: k in s.inflight ==> Owned(s, k)
  }

  ghost predicate EventsInv(s: State) {
    && (forall k :: k in s.inflight ==> s.inflight[k] !in s.isSet && s.inflight[k] < s.nextEvent)
    && (forall e :: e in s.isSet ==> e < s.nextEvent)
    && (forall k, l :: k in s.inflight && l in s.inflight && s.inflight[k] == s.inflight[l] ==> k == l)
  }

  ghost predicate Owned(s: State, key: Key)
    requires key in s.inflight
  {
    exists t :: At(s, t, Probing(key, s.inflight[key]))
  }

  /** Who probes is registered and alone; who waits has its event set or registered. */
  ghost predicate ThreadInv(s: State) {
    ProbersInv(s) && WaitersInv(s)
  }

  ghost predicate ProbersInv(s: State) {
    && (forall t :: t in s.threads && s.threads[t].Probing? ==>
          s.threads[t].key in s.inflight && s.inflight[s.threads[t].key] == s.threads[t].event)
    && (forall t, u | t in s.threads && u in s.threads && s.threads[t].Probing? && s.threads[u].Probing? ::
          s.threads[t].key == s.threads[u].key ==> t == u)
  }

  ghost predicate WaitersInv(s: State) {
    forall t :: t in s.threads && s.threads[t].Waiting? ==>
      s.threads[t].event in s.isSet ||
      (s.threads[t].key in s.inflight && s.inflight[s.threads[t].key] == s.threads[t].event)
  }

  /** Cached values come from a completed probe of their key, and so do those handed out,
      younger than the time to live by the clock reading of the thread. */
  ghost predicate CacheInv(s: State, ttl: real) {
    && (forall k :: k in s.cache ==> Completed(k, s.cache[k].result, s.cache[k].at) in s.log)
    && (forall r :: r in s.log && r.HandedOut? ==>
          r.readAt - r.storedAt < ttl && Completed(r.key, r.result, r.storedAt) in s.log)
  }

  ghost predicate Inv(s: State, ttl: real) {
    FlightInv(s) && ThreadInv(s) && CacheInv(s, ttl)
  }

  lemma NextKeepsThreads(s: State, ttl: real, step: Step)
    requires EventsInv(s) && ThreadInv(s) && Enabled(s, step)
    ensures ThreadInv(Next(s, ttl, step))
  {
    NextKeepsProbers(s, ttl, step);
    NextKeepsWaiters(s, ttl, step);
    hide *;
    assert ThreadInv(Next(s, ttl, step)) by { MakeThreadInv(Next(s, ttl, step)); }
  }

  lemma MakeThreadInv(s: State)
    requires ProbersInv(s) && WaitersInv(s)
    ensures ThreadInv(s)
  {
  }

  lemma NextKeepsProbers(s: State, ttl: real, step: Step)
    requires ProbersInv(s) && Enabled(s, step)
    ensures ProbersInv(Next(s, ttl, step))
  {
  }

  lemma NextKeepsWaiters(s: State, ttl: real, step: Step)
    requires ProbersInv(s) && WaitersInv(s) && Enabled(s, step)
    ensures WaitersInv(Next(s, ttl, step))
  {
  }

  lemma OwnerStays(s: State, ttl: real, step: Step, k: Key, t: Thread)
    requires ProbersInv(s) && Enabled(s, step) && k in s.inflight && k in Next(s, ttl, step).inflight
    requires At(s, t, Probing(k, s.inflight[k]))
    ensures At(Next(s, ttl, step), t, Probing(k, Next(s, ttl, step).inflight[k]))
  {
  }

  lemma NextKeepsOwners(s: State, ttl: real, step: Step, k: Key)
    requires FlightInv(s) && ThreadInv(s) && Enabled(s, step) && k in Next(s, ttl, step).inflight
    ensures Owned(Next(s, ttl, step), k)
  {
    var u := Next(s, ttl, step);
    if k in s.inflight {
      var t :| At(s, t, Probing(k, s.inflight[k]));
      OwnerStays(s, ttl, step, k, t);
    } else {
      assert At(u, step.t, Probing(k, u.inflight[k]));
    }
  }

  lemma NextKeepsFlight(s: State, ttl: real, step: Step)
    requires FlightInv(s) && ThreadInv(s) && Enabled(s, step)
    ensures FlightInv(Next(s, ttl, step))
  {
    NextKeepsEvents(s, ttl, step);
    hide EventsInv, ThreadInv, Owned, FlightInv;
    assert FlightInv(Next(s, ttl, step)) by {
      OwnersMakeFlight(s, ttl, step);
    }
  }

  lemma NextKeepsEvents(s: State, ttl: real, step: Step)
    requires EventsInv(s) && ThreadInv(s) && Enabled(s, step)
    ensures EventsInv(Next(s, ttl, step))
  {
  }

  lemma OwnersMakeFlight(s: State, ttl: real, step: Step)
    requires FlightInv(s) && ThreadInv(s) && Enabled(s, step) && EventsInv(Next(s, ttl, step))
    ensures FlightInv(Next(s, ttl, step))
  {
    hide EventsInv, ThreadInv, Owned;
    forall k | k in Next(s, ttl, step).inflight ensures Owned(Next(s, ttl, step), k) {
      NextKeepsOwners(s, ttl, step, k);
    }
  }

  lemma NextKeepsCache(s: State, ttl: real, step: Step)
    requires CacheInv(s, ttl) && Enabled(s, step)
    ensures CacheInv(Next(s, ttl, step), ttl)
  {
    var u := Next(s, ttl, step);
    assert forall r :: r in s.log ==> r in u.log;
    if step.Complete? {
      assert u.log[|s.log|] == Completed(s.threads[step.t].key, step.result, step.at);
    }
  }

  // ------------------------------------------------------------------ every run

  ghost predicate IsRun(ttl: real, states: seq<State>, steps: seq<Step>) {
    && |states| == |steps| + 1
    && states[0] == EMPTY
    && (forall i :: 0 <= i < |steps| ==> Enabled(states[i], steps[i]) && states[i + 1] == Next(states[i], ttl, steps[i]))
  }

  lemma {:induction false} RunKeepsInv(ttl: real, states: seq<State>, steps: seq<Step>, k: nat)
    requires IsRun(ttl, states, steps) && k <= |steps|
    ensures Inv(states[k], ttl)
  {
    if k > 0 {
      RunKeepsInv(ttl, states, steps, k - 1);
      var s, step := states[k - 1], steps[k - 1];
      hide FlightInv, ThreadInv, CacheInv;
      NextKeepsThreads(s, ttl, step);
      NextKeepsFlight(s, ttl, step);
      NextKeepsCache(s, ttl, step);
    }
  }

  /** No two threads ever probe the same key at the same time. */
  lemma OneProbePerKey(ttl: real, states: seq<State>, steps: seq<Step>, k: nat, t: Thread, u: Thread, key: Key, e: EventId, f: EventId)
    requires IsRun(ttl, states, steps) && k <= |steps|
    requires At(states[k], t, Probing(key, e)) && At(states[k], u, Probing(key, f))
    ensures t == u && e == f
  {
    RunKeepsInv(ttl, states, steps, k);
  }

  /** Whichever way the owner ends its probe, the waiter can go on. */
  ghost predicate Frees(s: State, ttl: real, owner: Thread, w: Thread)
    requires owner in s.threads && s.threads[owner].Probing?
  {
    && Enabled(Next(s, ttl, Fail(owner)), Wake(w))
    && (forall result, at :: s.clock <= at ==> Enabled(Next(s, ttl, Complete(owner, result, at)), Wake(w)))
  }

  /** A thread that waits on an unset event waits for a thread that is still probing, and
      both ends of that probe set the event: no wake-up is lost and nobody is stuck. */
  lemma WaitersAreServed(ttl: real, states: seq<State>, steps: seq<Step>, k: nat, w: Thread, key: Key, e: EventId)
    requires IsRun(ttl, states, steps) && k <= |steps|
    requires At(states[k], w, Waiting(key, e)) && e !in states[k].isSet
    ensures exists owner :: At(states[k], owner, Probing(key, e)) && Frees(states[k], ttl, owner, w)
  {
    RunKeepsInv(ttl, states, steps, k);
    assert Owned(states[k], key);
    var owner :| At(states[k], owner, Probing(key, e));
  }

  /** What a thread under the lock gets: the cached result exactly if it is younger than the
      time to live, otherwise the event of whoever probes, otherwise the probe itself. */
  lemma FreshResultsAreUsed(s: State, ttl: real, t: Thread, key: Key, now: real)
    requires At(s, t, Clocked(key, now))
    ensures var u := Next(s, ttl, Enter(t));
      if key in s.cache && now - s.cache[key].at < ttl
      then t !in u.threads && u.log == s.log + [HandedOut(key, s.cache[key].result, now, s.cache[key].at)]
      else u.log == s.log && t in u.threads &&
           if key in s.inflight then u.threads[t] == Waiting(key, s.inflight[key])
           else u.threads[t] == Probing(key, s.nextEvent) && u.inflight == s.inflight[key := s.nextEvent]
  {
  }

  /** A cached result was produced by a probe of its key and is younger than the time to
      live at the moment the receiving thread read the clock. */
  lemma HandedOutAreFresh(ttl: real, states: seq<State>, steps: seq<Step>, k: nat, r: Record)
    requires IsRun(ttl, states, steps) && k <= |steps|
    requires r in states[k].log && r.HandedOut?
    ensures r.readAt - r.storedAt < ttl
    ensures Completed(r.key, r.result, r.storedAt) in states[k].log
  {
    RunKeepsInv(ttl, states, steps, k);
  }
}
