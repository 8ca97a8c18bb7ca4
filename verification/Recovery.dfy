/** The recovery automaton of one configured service: the failure streak, the cooldown and
    the hourly restart budget, with the history file that carries them over a crash. */
module Recovery {
  import opened Wrappers

  const HOUR: real := 3600.0
  const POLL_SECONDS: real := 10.0
  const ATTEMPT_LIMIT: nat := 100

  /** The loader bounds the budget by one hundred and the threshold from below by one. */
  datatype Config = Config(threshold: nat, cooldown: real, maxPerHour: nat)
  {
    predicate Loaded() {
      threshold >= 1 && cooldown >= 0.0 && 1 <= maxPerHour <= ATTEMPT_LIMIT
    }
  }

  /** The definition, pid, create time and start time a streak is bound to. */
  datatype Identity = Identity(definition: nat, pid: nat, createTime: real, startedAt: real)

  datatype Streak = Streak(identity: Identity, count: nat)

  datatype Entry = Entry(attempts: seq<real>, last: Option<real>)

  datatype Probe = Unhealthy | NotUnhealthy | Raises

  /** Everything one poll reads from outside for the service. The clock is read at the poll
      gate, once per stored attempt while filtering and three times more. */
  datatype Poll = Poll(
    gateRead: real,
    busy: bool, eligible: bool, identityKnown: bool, identity: Identity, firstProbe: Probe,
    guardRaises: bool, identityKept: bool, secondProbe: Probe, identityStill: bool,
    filterReads: seq<real>, checkRead: real, appendRead: real, lastRead: real, persisted: bool)

  /** What the operations layer has seen of the service, oldest first. */
  datatype Seen = SeenUnhealthy(identity: Identity) | Cleared

  /** A restart handed to PM2, with the recorded attempt time and the number of
      observations made so far. */
  datatype Restart = Restart(at: real, identity: Identity, observed: nat)

  /** `lastPoll` is when the poll gate last opened in this life of the supervisor, `begun`
      when it opened for the first poll of the current streak. */
  datatype State = State(memory: Entry, file: Option<Entry>, failures: Option<Streak>, lastPoll: Option<real>,
                         now: real, begun: real, restarts: seq<Restart>, seen: seq<Seen>)

  /** `[t for t in attempts if t > clock() - 3600]`. */
  function Recent(attempts: seq<real>, clocks: seq<real>): (r: seq<real>)
    requires |clocks| == |attempts|
    ensures |r| <= |attempts|
  {
    if attempts == [] then []
    else
      var n := |attempts| - 1;
      Recent(attempts[..n], clocks[..n]) + if attempts[n] > clocks[n] - HOUR then [attempts[n]] else []
  }

  function LastHundred(attempts: seq<real>): (r: seq<real>)
    ensures |r| <= ATTEMPT_LIMIT
    ensures |attempts| <= ATTEMPT_LIMIT ==> r == attempts
  {
    if |attempts| > ATTEMPT_LIMIT then attempts[|attempts| - ATTEMPT_LIMIT..] else attempts
  }

  function Clear(s: State): State {
    s.(failures := None, seen := s.seen + [Cleared])
  }

  function NextCount(s: State, identity: Identity): nat {
    if s.failures.Some? && s.failures.value.identity == identity then s.failures.value.count + 1 else 1
  }

  predicate Allowed(cfg: Config, recent: seq<real>, last: Option<real>, checkRead: real) {
    |recent| < cfg.maxPerHour && (last.Some? ==> checkRead - last.value >= cfg.cooldown)
  }

  /** The budget check and the durable record; a budget that cannot be recorded issues no
      restart. */
  function RequestStep(s: State, cfg: Config, p: Poll): State
    requires |p.filterReads| == |s.memory.attempts|
  {
    var recent := Recent(s.memory.attempts, p.filterReads);
    if !Allowed(cfg, recent, s.memory.last, p.checkRead) then s
    else
      var entry := Entry(LastHundred(recent + [p.appendRead]), Some(p.lastRead));
      var t := s.(memory := entry);
      if !p.persisted then Clear(t)
      else Clear(t.(file := Some(entry), restarts := t.restarts + [Restart(p.appendRead, p.identity, |s.seen|)]))
  }

  function RecoverStep(s: State, cfg: Config, p: Poll): State
    requires |p.filterReads| == |s.memory.attempts|
  {
    if p.busy || !p.eligible || !p.identityKnown || !p.firstProbe.Unhealthy? then Clear(s)
    else
      var count := NextCount(s, p.identity);
      var t := s.(failures := Some(Streak(p.identity, count)), seen := s.seen + [SeenUnhealthy(p.identity)],
                  begun := if count == 1 then p.gateRead else s.begun);
      if count < cfg.threshold then t
      else if p.guardRaises || !p.identityKept || !p.secondProbe.Unhealthy? || !p.identityStill then Clear(t)
      else RequestStep(t, cfg, p)
  }

  /** `_load`: an absent file is an empty history. */
  function Load(file: Option<Entry>, clocks: seq<real>): Entry
    requires file.Some? ==> |clocks| == |LastHundred(file.value.attempts)|
  {
    match file
    case None => Entry([], None)
    case Some(e) => Entry(Recent(LastHundred(e.attempts), clocks), e.last)
  }

  datatype Step =
    | PollService(poll: Poll, end: real)
    | RecordAction(end: real)
    | Persist(end: real)
    | Reload(clocks: seq<real>, readable: bool, end: real)

  predicate Within(lo: real, clocks: seq<real>, hi: real) {
    lo <= hi && forall i :: 0 <= i < |clocks| ==> lo <= clocks[i] <= hi
  }

  /** The poll gate: ten seconds since it last opened. */
  predicate GateOpens(lastPoll: Option<real>, gateRead: real) {
    lastPoll.Some? ==> gateRead - lastPoll.value >= POLL_SECONDS
  }

  function PollStep(s: State, cfg: Config, p: Poll): State
    requires |p.filterReads| == |s.memory.attempts|
  {
    if GateOpens(s.lastPoll, p.gateRead) then RecoverStep(s.(lastPoll := Some(p.gateRead)), cfg, p) else s
  }

  /** The clock never goes back, and the one of the gate advances with the one of the
      history. */
  predicate Enabled(s: State, step: Step) {
    match step
    case PollService(p, end) =>
      |p.filterReads| == |s.memory.attempts| && GateOpens(s.lastPoll, p.gateRead) &&
      s.now <= p.gateRead && Within(p.gateRead, p.filterReads, p.checkRead) &&
      p.checkRead <= p.appendRead <= p.lastRead <= end
    case RecordAction(end) => s.now <= end
    case Persist(end) => s.now <= end
    case Reload(clocks, _, end) =>
      Within(s.now, clocks, end) && (s.file.Some? ==> |clocks| == |LastHundred(s.file.value.attempts)|)
  }

  function Next(s: State, cfg: Config, step: Step): State
    requires Enabled(s, step)
  {
    match step
    case PollService(p, end) => PollStep(s, cfg, p).(now := end)
    case RecordAction(end) => Clear(s).(now := end)
    case Persist(end) => s.(file := Some(s.memory), now := end)
    case Reload(clocks, readable, end) =>
      Clear(s).(memory := if readable then Load(s.file, clocks) else Entry([], None), lastPoll := None, now := end)
  }

  /** The fields `_recover` updates in place for one service. */
  class Recoverer {
    const cfg: Config
    var attempts: seq<real>
    var lastAttempt: Option<real>
    var file: Option<Entry>
    var failures: Option<Streak>
    var lastPoll: Option<real>
    ghost var now: real
    ghost var begun: real
    ghost var restarts: seq<Restart>
    ghost var seen: seq<Seen>

    ghost function Abstract(): State
      reads this
    {
      State(Entry(attempts, lastAttempt), file, failures, lastPoll, now, begun, restarts, seen)
    }

    constructor (cfg: Config, file: Option<Entry>, clocks: seq<real>, now: real)
      requires file.Some? ==> |clocks| == |LastHundred(file.value.attempts)|
      ensures this.cfg == cfg
      ensures Abstract() == State(Load(file, clocks), file, None, None, now, now, [], [])
    {
      this.cfg, this.file, this.now, this.begun := cfg, file, now, now;
      failures, lastPoll, restarts, seen := None, None, [], [];
      var entry := Load(file, clocks);
      attempts, lastAttempt := entry.attempts, entry.last;
    }

    method Forget()
      modifies this`failures, this`seen
      ensures Abstract() == Clear(old(Abstract()))
    {
      failures := None;
      seen := seen + [Cleared];
    }

    method RecentAttempts(clocks: seq<real>) returns (recent: seq<real>)
      requires |clocks| == |attempts|
      ensures recent == Recent(attempts, clocks)
    {
      recent := [];
      for i := 0 to |attempts|
        invariant recent == Recent(attempts[..i], clocks[..i])
      {
        assert attempts[..i + 1][..i] == attempts[..i] && clocks[..i + 1][..i] == clocks[..i];
        if attempts[i] > clocks[i] - HOUR {
          recent := recent + [attempts[i]];
        }
      }
      assert attempts[..|attempts|] == attempts && clocks[..|attempts|] == clocks;
    }

    /** `_recover`; the error path of `poll_once` that clears the streak is included. */
    method Recover(p: Poll) returns (restarted: bool)
      requires |p.filterReads| == |attempts|
      modifies this
      ensures Abstract() == RecoverStep(old(Abstract()), cfg, p)
      ensures restarted <==> |restarts| > |old(restarts)|
    {
      restarted := false;
      if p.busy || !p.eligible || !p.identityKnown || p.firstProbe != Unhealthy {
        Forget();
        return;
      }
      var count := 0;
      if failures.Some? && failures.value.identity == p.identity {
        count := failures.value.count;
      }
      count := count + 1;
      failures := Some(Streak(p.identity, count));
      begun := if count == 1 then p.gateRead else begun;
      seen := seen + [SeenUnhealthy(p.identity)];
      if count < cfg.threshold {
        return;
      }
      if p.guardRaises || !p.identityKept || p.secondProbe != Unhealthy || !p.identityStill {
        Forget();
        return;
      }
      restarted := RequestRestart(p);
    }

    /** The locked end of `_recover`, with the restart handed to PM2. */
    method RequestRestart(p: Poll) returns (restarted: bool)
      requires |p.filterReads| == |attempts|
      modifies this
      ensures Abstract() == RequestStep(old(Abstract()), cfg, p)
      ensures restarted <==> |restarts| > |old(restarts)|
    {
      restarted := false;
      var recent := RecentAttempts(p.filterReads);
      if |recent| >= cfg.maxPerHour || (lastAttempt.Some? && p.checkRead - lastAttempt.value < cfg.cooldown) {
        return;
      }
      attempts := LastHundred(recent + [p.appendRead]);
      lastAttempt := Some(p.lastRead);
      if p.persisted {
        file := Some(Entry(attempts, lastAttempt));
        restarts := restarts + [Restart(p.appendRead, p.identity, |seen|)];
        restarted := true;
      }
      Forget();
    }

    /** `poll_once` as far as this service is concerned; a poll before its time returns at
        once. */
    method PollOnce(p: Poll) returns (restarted: bool)
      requires |p.filterReads| == |attempts|
      modifies this
      ensures Abstract() == PollStep(old(Abstract()), cfg, p)
      ensures if old(lastPoll).Some? && p.gateRead - old(lastPoll).value < 10.0
              then Abstract() == old(Abstract()) && !restarted
              else lastPoll == Some(p.gateRead)
    {
      if lastPoll.Some? && p.gateRead - lastPoll.value < POLL_SECONDS {
        return false;
      }
      lastPoll := Some(p.gateRead);
      restarted := Recover(p);
    }
  }
}
