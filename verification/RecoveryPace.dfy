/** How fast the recovery automaton can restart: every restart needs a whole streak of polls,
    and the poll gate keeps the polls of one life of the supervisor apart. */
module RecoveryPace {
  import opened Wrappers
  import opened Recovery

  function Times(restarts: seq<Restart>): (t: seq<real>)
    ensures |t| == |restarts|
    ensures forall i :: 0 <= i < |t| ==> t[i] == restarts[i].at
  {
    if restarts == [] then []
    else Times(restarts[..|restarts| - 1]) + [restarts[|restarts| - 1].at]
  }

  lemma TimesOfAppend(restarts: seq<Restart>, r: Restart)
    ensures Times(restarts + [r]) == Times(restarts) + [r.at]
  {
    assert (restarts + [r])[..|restarts|] == restarts;
  }

  ghost predicate Sorted(times: seq<real>, hi: real) {
    && (forall i, j :: 0 <= i < j < |times| ==> times[i] <= times[j])
    && (forall i :: 0 <= i < |times| ==> times[i] <= hi)
  }

  ghost predicate SpacedBy(times: seq<real>, gap: real) {
    forall i, j :: 0 <= i < j < |times| ==> times[j] - times[i] >= gap
  }

  // ------------------------------------------------------------------ ticks

  /** The time `n` steps after `start`. */
  function Tick(start: real, step: real, n: nat): real {
    if n == 0 then start else Tick(start, step, n - 1) + step
  }

  lemma {:induction false} TickRises(start: real, step: real, j: nat, n: nat)
    requires step >= 0.0 && j <= n
    ensures Tick(start, step, j) <= Tick(start, step, n)
  {
    if j < n {
      TickRises(start, step, j, n - 1);
    }
  }

  lemma {:induction false} TickShift(start: real, step: real, n: nat)
    ensures Tick(start, step, n) == start + Tick(0.0, step, n)
  {
    if n > 0 {
      TickShift(start, step, n - 1);
    }
  }

  // ------------------------------------------------------------------ the pace

  /** How long the polls of a full streak take. */
  function Pace(cfg: Config): (pace: real)
    ensures pace >= 0.0
  {
    if cfg.threshold == 0 then 0.0
    else
      TickRises(0.0, POLL_SECONDS, 0, cfg.threshold - 1);
      Tick(0.0, POLL_SECONDS, cfg.threshold - 1)
  }

  /** The least time between two restarts. */
  function Gap(cfg: Config): (gap: real)
    ensures gap >= cfg.cooldown && gap >= Pace(cfg) && (gap == cfg.cooldown || gap == Pace(cfg))
  {
    if cfg.cooldown < Pace(cfg) then Pace(cfg) else cfg.cooldown
  }

  /** Nothing the current streak counts was seen before this time. */
  function Since(s: State): real {
    if s.failures.Some? then s.begun else s.now
  }

  /** The gate has opened once for every poll the streak counts. */
  ghost predicate StreakPaced(s: State) {
    s.failures.Some? ==>
      && s.failures.value.count >= 1 && s.lastPoll.Some?
      && s.lastPoll.value >= Tick(s.begun, POLL_SECONDS, s.failures.value.count - 1)
  }

  ghost predicate PaceInv(s: State, cfg: Config) {
    && Since(s) <= s.now
    && Sorted(Times(s.restarts), Since(s))
    && SpacedBy(Times(s.restarts), Pace(cfg))
    && StreakPaced(s)
  }

  /** The pass counts a full streak. */
  predicate StreakFull(s: State, cfg: Config, p: Poll) {
    NextCount(s, p.identity) >= cfg.threshold
  }

  lemma StreakTakesPace(s: State, cfg: Config, p: Poll)
    requires StreakPaced(s) && Since(s) <= s.now <= p.gateRead && GateOpens(s.lastPoll, p.gateRead)
    requires StreakFull(s, cfg, p)
    ensures p.gateRead >= Since(s) + Pace(cfg)
  {
    var count := NextCount(s, p.identity);
    if count > 1 {
      assert p.gateRead >= Tick(s.begun, POLL_SECONDS, count - 1);
      TickRises(s.begun, POLL_SECONDS, if cfg.threshold == 0 then 0 else cfg.threshold - 1, count - 1);
      TickShift(s.begun, POLL_SECONDS, if cfg.threshold == 0 then 0 else cfg.threshold - 1);
    }
  }

  lemma ReadsAreOrdered(s: State, p: Poll, end: real)
    requires Enabled(s, PollService(p, end))
    ensures s.now <= p.gateRead <= p.checkRead <= p.appendRead <= p.lastRead <= end
    ensures |p.filterReads| == |s.memory.attempts| && GateOpens(s.lastPoll, p.gateRead)
    ensures Within(p.gateRead, p.filterReads, p.checkRead) && Within(s.now, p.filterReads, p.checkRead)
  {
  }

  lemma OnlyFullStreaksRestart(s: State, cfg: Config, p: Poll)
    requires |p.filterReads| == |s.memory.attempts| && PollStep(s, cfg, p).restarts != s.restarts
    ensures StreakFull(s, cfg, p) && PollStep(s, cfg, p).failures == None
    ensures PollStep(s, cfg, p).restarts == s.restarts + [Restart(p.appendRead, p.identity, |s.seen| + 1)]
  {
    hide Recent, LastHundred;
  }

  lemma SpacedAppend(times: seq<real>, gap: real, since: real, t: real)
    requires Sorted(times, since) && SpacedBy(times, gap) && t >= since + gap && gap >= 0.0
    ensures SpacedBy(times + [t], gap) && Sorted(times + [t], t)
  {
  }

  lemma StreakStaysPaced(s: State, cfg: Config, p: Poll)
    requires StreakPaced(s) && Since(s) <= s.now <= p.gateRead && GateOpens(s.lastPoll, p.gateRead)
    requires |p.filterReads| == |s.memory.attempts|
    ensures StreakPaced(PollStep(s, cfg, p))
    ensures var t := PollStep(s, cfg, p); t.failures.Some? ==> Since(s) <= t.begun <= p.gateRead
  {
    var count := NextCount(s, p.identity);
    if count > 1 {
      assert p.gateRead >= Tick(s.begun, POLL_SECONDS, count - 1);
      TickRises(s.begun, POLL_SECONDS, 0, count - 1);
    }
    hide Recent, LastHundred, Allowed;
  }

  lemma SamePace(s: State, t: State, cfg: Config)
    requires PaceInv(s, cfg) && t.restarts == s.restarts && StreakPaced(t) && Since(s) <= Since(t) <= t.now
    ensures PaceInv(t, cfg)
  {
    hide Times, Tick, Pace, StreakPaced, Since;
  }

  lemma RestartPace(s: State, t: State, cfg: Config, at: real)
    requires PaceInv(s, cfg) && Times(t.restarts) == Times(s.restarts) + [at] && t.failures == None
    requires Since(s) + Pace(cfg) <= at <= t.now
    ensures PaceInv(t, cfg) && Since(s) <= Since(t)
  {
    hide Times, Tick, Pace;
    SpacedAppend(Times(s.restarts), Pace(cfg), Since(s), at);
  }

  lemma NextIsPoll(s: State, cfg: Config, p: Poll, end: real)
    requires Enabled(s, PollService(p, end))
    ensures |p.filterReads| == |s.memory.attempts|
    ensures Next(s, cfg, PollService(p, end)) == PollStep(s, cfg, p).(now := end)
  {
  }

  lemma PollKeepsPace(s: State, cfg: Config, p: Poll, end: real)
    requires PaceInv(s, cfg) && Enabled(s, PollService(p, end))
    ensures PaceInv(Next(s, cfg, PollService(p, end)), cfg)
    ensures Since(s) <= Since(Next(s, cfg, PollService(p, end)))
  {
    assert StreakPaced(s) && Since(s) <= s.now;
    hide *;
    NextIsPoll(s, cfg, p, end);
    ReadsAreOrdered(s, p, end);
    StreakStaysPaced(s, cfg, p);
    var t, u := PollStep(s, cfg, p), Next(s, cfg, PollService(p, end));
    if t.restarts != s.restarts {
      OnlyFullStreaksRestart(s, cfg, p);
      StreakTakesPace(s, cfg, p);
      TimesOfAppend(s.restarts, Restart(p.appendRead, p.identity, |s.seen| + 1));
      RestartPace(s, u, cfg, p.appendRead);
    } else {
      LaterSince(s, t, u);
      SamePace(s, u, cfg);
    }
  }

  lemma LaterSince(s: State, t: State, u: State)
    requires u == t.(now := u.now) && Since(s) <= s.now <= u.now && StreakPaced(t)
    requires t.failures.Some? ==> Since(s) <= t.begun <= u.now
    ensures Since(s) <= Since(u) <= u.now && StreakPaced(u)
  {
  }

  /** Every step, harmful losses included, keeps the restarts a pace apart. */
  lemma NextKeepsPace(s: State, cfg: Config, step: Step)
    requires PaceInv(s, cfg) && Enabled(s, step)
    ensures PaceInv(Next(s, cfg, step), cfg) && Since(s) <= Since(Next(s, cfg, step))
  {
    if step.PollService? {
      PollKeepsPace(s, cfg, step.poll, step.end);
    } else {
      hide Times, Tick, Pace;
    }
  }
}
