/** What holds of every run of the recovery automaton, crashes and reloads included. */
module RecoveryProperties {
  import opened Wrappers
  import opened Recovery
  import opened RecoveryPace

  /** How many of the times lie in the half-open window `(lo, hi]`. */
  function CountIn(times: seq<real>, lo: real, hi: real): nat {
    if times == [] then 0
    else
      CountIn(times[..|times| - 1], lo, hi) + if lo < times[|times| - 1] <= hi then 1 else 0
  }

  function CountAfter(times: seq<real>, lo: real): nat {
    if times == [] then 0
    else CountAfter(times[..|times| - 1], lo) + if lo < times[|times| - 1] then 1 else 0
  }

  // ------------------------------------------------------------------ counting

  lemma AppendCounts(times: seq<real>, t: real, lo: real, hi: real)
    ensures CountAfter(times + [t], lo) == CountAfter(times, lo) + if lo < t then 1 else 0
    ensures CountIn(times + [t], lo, hi) == CountIn(times, lo, hi) + if lo < t <= hi then 1 else 0
  {
    assert (times + [t])[..|times|] == times;
  }

  lemma {:induction false} CountBounds(times: seq<real>, lo: real, hi: real)
    ensures CountIn(times, lo, hi) <= CountAfter(times, lo) <= |times|
  {
    if times != [] {
      CountBounds(times[..|times| - 1], lo, hi);
    }
  }

  lemma {:induction false} LaterCutCountsLess(times: seq<real>, lo: real, later: real)
    requires lo <= later
    ensures CountAfter(times, later) <= CountAfter(times, lo)
  {
    if times != [] {
      LaterCutCountsLess(times[..|times| - 1], lo, later);
    }
  }

  lemma {:induction false} NothingAfter(times: seq<real>, lo: real)
    requires forall i :: 0 <= i < |times| ==> times[i] <= lo
    ensures CountAfter(times, lo) == 0
  {
    if times != [] {
      NothingAfter(times[..|times| - 1], lo);
    }
  }

  /** Filtering by the hour keeps every attempt a later cut-off still counts. */
  lemma {:induction false} RecentKeepsCount(attempts: seq<real>, clocks: seq<real>, cut: real)
    requires |clocks| == |attempts|
    requires forall i :: 0 <= i < |clocks| ==> clocks[i] - HOUR <= cut
    ensures CountAfter(Recent(attempts, clocks), cut) == CountAfter(attempts, cut)
  {
    if attempts != [] {
      var n := |attempts| - 1;
      RecentKeepsCount(attempts[..n], clocks[..n], cut);
      var rest := Recent(attempts[..n], clocks[..n]);
      AppendCounts(rest, attempts[n], cut, cut);
      assert rest + [] == rest;
    }
  }

  // ------------------------------------------------------------------ the budget

  function InHourUpTo(times: seq<real>, w: real): nat {
    CountIn(times, w - HOUR, w)
  }

  /** At most `max` restarts in any hour, counted by recorded attempt time. */
  ghost predicate HourlyBudget(times: seq<real>, max: nat) {
    forall w: real :: InHourUpTo(times, w) <= max
  }

  /** What the configuration promises about the recorded restart times. */
  ghost predicate Promises(times: seq<real>, cfg: Config) {
    HourlyBudget(times, cfg.maxPerHour) && SpacedBy(times, cfg.cooldown)
  }

  /** A history counts every one of these restarts that can still count, and knows the time
      of the last one. */
  ghost predicate Remembers(e: Entry, times: seq<real>, now: real) {
    && (forall cut: real :: cut >= now - HOUR ==> CountAfter(times, cut) <= CountAfter(e.attempts, cut))
    && (times != [] ==> e.last.Some? && times[|times| - 1] <= e.last.value)
  }

  /** The last restart, if any, is at least this long ago. */
  ghost predicate Settled(times: seq<real>, now: real, ago: real) {
    times != [] ==> times[|times| - 1] + ago <= now
  }

  /** After `j` more restarts at the least gap, the first at `first`, there is still room for
      another one. */
  ghost predicate RoomFor(times: seq<real>, first: real, cfg: Config, j: nat) {
    CountAfter(times, Tick(first, Gap(cfg), j) - HOUR) + j + 1 <= cfg.maxPerHour
  }

  /** An automaton that begins at `start` without knowing these restarts cannot break the
      promises together with them. Its own first restart takes a full streak. */
  ghost predicate Forgettable(times: seq<real>, start: real, cfg: Config) {
    var first := start + Pace(cfg);
    Settled(times, first, cfg.cooldown) && forall j: nat | j < cfg.maxPerHour :: RoomFor(times, first, cfg, j)
  }

  /** The history remembers the restarts from the `c`-th on, all a streak later than `start`,
      and the earlier ones can be forgotten from then on. */
  ghost predicate KnowsFrom(e: Entry, times: seq<real>, now: real, since: real, cfg: Config, c: nat, start: real) {
    && c <= |times| && start <= since
    && Forgettable(times[..c], start, cfg)
    && (forall i :: c <= i < |times| ==> start + Pace(cfg) <= times[i])
    && Remembers(e, times[c..], now)
  }

  ghost predicate Knows(e: Entry, times: seq<real>, now: real, since: real, cfg: Config) {
    exists c, start :: KnowsFrom(e, times, now, since, cfg, c, start)
  }

  const NO_HISTORY: Entry := Entry([], None)

  ghost predicate FileKnows(file: Option<Entry>, times: seq<real>, now: real, since: real, cfg: Config) {
    times != [] ==>
      match file
      case None => Knows(NO_HISTORY, times, now, since, cfg)
      case Some(e) => |e.attempts| <= ATTEMPT_LIMIT && Knows(e, times, now, since, cfg)
  }

  ghost predicate BudgetInv(s: State, cfg: Config) {
    var times := Times(s.restarts);
    && PaceInv(s, cfg)
    && Promises(times, cfg)
    && |s.memory.attempts| <= ATTEMPT_LIMIT
    && Knows(s.memory, times, s.now, Since(s), cfg)
    && FileKnows(s.file, times, s.now, Since(s), cfg)
  }

  lemma KnowsLater(e: Entry, times: seq<real>, now: real, since: real, later: real, laterSince: real, cfg: Config)
    requires Knows(e, times, now, since, cfg) && now <= later && since <= laterSince
    ensures Knows(e, times, later, laterSince, cfg)
  {
    hide Forgettable;
    var c: nat, start: real :| KnowsFrom(e, times, now, since, cfg, c, start);
    assert KnowsFrom(e, times, later, laterSince, cfg, c, start);
  }

  lemma KnowsNothing(e: Entry, now: real, since: real, cfg: Config)
    ensures Knows(e, [], now, since, cfg)
  {
    assert KnowsFrom(e, [], now, since, cfg, 0, since);
  }

  lemma ForgetsForgettable(e: Entry, times: seq<real>, now: real, cfg: Config)
    requires Forgettable(times, now, cfg)
    ensures Knows(e, times, now, now, cfg)
  {
    assert times[..|times|] == times && times[|times|..] == [];
    assert KnowsFrom(e, times, now, now, cfg, |times|, now);
  }

  lemma BudgetAfterRestart(times: seq<real>, max: nat, t: real)
    requires Sorted(times, t) && HourlyBudget(times, max) && CountAfter(times, t - HOUR) < max
    ensures HourlyBudget(times + [t], max)
  {
    forall w: real ensures InHourUpTo(times + [t], w) <= max {
      assert InHourUpTo(times, w) <= max;
      AppendCounts(times, t, w - HOUR, w);
      CountBounds(times, w - HOUR, w);
      if w - HOUR < t <= w {
        LaterCutCountsLess(times, t - HOUR, w - HOUR);
      }
    }
  }

  lemma RecordCounts(e: Entry, times: seq<real>, clocks: seq<real>, append: real, cut: real)
    requires |clocks| == |e.attempts| && forall i :: 0 <= i < |clocks| ==> clocks[i] - HOUR <= cut
    requires CountAfter(times, cut) <= CountAfter(e.attempts, cut)
    ensures var recent := Recent(e.attempts, clocks);
      && CountAfter(times, cut) <= CountAfter(recent, cut) <= CountAfter(recent + [append], cut)
      && CountAfter(times + [append], cut) <= CountAfter(recent + [append], cut)
  {
    RecentKeepsCount(e.attempts, clocks, cut);
    AppendCounts(Recent(e.attempts, clocks), append, cut, cut);
    AppendCounts(times, append, cut, cut);
  }

  /** The entry recorded for a new attempt counts it and everything still recent. */
  lemma RecordRemembers(e: Entry, times: seq<real>, now: real, p: Poll, cfg: Config)
    requires cfg.Loaded() && Remembers(e, times, now) && |p.filterReads| == |e.attempts|
    requires Within(now, p.filterReads, p.checkRead) && p.checkRead <= p.appendRead <= p.lastRead
    requires Allowed(cfg, Recent(e.attempts, p.filterReads), e.last, p.checkRead)
    ensures Remembers(Recorded(e, p), times + [p.appendRead], p.lastRead)
    ensures Remembers(Recorded(e, p), times, p.lastRead)
    ensures CountAfter(times, p.appendRead - HOUR) < cfg.maxPerHour
  {
    hide CountAfter, Recent;
    var recent := Recent(e.attempts, p.filterReads);
    var all := recent + [p.appendRead];
    assert LastHundred(all) == all;
    forall cut: real | cut >= p.appendRead - HOUR
      ensures CountAfter(times, cut) <= CountAfter(recent, cut) <= CountAfter(all, cut)
      ensures CountAfter(times + [p.appendRead], cut) <= CountAfter(all, cut)
    {
      RecordCounts(e, times, p.filterReads, p.appendRead, cut);
    }
    CountBounds(recent, p.appendRead - HOUR, 0.0);
  }

  /** The entry a restart leaves behind. */
  function Recorded(e: Entry, p: Poll): Entry
    requires |p.filterReads| == |e.attempts|
  {
    Entry(LastHundred(Recent(e.attempts, p.filterReads) + [p.appendRead]), Some(p.lastRead))
  }

  lemma {:induction false} CountSplit(times: seq<real>, c: nat, lo: real)
    requires c <= |times|
    ensures CountAfter(times, lo) == CountAfter(times[..c], lo) + CountAfter(times[c..], lo)
  {
    var n := |times| - 1;
    if c == |times| {
      assert times[..c] == times;
    } else {
      CountSplit(times[..n], c, lo);
      assert times[..n][..c] == times[..c] && times[..n][c..] == times[c..][..n - c];
    }
  }

  lemma {:induction false} Spread(times: seq<real>, start: real, cooldown: real)
    requires SpacedBy(times, cooldown) && times != [] && start <= times[0]
    ensures times[|times| - 1] >= Tick(start, cooldown, |times| - 1)
  {
    if |times| > 1 {
      Spread(times[..|times| - 1], start, cooldown);
    }
  }

  /** After `n` restarts at least a gap apart the clock is past the `n`-th tick. */
  lemma RoomLater(times: seq<real>, start: real, cfg: Config, j: nat, n: nat, t: real)
    requires cfg.Loaded() && Forgettable(times, start, cfg) && j < cfg.maxPerHour && j <= n
    requires t >= Tick(start + Pace(cfg), Gap(cfg), n)
    ensures CountAfter(times, t - HOUR) + j + 1 <= cfg.maxPerHour
  {
    var first := start + Pace(cfg);
    assert RoomFor(times, first, cfg, j);
    hide Tick, CountAfter, Pace, Gap;
    TickRises(first, Gap(cfg), j, n);
    LaterCutCountsLess(times, Tick(first, Gap(cfg), j) - HOUR, t - HOUR);
  }

  /** The guard on a history that knows all but forgettable restarts answers for all. */
  lemma GuardCountsAll(e: Entry, times: seq<real>, now: real, since: real, p: Poll, cfg: Config, c: nat, start: real)
    requires cfg.Loaded() && KnowsFrom(e, times, now, since, cfg, c, start)
    requires Sorted(times, since) && SpacedBy(times, cfg.cooldown) && SpacedBy(times, Pace(cfg))
    requires |p.filterReads| == |e.attempts| && p.appendRead >= since + Pace(cfg)
    requires Within(now, p.filterReads, p.checkRead) && p.checkRead <= p.appendRead <= p.lastRead
    requires Allowed(cfg, Recent(e.attempts, p.filterReads), e.last, p.checkRead)
    ensures CountAfter(times, p.appendRead - HOUR) < cfg.maxPerHour
    ensures Settled(times, p.appendRead, cfg.cooldown)
  {
    assert c <= |times| && Remembers(e, times[c..], now) && Forgettable(times[..c], start, cfg);
    assert e.last.Some? ==> p.appendRead - e.last.value >= cfg.cooldown;
    hide *;
    var news, q := times[c..], CountAfter(times[c..], p.appendRead - HOUR);
    KnownIsSettled(e, times, now, since, p, cfg, c, start);
    RecordRemembers(e, news, now, p, cfg);
    CountSplit(times, c, p.appendRead - HOUR);
    CountBounds(news, p.appendRead - HOUR, 0.0);
    RoomLater(times[..c], start, cfg, q, |news|, p.appendRead);
  }

  lemma KnownIsSettled(e: Entry, times: seq<real>, now: real, since: real, p: Poll, cfg: Config, c: nat, start: real)
    requires cfg.Loaded() && KnowsFrom(e, times, now, since, cfg, c, start)
    requires Sorted(times, since) && SpacedBy(times, cfg.cooldown) && SpacedBy(times, Pace(cfg))
    requires p.appendRead >= since + Pace(cfg)
    requires e.last.Some? ==> p.appendRead - e.last.value >= cfg.cooldown
    ensures Settled(times, p.appendRead, cfg.cooldown)
    ensures c <= |times| && p.appendRead >= Tick(start + Pace(cfg), Gap(cfg), |times[c..]|)
  {
    var news := times[c..];
    hide Pace;
    if news != [] {
      assert forall i :: 0 <= i < |news| ==> news[i] == times[c + i];
      hide Forgettable;
      Spread(news, start + Pace(cfg), Gap(cfg));
    } else {
      assert times[..c] == times;
    }
  }

  lemma RecordKnows(e: Entry, times: seq<real>, now: real, since: real, p: Poll, cfg: Config, c: nat, start: real)
    requires cfg.Loaded() && KnowsFrom(e, times, now, since, cfg, c, start) && |p.filterReads| == |e.attempts|
    requires Within(now, p.filterReads, p.checkRead) && p.checkRead <= p.appendRead <= p.lastRead
    requires Allowed(cfg, Recent(e.attempts, p.filterReads), e.last, p.checkRead)
    requires p.appendRead >= since + Pace(cfg)
    ensures Knows(Recorded(e, p), times + [p.appendRead], p.lastRead, since, cfg)
    ensures Knows(Recorded(e, p), times, p.lastRead, since, cfg)
  {
    hide Forgettable, Remembers, Recorded, Recent, Pace;
    var after := times + [p.appendRead];
    RecordRemembers(e, times[c..], now, p, cfg);
    assert after[..c] == times[..c] && after[c..] == times[c..] + [p.appendRead];
    assert KnowsFrom(Recorded(e, p), after, p.lastRead, since, cfg, c, start);
    assert KnowsFrom(Recorded(e, p), times, p.lastRead, since, cfg, c, start);
  }

  // ------------------------------------------------------------------ one step

  lemma SameRestartsKeepInv(s: State, t: State, cfg: Config)
    requires BudgetInv(s, cfg) && PaceInv(t, cfg)
    requires s.now <= t.now && Since(s) <= Since(t) && t.restarts == s.restarts
    requires t.memory == s.memory ||
             (Knows(t.memory, Times(s.restarts), t.now, Since(t), cfg) && |t.memory.attempts| <= ATTEMPT_LIMIT)
    requires t.file == s.file || t.file == Some(s.memory)
    ensures BudgetInv(t, cfg)
  {
    var times := Times(s.restarts);
    hide Knows, Times, Promises, PaceInv, Since;
    KnowsLater(s.memory, times, s.now, Since(s), t.now, Since(t), cfg);
    if times != [] {
      KnowsLater(if s.file.Some? then s.file.value else NO_HISTORY, times, s.now, Since(s), t.now, Since(t), cfg);
    }
  }

  /** A restart after `times` keeps the promises exactly when the hour before it has room and
      the last restart is a cooldown ago. */
  lemma AppendKeepsPromisesIff(times: seq<real>, cfg: Config, t: real)
    requires Sorted(times, t) && Promises(times, cfg)
    ensures Promises(times + [t], cfg) <==>
      CountAfter(times, t - HOUR) < cfg.maxPerHour && Settled(times, t, cfg.cooldown)
  {
    var after := times + [t];
    hide CountIn, CountAfter;
    if Promises(after, cfg) {
      assert InHourUpTo(after, t) <= cfg.maxPerHour;
      AppendCounts(times, t, t - HOUR, t);
      AllAreBefore(times, t - HOUR, t);
      if times != [] {
        assert after[|times|] - after[|times| - 1] >= cfg.cooldown;
      }
    }
    if CountAfter(times, t - HOUR) < cfg.maxPerHour && Settled(times, t, cfg.cooldown) {
      BudgetAfterRestart(times, cfg.maxPerHour, t);
      RestartIsSpaced(times, cfg.cooldown, t);
    }
  }

  lemma RestartIsSpaced(times: seq<real>, cooldown: real, t: real)
    requires Sorted(times, t) && SpacedBy(times, cooldown) && Settled(times, t, cooldown)
    ensures SpacedBy(times + [t], cooldown)
  {
    if times != [] {
      assert forall i :: 0 <= i < |times| ==> times[i] <= times[|times| - 1];
    }
  }

  lemma {:induction false} AllAreBefore(times: seq<real>, lo: real, hi: real)
    requires Sorted(times, hi)
    ensures CountIn(times, lo, hi) == CountAfter(times, lo)
  {
    if times != [] {
      AllAreBefore(times[..|times| - 1], lo, hi);
    }
  }

  function Always(n: nat, at: real): (clocks: seq<real>)
    ensures |clocks| == n && forall i :: 0 <= i < n ==> clocks[i] == at
  {
    seq(n, _ => at)
  }

  lemma {:induction false} RecentSize(attempts: seq<real>, clocks: seq<real>, at: real)
    requires |clocks| == |attempts| && forall i :: 0 <= i < |clocks| ==> clocks[i] == at
    ensures |Recent(attempts, clocks)| == CountAfter(attempts, at - HOUR)
  {
    if attempts != [] {
      RecentSize(attempts[..|attempts| - 1], clocks[..|attempts| - 1], at);
    }
  }

  /** The guard of the automaton, evaluated on the restarts themselves. */
  ghost predicate TrulyAllowed(cfg: Config, times: seq<real>, at: real) {
    Allowed(cfg, Recent(times, Always(|times|, at)), if times == [] then None else Some(times[|times| - 1]), at)
  }

  /** From a state with any memory, a poll that issues a restart keeps the promises exactly
      when its guard would have allowed it on all restarts made so far. */
  lemma RestartKeepsPromisesIff(s: State, cfg: Config, p: Poll, end: real)
    requires Enabled(s, PollService(p, end))
    requires Sorted(Times(s.restarts), s.now) && Promises(Times(s.restarts), cfg)
    requires Next(s, cfg, PollService(p, end)).restarts != s.restarts
    ensures Promises(Times(Next(s, cfg, PollService(p, end)).restarts), cfg) <==>
      TrulyAllowed(cfg, Times(s.restarts), p.appendRead)
  {
    hide *;
    var times := Times(s.restarts);
    NextIsPoll(s, cfg, p, end);
    ReadsAreOrdered(s, p, end);
    OnlyFullStreaksRestart(s, cfg, p);
    TimesOfAppend(s.restarts, Restart(p.appendRead, p.identity, |s.seen| + 1));
    SortedLater(times, s.now, p.appendRead);
    AppendKeepsPromisesIff(times, cfg, p.appendRead);
    TrulyAllowedIff(cfg, times, p.appendRead);
  }

  lemma SortedLater(times: seq<real>, now: real, later: real)
    requires Sorted(times, now) && now <= later
    ensures Sorted(times, later)
  {
  }

  lemma TrulyAllowedIff(cfg: Config, times: seq<real>, at: real)
    ensures TrulyAllowed(cfg, times, at) <==>
      CountAfter(times, at - HOUR) < cfg.maxPerHour && Settled(times, at, cfg.cooldown)
  {
    hide Recent, CountAfter;
    RecentSize(times, Always(|times|, at), at);
  }

  /** A poll leaves the history alone, or its guard allowed a restart and the attempt is in
      the memory, and in the file if the restart was issued. */
  lemma PollOutcome(s: State, cfg: Config, p: Poll)
    requires |p.filterReads| == |s.memory.attempts|
    ensures var t := PollStep(s, cfg, p);
      || (t.memory == s.memory && t.restarts == s.restarts && t.file == s.file)
      || (&& StreakFull(s, cfg, p) && t.failures == None
          && Allowed(cfg, Recent(s.memory.attempts, p.filterReads), s.memory.last, p.checkRead)
          && t.memory == Recorded(s.memory, p)
          && if p.persisted
             then t.file == Some(t.memory) && t.restarts == s.restarts + [Restart(p.appendRead, p.identity, |s.seen| + 1)]
             else t.file == s.file && t.restarts == s.restarts)
  {
    hide Recent, LastHundred;
  }

  lemma KnownRestartKeepsBudget(e: Entry, times: seq<real>, now: real, since: real, cfg: Config, p: Poll, end: real)
    requires cfg.Loaded() && Sorted(times, since) && Promises(times, cfg) && SpacedBy(times, Pace(cfg))
    requires Knows(e, times, now, since, cfg) && |p.filterReads| == |e.attempts|
    requires since <= now && Within(now, p.filterReads, p.checkRead)
    requires p.checkRead <= p.appendRead <= p.lastRead <= end && p.appendRead >= since + Pace(cfg)
    requires Allowed(cfg, Recent(e.attempts, p.filterReads), e.last, p.checkRead)
    ensures Promises(times + [p.appendRead], cfg) && Knows(Recorded(e, p), times + [p.appendRead], end, end, cfg)
    ensures Knows(Recorded(e, p), times, end, end, cfg)
  {
    assert SpacedBy(times, cfg.cooldown) && now <= p.checkRead;
    var c: nat, start: real :| KnowsFrom(e, times, now, since, cfg, c, start);
    hide *;
    GuardCountsAll(e, times, now, since, p, cfg, c, start);
    SortedLater(times, since, p.appendRead);
    AppendKeepsPromisesIff(times, cfg, p.appendRead);
    RecordKnows(e, times, now, since, p, cfg, c, start);
    KnowsLater(Recorded(e, p), times, p.lastRead, since, end, end, cfg);
    KnowsLater(Recorded(e, p), times + [p.appendRead], p.lastRead, since, end, end, cfg);
  }

  lemma PollKeepsBudget(s: State, cfg: Config, p: Poll, end: real)
    requires cfg.Loaded() && BudgetInv(s, cfg) && Enabled(s, PollService(p, end))
    ensures BudgetInv(Next(s, cfg, PollService(p, end)), cfg)
  {
    InvParts(s, cfg);
    hide *;
    var t, u := PollStep(s, cfg, p), Next(s, cfg, PollService(p, end));
    NextIsPoll(s, cfg, p, end);
    ReadsAreOrdered(s, p, end);
    PollOutcome(s, cfg, p);
    PollKeepsPace(s, cfg, p, end);
    if t.memory == s.memory && t.restarts == s.restarts && t.file == s.file {
      SameRestartsKeepInv(s, u, cfg);
    } else {
      StreakTakesPace(s, cfg, p);
      KnownRestartKeepsBudget(s.memory, Times(s.restarts), s.now, Since(s), cfg, p, end);
      RecordedIsShort(s.memory, p);
      SinceOfCleared(u);
      if p.persisted {
        TimesOfAppend(s.restarts, Restart(p.appendRead, p.identity, |s.seen| + 1));
        FreshEntryHolds(u, cfg);
      } else {
        SameRestartsKeepInv(s, u, cfg);
      }
    }
  }

  lemma InvParts(s: State, cfg: Config)
    requires BudgetInv(s, cfg)
    ensures PaceInv(s, cfg) && Promises(Times(s.restarts), cfg) && Knows(s.memory, Times(s.restarts), s.now, Since(s), cfg)
    ensures StreakPaced(s) && Since(s) <= s.now
    ensures Sorted(Times(s.restarts), Since(s)) && SpacedBy(Times(s.restarts), Pace(cfg))
  {
  }

  lemma RecordedIsShort(e: Entry, p: Poll)
    requires |p.filterReads| == |e.attempts|
    ensures |Recorded(e, p).attempts| <= ATTEMPT_LIMIT
  {
  }

  lemma SinceOfCleared(s: State)
    requires s.failures == None
    ensures Since(s) == s.now
  {
  }

  lemma FreshEntryHolds(t: State, cfg: Config)
    requires PaceInv(t, cfg) && Promises(Times(t.restarts), cfg)
    requires Knows(t.memory, Times(t.restarts), t.now, Since(t), cfg) && |t.memory.attempts| <= ATTEMPT_LIMIT
    requires t.file == Some(t.memory)
    ensures BudgetInv(t, cfg)
  {
    hide Knows, Promises, Times, PaceInv;
  }

  /** What the next life of the supervisor reads. */
  function Reloaded(s: State, step: Step): Entry
    requires step.Reload? && Enabled(s, step)
  {
    if step.readable then Load(s.file, step.clocks) else NO_HISTORY
  }

  /** If the history cannot be read, its restarts can be forgotten. */
  ghost predicate LossIsHarmless(s: State, cfg: Config, step: Step) {
    step.Reload? && !step.readable ==> Forgettable(Times(s.restarts), step.end, cfg)
  }

  lemma ReloadKnows(s: State, cfg: Config, step: Step)
    requires BudgetInv(s, cfg) && step.Reload? && Enabled(s, step) && LossIsHarmless(s, cfg, step)
    ensures Knows(Reloaded(s, step), Times(s.restarts), step.end, step.end, cfg)
    ensures |Reloaded(s, step).attempts| <= ATTEMPT_LIMIT
  {
    var times := Times(s.restarts);
    hide Knows, Times, Promises, Forgettable, PaceInv;
    InvParts(s, cfg);
    if !step.readable {
      ForgetsForgettable(NO_HISTORY, times, step.end, cfg);
    } else if times == [] {
      KnowsNothing(Reloaded(s, step), step.end, step.end, cfg);
    } else if s.file.None? {
      KnowsLater(NO_HISTORY, times, s.now, Since(s), step.end, step.end, cfg);
    } else {
      LoadKnows(s.file.value, times, s.now, Since(s), step.clocks, step.end, cfg);
    }
  }

  lemma LoadKnows(e: Entry, times: seq<real>, now: real, since: real, clocks: seq<real>, end: real, cfg: Config)
    requires |e.attempts| <= ATTEMPT_LIMIT && |clocks| == |e.attempts| && Within(now, clocks, end)
    requires Knows(e, times, now, since, cfg) && since <= end
    ensures Knows(Load(Some(e), clocks), times, end, end, cfg)
  {
    hide Forgettable;
    var c: nat, start: real :| KnowsFrom(e, times, now, since, cfg, c, start);
    var loaded := Load(Some(e), clocks);
    forall cut: real | cut >= end - HOUR
      ensures CountAfter(times[c..], cut) <= CountAfter(loaded.attempts, cut)
    {
      RecentKeepsCount(e.attempts, clocks, cut);
    }
    assert KnowsFrom(loaded, times, end, end, cfg, c, start);
  }

  lemma NextKeepsBudget(s: State, cfg: Config, step: Step)
    requires cfg.Loaded() && BudgetInv(s, cfg) && Enabled(s, step) && LossIsHarmless(s, cfg, step)
    ensures BudgetInv(Next(s, cfg, step), cfg)
  {
    InvParts(s, cfg);
    NextKeepsPace(s, cfg, step);
    hide BudgetInv, PollStep, PaceInv, Knows, LossIsHarmless;
    match step {
      case PollService(p, end) =>
        PollKeepsBudget(s, cfg, p, end);
      case RecordAction(end) =>
        SameRestartsKeepInv(s, Next(s, cfg, step), cfg);
      case Persist(end) =>
        SameRestartsKeepInv(s, Next(s, cfg, step), cfg);
      case Reload(_, _, end) =>
        ReloadKnows(s, cfg, step);
        SameRestartsKeepInv(s, Next(s, cfg, step), cfg);
    }
  }

  // ------------------------------------------------------------------ the failure streak

  /** Observations `from..to` all saw this identity unhealthy. */
  ghost predicate AllUnhealthy(seen: seq<Seen>, from: int, to: int, identity: Identity) {
    0 <= from <= to <= |seen| && forall k :: from <= k < to ==> seen[k] == SeenUnhealthy(identity)
  }

  /** The streak counts observations at the end of the record; every restart is earned and
      lies before the observations the streak counts. */
  ghost predicate StreakOk(failures: Option<Streak>, restarts: seq<Restart>, seen: seq<Seen>, threshold: nat) {
    && (failures.Some? ==>
          var f := failures.value;
          f.count >= 1 && AllUnhealthy(seen, |seen| - f.count, |seen|, f.identity))
    && (forall r :: r in restarts ==> Earned(seen, threshold, r))
    && (forall r :: r in restarts ==> r.observed < |seen| - if failures.Some? then failures.value.count else 0)
    && (forall i, j :: 0 <= i < j < |restarts| ==> restarts[i].observed < restarts[j].observed - threshold)
  }

  /** The last `threshold` observations before the restart all saw its identity unhealthy. */
  ghost predicate Earned(seen: seq<Seen>, threshold: nat, r: Restart) {
    AllUnhealthy(seen, r.observed - threshold, r.observed, r.identity)
  }

  ghost predicate StreakInv(s: State, cfg: Config) {
    StreakOk(s.failures, s.restarts, s.seen, cfg.threshold)
  }

  lemma EarnedSurvives(restarts: seq<Restart>, seen: seq<Seen>, e: Seen, threshold: nat)
    requires forall r :: r in restarts ==> Earned(seen, threshold, r)
    ensures forall r :: r in restarts ==> Earned(seen + [e], threshold, r)
  {
    forall r | r in restarts ensures Earned(seen + [e], threshold, r) {
      assert Earned(seen, threshold, r);
    }
  }

  lemma ClearKeepsStreak(failures: Option<Streak>, restarts: seq<Restart>, seen: seq<Seen>, threshold: nat)
    requires StreakOk(failures, restarts, seen, threshold)
    ensures StreakOk(None, restarts, seen + [Cleared], threshold)
  {
    EarnedSurvives(restarts, seen, Cleared, threshold);
  }

  lemma CountKeepsStreak(s: State, identity: Identity, threshold: nat)
    requires StreakOk(s.failures, s.restarts, s.seen, threshold)
    ensures StreakOk(Some(Streak(identity, NextCount(s, identity))), s.restarts,
                     s.seen + [SeenUnhealthy(identity)], threshold)
  {
    EarnedSurvives(s.restarts, s.seen, SeenUnhealthy(identity), threshold);
  }

  lemma RestartKeepsStreak(f: Streak, restarts: seq<Restart>, seen: seq<Seen>, at: real, threshold: nat)
    requires StreakOk(Some(f), restarts, seen, threshold) && f.count >= threshold
    ensures StreakOk(None, restarts + [Restart(at, f.identity, |seen|)], seen + [Cleared], threshold)
  {
    EarnedSurvives(restarts, seen, Cleared, threshold);
  }

  lemma PollKeepsStreak(s: State, cfg: Config, p: Poll)
    requires StreakInv(s, cfg) && |p.filterReads| == |s.memory.attempts|
    ensures StreakInv(RecoverStep(s, cfg, p), cfg)
  {
    hide StreakOk, Recent;
    var f := Streak(p.identity, NextCount(s, p.identity));
    var seen := s.seen + [SeenUnhealthy(p.identity)];
    ClearKeepsStreak(s.failures, s.restarts, s.seen, cfg.threshold);
    CountKeepsStreak(s, p.identity, cfg.threshold);
    ClearKeepsStreak(Some(f), s.restarts, seen, cfg.threshold);
    if f.count >= cfg.threshold {
      RestartKeepsStreak(f, s.restarts, seen, p.appendRead, cfg.threshold);
    }
  }

  lemma NextKeepsStreak(s: State, cfg: Config, step: Step)
    requires StreakInv(s, cfg) && Enabled(s, step)
    ensures StreakInv(Next(s, cfg, step), cfg)
  {
    hide StreakOk, RecoverStep;
    ClearKeepsStreak(s.failures, s.restarts, s.seen, cfg.threshold);
    if step.PollService? {
      PollKeepsStreak(s.(lastPoll := Some(step.poll.gateRead)), cfg, step.poll);
    }
  }

  // ------------------------------------------------------------------ whole runs

  /** A run from a start with any readable history file. */
  ghost predicate IsRun(cfg: Config, states: seq<State>, steps: seq<Step>) {
    && |states| == |steps| + 1
    && Begins(states[0])
    && (forall i :: 0 <= i < |steps| ==>
          Enabled(states[i], steps[i]) && states[i + 1] == Next(states[i], cfg, steps[i]))
  }

  ghost predicate Begins(s: State) {
    && s.failures == None && s.restarts == [] && s.seen == []
    && |s.memory.attempts| <= ATTEMPT_LIMIT
  }

  /** No history is lost whose restarts cannot be forgotten. */
  ghost predicate LossesHarmless(cfg: Config, states: seq<State>, steps: seq<Step>) {
    |states| == |steps| + 1 && forall i :: 0 <= i < |steps| ==> LossIsHarmless(states[i], cfg, steps[i])
  }

  function Tail<T>(xs: seq<T>, c: nat): seq<T> {
    if c <= |xs| then xs[c..] else []
  }

  /** The state with only the restarts from the `c`-th on. */
  function Drop(s: State, c: nat): State {
    s.(restarts := Tail(s.restarts, c))
  }

  /** Earlier restarts have no influence on what the automaton does. */
  lemma NextOfDrop(s: State, cfg: Config, step: Step, c: nat)
    requires Enabled(s, step) && c <= |s.restarts|
    ensures Enabled(Drop(s, c), step) && Next(Drop(s, c), cfg, step) == Drop(Next(s, cfg, step), c)
    ensures |s.restarts| <= |Next(s, cfg, step).restarts|
  {
    hide Recent, LastHundred;
  }

  /** How many restarts the last harmful loss of history made the automaton forget. */
  ghost function Forgotten(cfg: Config, states: seq<State>, steps: seq<Step>, k: nat): (c: nat)
    requires IsRun(cfg, states, steps) && k <= |steps|
    ensures c <= |states[k].restarts|
  {
    if k == 0 then 0
    else
      var c := Forgotten(cfg, states, steps, k - 1);
      NextOfDrop(states[k - 1], cfg, steps[k - 1], c);
      if LossIsHarmless(Drop(states[k - 1], c), cfg, steps[k - 1]) then c else |states[k].restarts|
  }

  lemma BeginHolds(s: State, cfg: Config)
    requires s.restarts == [] && s.failures == None && |s.memory.attempts| <= ATTEMPT_LIMIT
    ensures BudgetInv(s, cfg)
  {
    KnowsNothing(s.memory, s.now, Since(s), cfg);
    hide Knows;
  }

  lemma MemoryStaysShort(s: State, cfg: Config, step: Step)
    requires Enabled(s, step) && !LossIsHarmless(s, cfg, step)
    ensures Next(s, cfg, step).failures == None && Next(s, cfg, step).memory == NO_HISTORY
  {
  }

  lemma {:induction false} RunKeepsBudget(cfg: Config, states: seq<State>, steps: seq<Step>, k: nat)
    requires cfg.Loaded() && IsRun(cfg, states, steps) && k <= |steps|
    ensures BudgetInv(Drop(states[k], Forgotten(cfg, states, steps, k)), cfg)
  {
    hide BudgetInv, LossIsHarmless, Next, Enabled;
    if k > 0 {
      var c := Forgotten(cfg, states, steps, k - 1);
      var s, step := states[k - 1], steps[k - 1];
      RunKeepsBudget(cfg, states, steps, k - 1);
      NextOfDrop(s, cfg, step, c);
      if LossIsHarmless(Drop(s, c), cfg, step) {
        NextKeepsBudget(Drop(s, c), cfg, step);
      } else {
        MemoryStaysShort(Drop(s, c), cfg, step);
        BeginHolds(Drop(states[k], |states[k].restarts|), cfg);
      }
    } else {
      BeginHolds(Drop(states[0], 0), cfg);
    }
  }

  lemma {:induction false} NothingForgotten(cfg: Config, states: seq<State>, steps: seq<Step>, k: nat)
    requires IsRun(cfg, states, steps) && LossesHarmless(cfg, states, steps) && k <= |steps|
    ensures Forgotten(cfg, states, steps, k) == 0
  {
    hide Next, Enabled, Forgettable;
    if k > 0 {
      NothingForgotten(cfg, states, steps, k - 1);
      assert Drop(states[k - 1], 0) == states[k - 1];
      assert LossIsHarmless(states[k - 1], cfg, steps[k - 1]);
    }
  }

  lemma {:induction false} RunKeepsPace(cfg: Config, states: seq<State>, steps: seq<Step>, k: nat)
    requires IsRun(cfg, states, steps) && k <= |steps|
    ensures PaceInv(states[k], cfg)
  {
    hide Next, Enabled;
    if k > 0 {
      RunKeepsPace(cfg, states, steps, k - 1);
      NextKeepsPace(states[k - 1], cfg, steps[k - 1]);
    }
  }

  lemma {:induction false} RunKeepsStreak(cfg: Config, states: seq<State>, steps: seq<Step>, k: nat)
    requires IsRun(cfg, states, steps) && k <= |steps|
    ensures StreakInv(states[k], cfg)
  {
    if k > 0 {
      RunKeepsStreak(cfg, states, steps, k - 1);
      hide StreakInv;
      NextKeepsStreak(states[k - 1], cfg, steps[k - 1]);
    }
  }

  lemma BudgetMeans(s: State, cfg: Config, w: real, i: nat, j: nat)
    requires BudgetInv(s, cfg)
    ensures CountIn(Times(s.restarts), w - HOUR, w) <= cfg.maxPerHour
    ensures i < j < |s.restarts| ==> s.restarts[j].at - s.restarts[i].at >= cfg.cooldown
  {
    hide Knows, FileKnows, CountIn, PaceInv;
    assert InHourUpTo(Times(s.restarts), w) <= cfg.maxPerHour;
    if i < j < |s.restarts| {
      assert Times(s.restarts)[j] - Times(s.restarts)[i] >= cfg.cooldown;
    }
  }

  lemma LaterMeans(s: State, c: nat, cfg: Config, w: real, i: nat, j: nat)
    requires c <= |s.restarts| && BudgetInv(Drop(s, c), cfg)
    ensures CountIn(Times(s.restarts[c..]), w - HOUR, w) <= cfg.maxPerHour
    ensures c <= i < j < |s.restarts| ==> s.restarts[j].at - s.restarts[i].at >= cfg.cooldown
  {
    assert Drop(s, c).restarts == s.restarts[c..];
    hide *;
    if c <= i < j < |s.restarts| {
      BudgetMeans(Drop(s, c), cfg, w, i - c, j - c);
      assert s.restarts[c..][i - c] == s.restarts[i] && s.restarts[c..][j - c] == s.restarts[j];
    } else {
      BudgetMeans(Drop(s, c), cfg, w, 0, 0);
    }
  }

  lemma PaceMeans(s: State, cfg: Config, i: nat, j: nat)
    requires PaceInv(s, cfg) && i < j < |s.restarts|
    ensures s.restarts[j].at - s.restarts[i].at >= Pace(cfg)
  {
    hide Pace;
    assert Times(s.restarts)[j] - Times(s.restarts)[i] >= Pace(cfg);
  }

  /** Over every run, among the restarts since the last harmful loss of history any hour holds
      at most `maxPerHour` and any two are at least the cooldown apart. Without such a loss
      these are all restarts; and always any two are a full streak of polls apart. */
  lemma RestartsWithinBudget(cfg: Config, states: seq<State>, steps: seq<Step>, k: nat, w: real, i: nat, j: nat)
    requires cfg.Loaded() && IsRun(cfg, states, steps) && k <= |steps|
    ensures var c := Forgotten(cfg, states, steps, k);
      && CountIn(Times(states[k].restarts[c..]), w - HOUR, w) <= cfg.maxPerHour
      && (c <= i < j < |states[k].restarts| ==>
            states[k].restarts[j].at - states[k].restarts[i].at >= cfg.cooldown)
      && (LossesHarmless(cfg, states, steps) ==> c == 0)
    ensures i < j < |states[k].restarts| ==> states[k].restarts[j].at - states[k].restarts[i].at >= Pace(cfg)
  {
    assert k < |states|;
    hide *;
    var c := Forgotten(cfg, states, steps, k);
    RunKeepsBudget(cfg, states, steps, k);
    RunKeepsPace(cfg, states, steps, k);
    LaterMeans(states[k], c, cfg, w, i, j);
    if i < j < |states[k].restarts| {
      PaceMeans(states[k], cfg, i, j);
    }
    if LossesHarmless(cfg, states, steps) {
      NothingForgotten(cfg, states, steps, k);
    }
  }

  /** A restart is issued only after `threshold` observations in a row saw the same
      definition, pid, create time and start time unhealthy, and no observation counts
      for two restarts. */
  lemma RestartsAreEarned(cfg: Config, states: seq<State>, steps: seq<Step>, k: nat, i: nat, m: nat)
    requires IsRun(cfg, states, steps) && k <= |steps| && i < |states[k].restarts|
    ensures var r := states[k].restarts[i];
      && cfg.threshold <= r.observed < |states[k].seen|
      && (r.observed - cfg.threshold <= m < r.observed ==> states[k].seen[m] == SeenUnhealthy(r.identity))
    ensures i > 0 ==> states[k].restarts[i - 1].observed < states[k].restarts[i].observed - cfg.threshold
  {
    RunKeepsStreak(cfg, states, steps, k);
    var r := states[k].restarts[i];
    assert r in states[k].restarts && Earned(states[k].seen, cfg.threshold, r);
  }
}
