/** How far the promises of the recovery automaton reach: which losses of its history they
    survive, and what a closed hour can hold. */
module RecoveryLimits {
  import opened Wrappers
  import opened Recovery
  import opened RecoveryPace
  import opened RecoveryProperties

  // ------------------------------------------------------------------ continuations

  ghost predicate Continues(cfg: Config, s: State, states: seq<State>, steps: seq<Step>) {
    && |states| == |steps| + 1
    && states[0] == s
    && (forall i :: 0 <= i < |steps| ==>
          Enabled(states[i], steps[i]) && states[i + 1] == Next(states[i], cfg, steps[i]))
  }

  ghost predicate Kept(cfg: Config, states: seq<State>, k: nat) {
    k < |states| ==> Promises(Times(states[k].restarts), cfg)
  }

  /** However the run goes on from here, without another harmful loss, the promises are kept. */
  ghost predicate KeepsPromises(cfg: Config, s: State) {
    forall states: seq<State>, steps: seq<Step>, k: nat |
      Continues(cfg, s, states, steps) && LossesHarmless(cfg, states, steps) :: Kept(cfg, states, k)
  }

  /** Steps lead from one state to another without the loss of a history. */
  ghost predicate Leads(cfg: Config, s: State, t: State) {
    exists states: seq<State>, steps: seq<Step> :: Path(cfg, s, states, steps, t)
  }

  ghost predicate Path(cfg: Config, s: State, states: seq<State>, steps: seq<Step>, t: State) {
    Continues(cfg, s, states, steps) && states[|steps|] == t && forall i :: 0 <= i < |steps| && steps[i].Reload? ==> steps[i].readable
  }

  lemma LeadsHere(cfg: Config, s: State)
    ensures Leads(cfg, s, s)
  {
    assert Path(cfg, s, [s], [], s);
  }

  lemma LeadsOn(cfg: Config, s: State, t: State, step: Step)
    requires Leads(cfg, s, t) && Enabled(t, step) && (step.Reload? ==> step.readable)
    ensures Leads(cfg, s, Next(t, cfg, step))
  {
    var states, steps :| Path(cfg, s, states, steps, t);
    hide Next, Enabled;
    var u := Next(t, cfg, step);
    assert Path(cfg, s, states + [u], steps + [step], u);
  }

  lemma BrokenAhead(cfg: Config, s: State, t: State)
    requires Leads(cfg, s, t) && !Promises(Times(t.restarts), cfg)
    ensures !KeepsPromises(cfg, s)
  {
    var states, steps :| Path(cfg, s, states, steps, t);
    hide Promises, Times, Forgettable, Next, Enabled;
    assert LossesHarmless(cfg, states, steps) && !Kept(cfg, states, |steps|);
  }

  lemma {:induction false} InvKeepsPromises(cfg: Config, s: State, states: seq<State>, steps: seq<Step>, k: nat)
    requires cfg.Loaded() && BudgetInv(s, cfg) && k <= |steps|
    requires Continues(cfg, s, states, steps) && LossesHarmless(cfg, states, steps)
    ensures BudgetInv(states[k], cfg)
  {
    if k > 0 {
      InvKeepsPromises(cfg, s, states, steps, k - 1);
      assert LossIsHarmless(states[k - 1], cfg, steps[k - 1]);
      hide BudgetInv, LossIsHarmless, LossesHarmless;
      NextKeepsBudget(states[k - 1], cfg, steps[k - 1]);
    }
  }

  // ------------------------------------------------------------------ as many restarts as allowed

  const SOMEONE := Identity(0, 1, 0.0, 0.0)

  /** A poll that takes no time and finds the same process unhealthy throughout. */
  function SickAt(n: nat, at: real): Poll {
    Poll(at, false, true, true, SOMEONE, Unhealthy, false, true, Unhealthy, true, Always(n, at), at, at, at, true)
  }

  function SickPoll(s: State, at: real): Step {
    PollService(SickAt(|s.memory.attempts|, at), at)
  }

  /** The streak has counted `k` polls of this process. */
  predicate Counted(s: State, k: nat) {
    s.failures == if k == 0 then None else Some(Streak(SOMEONE, k))
  }

  lemma SickPollCounts(s: State, cfg: Config, at: real, k: nat)
    requires s.now <= at && GateOpens(s.lastPoll, at) && k + 1 < cfg.threshold && Counted(s, k)
    ensures Enabled(s, SickPoll(s, at))
    ensures var u := Next(s, cfg, SickPoll(s, at));
      u.memory == s.memory && u.restarts == s.restarts && u.now == at && u.lastPoll == Some(at) && Counted(u, k + 1)
  {
    hide Recent, RequestStep;
  }

  /** `k` polls, ten seconds apart and the first at `base`. */
  lemma {:induction false} CountUp(cfg: Config, s: State, t: State, base: real, k: nat) returns (u: State)
    requires Leads(cfg, s, t) && t.failures == None && t.lastPoll == None && t.now <= base && k < cfg.threshold
    ensures Leads(cfg, s, u) && u.memory == t.memory && u.restarts == t.restarts && Counted(u, k)
    ensures u.now <= Tick(base, POLL_SECONDS, k) && GateOpens(u.lastPoll, Tick(base, POLL_SECONDS, k))
  {
    hide Next, Leads, Enabled;
    if k == 0 {
      u := t;
    } else {
      var at := Tick(base, POLL_SECONDS, k - 1);
      var v := CountUp(cfg, s, t, base, k - 1);
      SickPollCounts(v, cfg, at, k - 1);
      LeadsOn(cfg, s, v, SickPoll(v, at));
      u := Next(v, cfg, SickPoll(v, at));
    }
  }

  predicate MayStrike(e: Entry, cfg: Config, at: real) {
    CountAfter(e.attempts, at - HOUR) < cfg.maxPerHour && (e.last.Some? ==> at - e.last.value >= cfg.cooldown)
  }

  function Struck(e: Entry, at: real): Entry {
    Entry(Recent(e.attempts, Always(|e.attempts|, at)) + [at], Some(at))
  }

  lemma SickPollStrikes(s: State, cfg: Config, at: real)
    requires cfg.Loaded() && s.now <= at && GateOpens(s.lastPoll, at) && MayStrike(s.memory, cfg, at)
    requires Counted(s, cfg.threshold - 1)
    ensures Enabled(s, SickPoll(s, at))
    ensures var u := Next(s, cfg, SickPoll(s, at));
      && u.memory == Struck(s.memory, at) && u.file == Some(u.memory) && u.now == at && u.failures == None
      && |u.memory.attempts| <= ATTEMPT_LIMIT && Times(u.restarts) == Times(s.restarts) + [at]
  {
    var clocks := Always(|s.memory.attempts|, at);
    RecentSize(s.memory.attempts, clocks, at);
    var u := Next(s, cfg, SickPoll(s, at));
    hide CountAfter, Recent, Times;
    assert u.restarts == s.restarts + [Restart(at, SOMEONE, |s.seen| + 1)];
    TimesOfAppend(s.restarts, Restart(at, SOMEONE, |s.seen| + 1));
  }

  lemma {:induction false} RecentAreRecent(attempts: seq<real>, clocks: seq<real>, at: real)
    requires |clocks| == |attempts| && forall i :: 0 <= i < |clocks| ==> clocks[i] == at
    ensures forall x :: x in Recent(attempts, clocks) ==> x in attempts && x > at - HOUR
  {
    if attempts != [] {
      RecentAreRecent(attempts[..|attempts| - 1], clocks[..|attempts| - 1], at);
    }
  }

  lemma {:induction false} AllRecent(attempts: seq<real>, clocks: seq<real>, at: real)
    requires |clocks| == |attempts| && forall i :: 0 <= i < |clocks| ==> clocks[i] == at
    requires forall x :: x in attempts ==> x > at - HOUR
    ensures Recent(attempts, clocks) == attempts
  {
    if attempts != [] {
      var n := |attempts| - 1;
      assert attempts == attempts[..n] + [attempts[n]] && attempts[n] in attempts;
      assert forall x :: x in attempts[..n] ==> x in attempts;
      AllRecent(attempts[..n], clocks[..n], at);
    }
  }

  /** The supervisor starts anew and reads its history. */
  function Refresh(s: State, at: real): Step {
    Reload(Always(if s.file.Some? then |LastHundred(s.file.value.attempts)| else 0, at), true, at)
  }

  lemma RefreshForgetsNothing(s: State, cfg: Config, e: Entry, at: real)
    requires s.now == at && s.memory == Struck(e, at) && s.file == Some(s.memory) && |s.memory.attempts| <= ATTEMPT_LIMIT
    ensures Enabled(s, Refresh(s, at))
    ensures var u := Next(s, cfg, Refresh(s, at));
      && u.memory == s.memory && u.now == at && u.failures == None && u.lastPoll == None && u.restarts == s.restarts
  {
    RecentAreRecent(e.attempts, Always(|e.attempts|, at), at);
    AllRecent(s.memory.attempts, Always(|s.memory.attempts|, at), at);
    hide Recent;
  }

  lemma PaceTick(cfg: Config, at: real)
    requires cfg.Loaded()
    ensures Tick(at - Pace(cfg), POLL_SECONDS, cfg.threshold - 1) == at
  {
    TickShift(at - Pace(cfg), POLL_SECONDS, cfg.threshold - 1);
  }

  /** A restart earned by a streak that begins one pace before, and then a crash. */
  lemma Strike(cfg: Config, s: State, t: State, at: real) returns (u: State)
    requires cfg.Loaded() && Leads(cfg, s, t) && t.failures == None && t.lastPoll == None
    requires t.now + Pace(cfg) <= at && MayStrike(t.memory, cfg, at)
    ensures Leads(cfg, s, u) && u.memory == Struck(t.memory, at) && u.now == at
    ensures u.failures == None && u.lastPoll == None && Times(u.restarts) == Times(t.restarts) + [at]
  {
    assert cfg.threshold >= 1;
    hide *;
    var v := CountUp(cfg, s, t, at - Pace(cfg), cfg.threshold - 1);
    PaceTick(cfg, at);
    SickPollStrikes(v, cfg, at);
    assert SickPoll(v, at).PollService? by { PollIsNoReload(v, at); }
    LeadsOn(cfg, s, v, SickPoll(v, at));
    var w := Next(v, cfg, SickPoll(v, at));
    RefreshForgetsNothing(w, cfg, v.memory, at);
    RefreshReads(w, at);
    LeadsOn(cfg, s, w, Refresh(w, at));
    u := Next(w, cfg, Refresh(w, at));
  }

  lemma PollIsNoReload(s: State, at: real)
    ensures SickPoll(s, at).PollService?
  {
  }

  lemma RefreshReads(s: State, at: real)
    ensures Refresh(s, at).Reload? && Refresh(s, at).readable
  {
  }

  function Ticks(start: real, gap: real, n: nat): (ticks: seq<real>)
    ensures |ticks| == n
    ensures forall i :: 0 <= i < n ==> ticks[i] == Tick(start, gap, i)
  {
    if n == 0 then [] else Ticks(start, gap, n - 1) + [Tick(start, gap, n - 1)]
  }

  /** What the memory holds after `n` ticks that followed the entry `e`. */
  ghost predicate Ticked(e: Entry, f: Entry, start: real, gap: real, n: nat) {
    if n == 0 then f == e
    else
      var at := Tick(start, gap, n - 1);
      && f.last == Some(at)
      && (forall x :: x in f.attempts ==> x <= at)
      && (forall cut: real :: cut >= at - HOUR ==> CountAfter(f.attempts, cut) <= CountAfter(e.attempts, cut) + n)
  }

  lemma StruckTicks(e: Entry, f: Entry, start: real, gap: real, n: nat)
    requires gap >= 0.0 && Ticked(e, f, start, gap, n) && forall x :: x in e.attempts ==> x <= start
    ensures Ticked(e, Struck(f, Tick(start, gap, n)), start, gap, n + 1)
  {
    var at := Tick(start, gap, n);
    var clocks := Always(|f.attempts|, at);
    var recent := Recent(f.attempts, clocks);
    RecentAreRecent(f.attempts, clocks, at);
    TickRises(start, gap, 0, n);
    hide CountAfter, Recent;
    forall cut: real | cut >= at - HOUR
      ensures CountAfter(recent + [at], cut) <= CountAfter(e.attempts, cut) + n + 1
    {
      RecentKeepsCount(f.attempts, clocks, cut);
      AppendCounts(recent, at, cut, cut);
    }
  }

  lemma TickMayStrike(e: Entry, f: Entry, cfg: Config, start: real, n: nat)
    requires Ticked(e, f, start, Gap(cfg), n) && RoomFor(e.attempts, start, cfg, n)
    requires cfg.Loaded() && (e.last.Some? ==> start - e.last.value >= cfg.cooldown)
    ensures MayStrike(f, cfg, Tick(start, Gap(cfg), n))
  {
    hide CountAfter, Gap;
  }

  /** From a state whose memory leaves room for them, `n` restarts at the least gap. */
  lemma {:induction false} Burst(cfg: Config, s: State, t: State, start: real, n: nat) returns (u: State)
    requires cfg.Loaded() && Leads(cfg, s, t) && t.failures == None && t.lastPoll == None
    requires t.now + Pace(cfg) <= start
    requires forall x :: x in t.memory.attempts ==> x <= start
    requires t.memory.last.Some? ==> start - t.memory.last.value >= cfg.cooldown
    requires forall j: nat | j < n :: RoomFor(t.memory.attempts, start, cfg, j)
    ensures Leads(cfg, s, u) && u.failures == None && u.lastPoll == None
    ensures u.now == if n == 0 then t.now else Tick(start, Gap(cfg), n - 1)
    ensures Ticked(t.memory, u.memory, start, Gap(cfg), n)
    ensures Times(u.restarts) == Times(t.restarts) + Ticks(start, Gap(cfg), n)
  {
    if n == 0 {
      u := t;
    } else {
      var v := Burst(cfg, s, t, start, n - 1);
      assert RoomFor(t.memory.attempts, start, cfg, n - 1);
      hide Leads, RoomFor, Ticked, Times, Pace, Gap;
      u := NextTick(cfg, s, t, v, start, n - 1);
    }
  }

  lemma NextTick(cfg: Config, s: State, t: State, v: State, start: real, n: nat) returns (u: State)
    requires cfg.Loaded() && Leads(cfg, s, v) && v.failures == None && v.lastPoll == None
    requires if n == 0 then v.now + Pace(cfg) <= start else v.now == Tick(start, Gap(cfg), n - 1)
    requires forall x :: x in t.memory.attempts ==> x <= start
    requires t.memory.last.Some? ==> start - t.memory.last.value >= cfg.cooldown
    requires RoomFor(t.memory.attempts, start, cfg, n) && Ticked(t.memory, v.memory, start, Gap(cfg), n)
    requires Times(v.restarts) == Times(t.restarts) + Ticks(start, Gap(cfg), n)
    ensures Leads(cfg, s, u) && u.failures == None && u.lastPoll == None && u.now == Tick(start, Gap(cfg), n)
    ensures Ticked(t.memory, u.memory, start, Gap(cfg), n + 1)
    ensures Times(u.restarts) == Times(t.restarts) + Ticks(start, Gap(cfg), n + 1)
  {
    var at := Tick(start, Gap(cfg), n);
    assert v.now + Pace(cfg) <= at && Ticks(start, Gap(cfg), n + 1) == Ticks(start, Gap(cfg), n) + [at];
    hide *;
    TickMayStrike(t.memory, v.memory, cfg, start, n);
    StruckTicks(t.memory, v.memory, start, Gap(cfg), n);
    u := Strike(cfg, s, v, at);
  }

  // ------------------------------------------------------------------ which losses are harmful

  lemma {:induction false} CountInAppend(a: seq<real>, b: seq<real>, lo: real, hi: real)
    ensures CountIn(a + b, lo, hi) == CountIn(a, lo, hi) + CountIn(b, lo, hi)
  {
    if b == [] {
      assert a + b == a;
    } else {
      var n := |b| - 1;
      assert (a + b)[..|a + b| - 1] == a + b[..n];
      CountInAppend(a, b[..n], lo, hi);
    }
  }

  lemma {:induction false} CountAllIn(times: seq<real>, lo: real, hi: real)
    requires forall i :: 0 <= i < |times| ==> lo < times[i] <= hi
    ensures CountIn(times, lo, hi) == |times|
  {
    if times != [] {
      CountAllIn(times[..|times| - 1], lo, hi);
    }
  }

  /** Restarts at every tick together with those without room exceed the budget. */
  lemma NoRoomExceeds(times: seq<real>, now: real, cfg: Config, start: real, j: nat)
    requires cfg.Loaded() && Sorted(times, now) && now <= start && j < cfg.maxPerHour
    requires !RoomFor(times, start, cfg, j)
    ensures !HourlyBudget(times + Ticks(start, Gap(cfg), j + 1), cfg.maxPerHour)
  {
    var w, gap := Tick(start, Gap(cfg), j), Gap(cfg);
    var ticks := Ticks(start, gap, j + 1);
    if start <= w - HOUR {
      NothingAfter(times, w - HOUR);
    }
    forall i | 0 <= i < j + 1 ensures w - HOUR < ticks[i] <= w {
      TickRises(start, gap, i, j);
      TickRises(start, gap, 0, i);
    }
    TickRises(start, gap, 0, j);
    hide CountIn, CountAfter, Tick, Ticks, Gap;
    AllAreBefore(times, w - HOUR, w);
    CountAllIn(ticks, w - HOUR, w);
    CountInAppend(times, ticks, w - HOUR, w);
    assert InHourUpTo(times + ticks, w) > cfg.maxPerHour;
  }

  lemma RoomInNoHistory(start: real, cfg: Config, j: nat)
    requires j < cfg.maxPerHour
    ensures RoomFor([], start, cfg, j)
  {
  }

  /** Restarts that cannot be forgotten are soon part of a broken promise. */
  lemma ForgottenBreaks(s: State, cfg: Config)
    requires cfg.Loaded() && s.memory == NO_HISTORY && s.failures == None && s.lastPoll == None
    requires Sorted(Times(s.restarts), s.now) && Promises(Times(s.restarts), cfg)
    requires !Forgettable(Times(s.restarts), s.now, cfg)
    ensures !KeepsPromises(cfg, s)
  {
    var times, first := Times(s.restarts), s.now + Pace(cfg);
    LeadsHere(cfg, s);
    forall j: nat | j < cfg.maxPerHour ensures RoomFor([], first, cfg, j) {
      RoomInNoHistory(first, cfg, j);
    }
    hide Leads, KeepsPromises, RoomFor, Times, Ticked, Sorted, Pace, Gap;
    SortedLater(times, s.now, first);
    if !Settled(times, first, cfg.cooldown) {
      var u := Burst(cfg, s, s, first, 1);
      assert Times(u.restarts) == times + [first];
      hide Promises;
      AppendKeepsPromisesIff(times, cfg, first);
      BrokenAhead(cfg, s, u);
    } else {
      var j: nat :| j < cfg.maxPerHour && !RoomFor(times, first, cfg, j);
      var u := Burst(cfg, s, s, first, j + 1);
      hide Settled, Ticks;
      NoRoomExceeds(times, s.now, cfg, first, j);
      BrokenAhead(cfg, s, u);
    }
  }

  /** A reload that cannot read the history keeps the promises in every continuation if and
      only if a full streak later the last restart is a cooldown ago, and from then on the
      restarts still in the hour leave room at every tick of a series at the least gap. */
  lemma LossIsHarmlessIff(s: State, cfg: Config, step: Step)
    requires cfg.Loaded() && BudgetInv(s, cfg) && Enabled(s, step) && step.Reload? && !step.readable
    ensures KeepsPromises(cfg, Next(s, cfg, step)) <==> Forgettable(Times(s.restarts), step.end, cfg)
  {
    var u := Next(s, cfg, step);
    AfterLoss(s, cfg, step);
    InvParts(s, cfg);
    hide *;
    if Forgettable(Times(s.restarts), step.end, cfg) {
      HarmlessByForgetting(s, cfg, step);
      NextKeepsBudget(s, cfg, step);
      HoldsAlways(u, cfg);
    } else {
      SortedLater(Times(s.restarts), Since(s), step.end);
      ForgottenBreaks(u, cfg);
    }
  }

  lemma HarmlessByForgetting(s: State, cfg: Config, step: Step)
    requires step.Reload? && Forgettable(Times(s.restarts), step.end, cfg)
    ensures LossIsHarmless(s, cfg, step)
  {
  }

  lemma AfterLoss(s: State, cfg: Config, step: Step)
    requires Enabled(s, step) && step.Reload? && !step.readable
    ensures var u := Next(s, cfg, step);
      u.restarts == s.restarts && u.now == step.end >= s.now && u.memory == NO_HISTORY && u.failures == None &&
      u.lastPoll == None
  {
  }

  lemma HoldsAlways(s: State, cfg: Config)
    requires cfg.Loaded() && BudgetInv(s, cfg)
    ensures KeepsPromises(cfg, s)
  {
    hide Continues, LossesHarmless, FileKnows, Knows;
    forall states: seq<State>, steps: seq<Step>, k: nat |
      Continues(cfg, s, states, steps) && LossesHarmless(cfg, states, steps)
      ensures Kept(cfg, states, k)
    {
      assert |states| == |steps| + 1 by { RunLength(cfg, s, states, steps); }
      if k < |states| {
        InvKeepsPromises(cfg, s, states, steps, k);
      }
    }
  }

  lemma RunLength(cfg: Config, s: State, states: seq<State>, steps: seq<Step>)
    requires Continues(cfg, s, states, steps)
    ensures |states| == |steps| + 1
  {
  }

  /** A reload that cannot read the history. */
  function Lose(s: State, at: real): Step {
    Reload(Always(if s.file.Some? then |LastHundred(s.file.value.attempts)| else 0, at), false, at)
  }

  lemma LoseForgets(s: State, cfg: Config, at: real)
    requires s.now <= at
    ensures Enabled(s, Lose(s, at))
    ensures var u := Next(s, cfg, Lose(s, at));
      u.memory == NO_HISTORY && u.failures == None && u.lastPoll == None && u.restarts == s.restarts && u.now == at
  {
  }

  lemma TwoTimes(a: real, b: real)
    requires a == 0.0 && b == 10.0
    ensures CountIn(([] + [a]) + [b], 10.0 - HOUR, 10.0) == 2
  {
    AppendCounts([] + [a], b, 10.0 - HOUR, 10.0);
    AppendCounts([], a, 10.0 - HOUR, 10.0);
  }

  lemma ThreeSteps(cfg: Config, s: State, a: Step, b: Step, c: Step) returns (states: seq<State>, steps: seq<Step>)
    requires Begins(s) && Enabled(s, a) && Enabled(Next(s, cfg, a), b) && Enabled(Next(Next(s, cfg, a), cfg, b), c)
    ensures IsRun(cfg, states, steps) && |steps| == 3
    ensures states[3] == Next(Next(Next(s, cfg, a), cfg, b), cfg, c)
  {
    hide Begins, Enabled, Next;
    var t := Next(s, cfg, a);
    var u := Next(t, cfg, b);
    states, steps := [s, t, u, Next(u, cfg, c)], [a, b, c];
  }

  /** An unreadable history file empties the budget: two restarts ten seconds apart with a
      budget of one an hour. */
  lemma LostHistoryBreaksBudget() returns (cfg: Config, states: seq<State>, steps: seq<Step>)
    ensures cfg.Loaded() && IsRun(cfg, states, steps)
    ensures CountIn(Times(states[|steps|].restarts), 10.0 - HOUR, 10.0) == 2 > cfg.maxPerHour
  {
    cfg := Config(1, 0.0, 1);
    var s0 := State(NO_HISTORY, None, None, None, 0.0, 0.0, [], []);
    assert MayStrike(NO_HISTORY, cfg, 0.0) && MayStrike(NO_HISTORY, cfg, 10.0) && Begins(s0) && Times([]) == [];
    hide Next, Enabled, SickPoll, Lose, CountIn, MayStrike, Struck, Times, Pace;
    SickPollStrikes(s0, cfg, 0.0);
    var s1 := Next(s0, cfg, SickPoll(s0, 0.0));
    LoseForgets(s1, cfg, 1.0);
    var s2 := Next(s1, cfg, Lose(s1, 1.0));
    SickPollStrikes(s2, cfg, 10.0);
    var s3 := Next(s2, cfg, SickPoll(s2, 10.0));
    hide Begins, IsRun;
    states, steps := ThreeSteps(cfg, s0, SickPoll(s0, 0.0), Lose(s1, 1.0), SickPoll(s2, 10.0));
    TwoTimes(0.0, 10.0);
  }

  // ------------------------------------------------------------------ the closed hour

  /** How many of the times lie in the closed window. */
  function CountClosed(times: seq<real>, lo: real, hi: real): nat {
    if times == [] then 0
    else CountClosed(times[..|times| - 1], lo, hi) + if lo <= times[|times| - 1] <= hi then 1 else 0
  }

  function CountAt(times: seq<real>, x: real): nat {
    if times == [] then 0
    else CountAt(times[..|times| - 1], x) + if times[|times| - 1] == x then 1 else 0
  }

  lemma {:induction false} ClosedSplit(times: seq<real>, lo: real, hi: real)
    requires lo < hi
    ensures CountClosed(times, lo, hi) == CountIn(times, lo, hi) + CountAt(times, lo)
    ensures CountAt(times, lo) <= CountIn(times, lo - HOUR, lo)
  {
    if times != [] {
      ClosedSplit(times[..|times| - 1], lo, hi);
    }
  }

  lemma {:induction false} NoneAt(times: seq<real>, x: real)
    requires forall i :: 0 <= i < |times| ==> times[i] < x
    ensures CountAt(times, x) == 0
  {
    if times != [] {
      NoneAt(times[..|times| - 1], x);
    }
  }

  lemma {:induction false} OnceAt(times: seq<real>, x: real, cooldown: real)
    requires cooldown > 0.0 && SpacedBy(times, cooldown)
    ensures CountAt(times, x) <= 1
  {
    if times != [] {
      var n := |times| - 1;
      assert forall i :: 0 <= i < n ==> times[i] < times[n];
      if times[n] == x {
        NoneAt(times[..n], x);
      } else {
        OnceAt(times[..n], x, cooldown);
      }
    }
  }

  lemma {:induction false} ClosedTo(times: seq<real>, lo: real, hi: real, last: real)
    requires last <= hi && forall i :: 0 <= i < |times| ==> times[i] <= last
    ensures CountClosed(times, lo, hi) == CountClosed(times, lo, last)
  {
    if times != [] {
      ClosedTo(times[..|times| - 1], lo, hi, last);
    }
  }

  /** Times a cooldown apart need that much room in the window. */
  lemma {:induction false} WindowIsLong(times: seq<real>, lo: real, hi: real, cooldown: real)
    requires cooldown >= 0.0 && SpacedBy(times, cooldown) && CountClosed(times, lo, hi) > 0
    ensures Tick(lo, cooldown, CountClosed(times, lo, hi) - 1) <= hi
  {
    var n := |times| - 1;
    var rest, t := times[..n], times[n];
    if lo <= t <= hi {
      assert forall i :: 0 <= i < n ==> rest[i] <= t - cooldown;
      ClosedTo(rest, lo, hi, t - cooldown);
      if CountClosed(rest, lo, hi) > 0 {
        WindowIsLong(rest, lo, t - cooldown, cooldown);
      }
    } else {
      WindowIsLong(rest, lo, hi, cooldown);
    }
  }

  /** The most restarts at the least gap, up to `n`, that fit into a closed hour. */
  function MostTicks(gap: real, n: nat): (most: nat)
    ensures most <= n
    ensures most > 0 ==> Tick(0.0, gap, most - 1) <= HOUR
    ensures n > 0 ==> most > 0
  {
    if n <= 1 || Tick(0.0, gap, n - 1) <= HOUR then n else MostTicks(gap, n - 1)
  }

  lemma {:induction false} MostIsMost(gap: real, n: nat, k: nat)
    requires gap >= 0.0 && k <= n && (k > 0 ==> Tick(0.0, gap, k - 1) <= HOUR)
    ensures k <= MostTicks(gap, n)
  {
    if n > 1 && Tick(0.0, gap, n - 1) > HOUR {
      MostIsMost(gap, n - 1, k);
    }
  }

  /** What a closed hour can hold: as many restarts at the least gap as fit, but one more than
      the budget at most; without any gap twice the budget. */
  function ClosedBound(cfg: Config): nat {
    if Gap(cfg) > 0.0 then MostTicks(Gap(cfg), cfg.maxPerHour + 1) else 2 * cfg.maxPerHour
  }

  lemma PromisesBoundClosed(times: seq<real>, cfg: Config, lo: real, hi: real)
    requires cfg.Loaded() && Promises(times, cfg) && SpacedBy(times, Pace(cfg)) && hi == lo + HOUR
    ensures CountClosed(times, lo, hi) <= ClosedBound(cfg)
  {
    ClosedSplit(times, lo, hi);
    assert InHourUpTo(times, hi) <= cfg.maxPerHour && InHourUpTo(times, lo) <= cfg.maxPerHour;
    assert SpacedBy(times, Gap(cfg));
    if Gap(cfg) > 0.0 {
      OnceAt(times, lo, Gap(cfg));
      FitsIntoHour(times, cfg, lo, hi);
    }
  }

  lemma FitsIntoHour(times: seq<real>, cfg: Config, lo: real, hi: real)
    requires SpacedBy(times, Gap(cfg)) && Gap(cfg) > 0.0 && hi == lo + HOUR
    requires CountClosed(times, lo, hi) <= cfg.maxPerHour + 1
    ensures CountClosed(times, lo, hi) <= MostTicks(Gap(cfg), cfg.maxPerHour + 1)
  {
    var n := CountClosed(times, lo, hi);
    if n > 0 {
      WindowIsLong(times, lo, hi, Gap(cfg));
      hide CountClosed, Tick, SpacedBy, MostTicks, Gap;
      TickShift(lo, Gap(cfg), n - 1);
      MostIsMost(Gap(cfg), cfg.maxPerHour + 1, n);
    }
  }

  /** In every run a closed hour holds no more than that of the restarts since the last harmful
      loss of history. */
  lemma ClosedHourBound(cfg: Config, states: seq<State>, steps: seq<Step>, k: nat, w: real)
    requires cfg.Loaded() && IsRun(cfg, states, steps) && k <= |steps|
    ensures var c := Forgotten(cfg, states, steps, k);
      CountClosed(Times(states[k].restarts[c..]), w - HOUR, w) <= ClosedBound(cfg)
  {
    assert k < |states|;
    hide *;
    var c := Forgotten(cfg, states, steps, k);
    RunKeepsBudget(cfg, states, steps, k);
    DropRestarts(states[k], c);
    InvParts(Drop(states[k], c), cfg);
    PromisesBoundClosed(Times(states[k].restarts[c..]), cfg, w - HOUR, w);
  }

  lemma DropRestarts(s: State, c: nat)
    requires c <= |s.restarts|
    ensures Drop(s, c).restarts == s.restarts[c..]
  {
  }

  lemma {:induction false} AllInClosed(times: seq<real>, lo: real, hi: real)
    requires forall i :: 0 <= i < |times| ==> lo <= times[i] <= hi
    ensures CountClosed(times, lo, hi) == |times|
  {
    if times != [] {
      AllInClosed(times[..|times| - 1], lo, hi);
    }
  }

  /** A first life of the supervisor, begun so that a full streak can end at time zero. */
  function First(cfg: Config): State {
    State(NO_HISTORY, None, None, None, 0.0 - Pace(cfg), 0.0, [], [])
  }

  lemma FirstTicks(cfg: Config, n: nat) returns (u: State)
    requires cfg.Loaded() && n <= cfg.maxPerHour
    ensures Leads(cfg, First(cfg), u) && u.failures == None && u.lastPoll == None
    ensures Times(u.restarts) == Ticks(0.0, Gap(cfg), n)
    ensures u.now == if n == 0 then 0.0 - Pace(cfg) else Tick(0.0, Gap(cfg), n - 1)
    ensures Ticked(NO_HISTORY, u.memory, 0.0, Gap(cfg), n)
  {
    var s := First(cfg);
    LeadsHere(cfg, s);
    forall j: nat | j < n ensures RoomFor([], 0.0, cfg, j) {
      RoomInNoHistory(0.0, cfg, j);
    }
    assert Times([]) == [];
    hide Leads, RoomFor, Ticked, Pace, Gap, Times;
    u := Burst(cfg, s, s, 0.0, n);
    assert [] + Ticks(0.0, Gap(cfg), n) == Ticks(0.0, Gap(cfg), n);
  }

  lemma {:induction false} NoCooldownTick(start: real, n: nat)
    ensures Tick(start, 0.0, n) == start
  {
    if n > 0 {
      NoCooldownTick(start, n - 1);
    }
  }

  lemma OldAttempts(attempts: seq<real>, at: real)
    requires forall x :: x in attempts ==> x <= at
    ensures CountAfter(attempts, at) == 0
  {
    assert forall i :: 0 <= i < |attempts| ==> attempts[i] in attempts;
    NothingAfter(attempts, at);
  }

  /** Without any gap: the whole budget at the start of the hour and again at its end. */
  lemma TwiceTheBudget(cfg: Config) returns (u: State)
    requires cfg.Loaded() && Gap(cfg) == 0.0
    ensures Leads(cfg, First(cfg), u) && CountClosed(Times(u.restarts), 0.0, HOUR) == 2 * cfg.maxPerHour
  {
    var n := cfg.maxPerHour;
    var v := FirstTicks(cfg, n);
    NoCooldownTick(0.0, n - 1);
    assert v.now == 0.0 && Pace(cfg) == 0.0;
    forall j: nat | j < n ensures RoomFor(v.memory.attempts, HOUR, cfg, j) {
      NoCooldownTick(HOUR, j);
      OldAttempts(v.memory.attempts, 0.0);
    }
    hide Leads, RoomFor, CountAfter, Pace, Gap;
    u := Burst(cfg, First(cfg), v, HOUR, n);
    var times := Times(u.restarts);
    hide Ticked, Times;
    forall i | 0 <= i < |times| ensures 0.0 <= times[i] <= HOUR {
      NoCooldownTick(0.0, i);
      NoCooldownTick(HOUR, if i < n then 0 else i - n);
    }
    AllInClosed(times, 0.0, HOUR);
  }

  /** The series of `n` ticks that ends at the end of the hour. */
  lemma LateTicks(gap: real, n: nat) returns (start: real)
    requires gap > 0.0 && n > 0 && Tick(0.0, gap, n) <= HOUR
    ensures start >= gap && Tick(start, gap, n - 1) == HOUR
    ensures forall j: nat | j < n :: gap <= Tick(start, gap, j) <= HOUR
    ensures forall j: nat | j < n - 1 :: Tick(start, gap, j) < HOUR
  {
    start := HOUR - Tick(0.0, gap, n - 1);
    TickShift(start, gap, n - 1);
    forall j: nat | j < n
      ensures gap <= Tick(start, gap, j) <= HOUR
      ensures j < n - 1 ==> Tick(start, gap, j) < HOUR
    {
      TickRises(start, gap, 0, j);
      TickRises(start, gap, j, n - 1);
      if j < n - 1 {
        TickRises(start, gap, j + 1, n - 1);
      }
    }
  }

  /** If there is room for one more: one restart at the start of the hour, the budget up to
      its end. */
  lemma OneMoreThanTheBudget(cfg: Config) returns (u: State)
    requires cfg.Loaded() && Gap(cfg) > 0.0 && Tick(0.0, Gap(cfg), cfg.maxPerHour) <= HOUR
    ensures Leads(cfg, First(cfg), u) && CountClosed(Times(u.restarts), 0.0, HOUR) == cfg.maxPerHour + 1
  {
    var n := cfg.maxPerHour;
    var v := FirstTicks(cfg, 1);
    var start := LateTicks(Gap(cfg), n);
    assert v.now == Tick(0.0, Gap(cfg), 0) == 0.0;
    assert Times(v.restarts) == [0.0];
    forall j: nat | j < n ensures RoomFor(v.memory.attempts, start, cfg, j) {
      LateRoom(v.memory, cfg, start, j);
    }
    hide Leads, RoomFor, CountAfter, Pace, Gap;
    u := Burst(cfg, First(cfg), v, start, n);
    var times := Times(u.restarts);
    hide Ticked, Times, Tick;
    AllInClosed(times, 0.0, HOUR);
  }

  /** Otherwise: as many as fit, from the start of the hour on. */
  lemma AsManyAsFit(cfg: Config, n: nat) returns (u: State)
    requires cfg.Loaded() && 0 < n <= cfg.maxPerHour && Tick(0.0, Gap(cfg), n - 1) <= HOUR
    ensures Leads(cfg, First(cfg), u) && CountClosed(Times(u.restarts), 0.0, HOUR) == n
  {
    u := FirstTicks(cfg, n);
    var times := Times(u.restarts);
    hide Leads, Ticked, Times, Pace, Gap;
    forall i | 0 <= i < |times| ensures 0.0 <= times[i] <= HOUR {
      TickRises(0.0, Gap(cfg), 0, i);
      TickRises(0.0, Gap(cfg), i, n - 1);
    }
    AllInClosed(times, 0.0, HOUR);
  }

  lemma LateRoom(e: Entry, cfg: Config, start: real, j: nat)
    requires cfg.Loaded() && Ticked(NO_HISTORY, e, 0.0, Gap(cfg), 1) && j < cfg.maxPerHour
    requires 0.0 <= Tick(start, Gap(cfg), j) <= HOUR
    requires j < cfg.maxPerHour - 1 || Tick(start, Gap(cfg), j) == HOUR
    ensures RoomFor(e.attempts, start, cfg, j)
  {
    assert Tick(0.0, Gap(cfg), 0) == 0.0;
    OldAttempts(e.attempts, 0.0);
    var cut := Tick(start, Gap(cfg), j) - HOUR;
    assert CountAfter(e.attempts, cut) <= CountAfter([], cut) + 1;
  }

  /** The bound is exact for every configuration: some run, in which the supervisor may crash
      after each restart, fills a closed hour up to it. */
  lemma ClosedHourAttained(cfg: Config) returns (states: seq<State>, steps: seq<Step>)
    requires cfg.Loaded()
    ensures IsRun(cfg, states, steps) && LossesHarmless(cfg, states, steps)
    ensures CountClosed(Times(states[|steps|].restarts), 0.0, HOUR) == ClosedBound(cfg)
  {
    var u := FullHour(cfg);
    states, steps :| Path(cfg, First(cfg), states, steps, u);
    hide Enabled, Next, Times, CountClosed, Forgettable, ClosedBound;
  }

  lemma FullHour(cfg: Config) returns (u: State)
    requires cfg.Loaded()
    ensures Leads(cfg, First(cfg), u) && CountClosed(Times(u.restarts), 0.0, HOUR) == ClosedBound(cfg)
  {
    var most := MostTicks(Gap(cfg), cfg.maxPerHour + 1);
    hide Leads, Times, CountClosed, MostTicks, Gap, Tick;
    if Gap(cfg) <= 0.0 {
      u := TwiceTheBudget(cfg);
    } else if most == cfg.maxPerHour + 1 {
      u := OneMoreThanTheBudget(cfg);
    } else {
      u := AsManyAsFit(cfg, most);
    }
  }
}
