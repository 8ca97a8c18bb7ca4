/** When the recovery automaton restarts: exactly when everything it looks at says so. */
module RecoveryReasons {
  import opened Wrappers
  import opened Recovery
  import opened RecoveryPace
  import opened RecoveryProperties

  // ------------------------------------------------------------------ the reference

  /** The poll finds the service unhealthy and knows which process it is. */
  predicate Observes(p: Poll) {
    !p.busy && p.eligible && p.identityKnown && p.firstProbe == Unhealthy
  }

  /** This poll and the ones right before it make `threshold` observations of the process,
      with nothing in between. */
  ghost predicate FullStreak(seen: seq<Seen>, threshold: nat, identity: Identity) {
    threshold <= |seen| + 1 && forall m :: |seen| + 1 - threshold <= m < |seen| ==> seen[m] == SeenUnhealthy(identity)
  }

  /** Under the locks the process is still the same before and after a second unhealthy
      probe. */
  predicate Confirmed(p: Poll) {
    !p.guardRaises && p.identityKept && p.secondProbe == Unhealthy && p.identityStill
  }

  /** The attempts of the last hour, each against its own clock reading. */
  ghost function InHour(attempts: seq<real>, clocks: seq<real>): set<nat>
    requires |clocks| == |attempts|
  {
    set i: nat | i < |attempts| && attempts[i] > clocks[i] - HOUR
  }

  ghost predicate BudgetLeft(cfg: Config, e: Entry, p: Poll)
    requires |p.filterReads| == |e.attempts|
  {
    |InHour(e.attempts, p.filterReads)| < cfg.maxPerHour &&
    (e.last.Some? ==> p.checkRead - e.last.value >= cfg.cooldown)
  }

  /** The poll records an attempt. */
  ghost predicate Attempts(s: State, cfg: Config, p: Poll)
    requires |p.filterReads| == |s.memory.attempts|
  {
    Observes(p) && FullStreak(s.seen, cfg.threshold, p.identity) && Confirmed(p) && BudgetLeft(cfg, s.memory, p)
  }

  // ------------------------------------------------------------------ the hour

  /** The times of those attempts. */
  ghost function TimesInHour(attempts: seq<real>, clocks: seq<real>): set<real>
    requires |clocks| == |attempts|
  {
    set i: nat | i in InHour(attempts, clocks) :: attempts[i]
  }

  function Elements(times: seq<real>): set<real> {
    set x | x in times
  }

  lemma OneAttemptMore(attempts: seq<real>, clocks: seq<real>)
    requires |clocks| == |attempts| > 0
    ensures var n := |attempts| - 1;
      var before := InHour(attempts[..n], clocks[..n]);
      && n !in before
      && InHour(attempts, clocks) == (if attempts[n] > clocks[n] - HOUR then before + {n} else before)
      && TimesInHour(attempts, clocks) ==
         TimesInHour(attempts[..n], clocks[..n]) + if attempts[n] > clocks[n] - HOUR then {attempts[n]} else {}
  {
    var n := |attempts| - 1;
    var all, before := InHour(attempts, clocks), InHour(attempts[..n], clocks[..n]);
    assert all == if attempts[n] > clocks[n] - HOUR then before + {n} else before;
    var times, earlier := TimesInHour(attempts, clocks), TimesInHour(attempts[..n], clocks[..n]);
    forall x ensures x in times <==> x in earlier || (attempts[n] > clocks[n] - HOUR && x == attempts[n]) {
      if x in earlier {
        var i: nat :| i in before && attempts[..n][i] == x;
        assert i in all && attempts[i] == x;
      }
      if x in times {
        var i: nat :| i in all && attempts[i] == x;
        assert i < n ==> i in before && attempts[..n][i] == x;
      }
      if attempts[n] > clocks[n] - HOUR {
        assert n in all;
      }
    }
  }

  lemma {:induction false} RecentIsInHour(attempts: seq<real>, clocks: seq<real>)
    requires |clocks| == |attempts|
    ensures |Recent(attempts, clocks)| == |InHour(attempts, clocks)|
    ensures Elements(Recent(attempts, clocks)) == TimesInHour(attempts, clocks)
  {
    if attempts == [] {
      assert InHour(attempts, clocks) == {} && Recent(attempts, clocks) == [];
    } else {
      var n := |attempts| - 1;
      RecentIsInHour(attempts[..n], clocks[..n]);
      OneAttemptMore(attempts, clocks);
      RecentOneMore(attempts, clocks);
      hide *;
    }
  }

  lemma RecentOneMore(attempts: seq<real>, clocks: seq<real>)
    requires |clocks| == |attempts| > 0
    ensures var n := |attempts| - 1;
      var rest := Recent(attempts[..n], clocks[..n]);
      var all := Recent(attempts, clocks);
      if attempts[n] > clocks[n] - HOUR
      then |all| == |rest| + 1 && Elements(all) == Elements(rest) + {attempts[n]}
      else |all| == |rest| && Elements(all) == Elements(rest)
  {
    var n := |attempts| - 1;
    var rest := Recent(attempts[..n], clocks[..n]);
    assert rest + [] == rest;
  }

  // ------------------------------------------------------------------ the streak

  /** The streak counts all observations of its process at the end of the record, and there is
      none if the record ends with anything else. */
  ghost predicate StreakIsWhole(s: State) {
    match s.failures
    case None => s.seen == [] || s.seen[|s.seen| - 1] == Cleared
    case Some(f) =>
      && 1 <= f.count <= |s.seen|
      && (forall m :: |s.seen| - f.count <= m < |s.seen| ==> s.seen[m] == SeenUnhealthy(f.identity))
      && (f.count < |s.seen| ==> s.seen[|s.seen| - f.count - 1] != SeenUnhealthy(f.identity))
  }

  lemma CountIsStreak(s: State, threshold: nat, identity: Identity)
    requires StreakIsWhole(s) && threshold >= 1
    ensures NextCount(s, identity) >= threshold <==> FullStreak(s.seen, threshold, identity)
  {
    var n := |s.seen|;
    if FullStreak(s.seen, threshold, identity) && threshold > 1 {
      assert s.seen[n - 1] == SeenUnhealthy(identity);
    }
  }

  lemma ClearIsWhole(s: State, t: State)
    requires t.failures == None && t.seen == s.seen + [Cleared]
    ensures StreakIsWhole(t)
  {
  }

  lemma CountIsWhole(s: State, t: State, identity: Identity)
    requires StreakIsWhole(s) && t.seen == s.seen + [SeenUnhealthy(identity)]
    requires t.failures == Some(Streak(identity, NextCount(s, identity)))
    ensures StreakIsWhole(t)
  {
  }

  // ------------------------------------------------------------------ one poll

  /** What the poll adds to the record. */
  ghost function Seeing(s: State, cfg: Config, p: Poll): seq<Seen>
    requires |p.filterReads| == |s.memory.attempts|
  {
    if !Observes(p) then [Cleared]
    else if FullStreak(s.seen, cfg.threshold, p.identity) && (!Confirmed(p) || BudgetLeft(cfg, s.memory, p))
    then [SeenUnhealthy(p.identity), Cleared]
    else [SeenUnhealthy(p.identity)]
  }

  /** An attempt leaves those of the hour and itself. */
  ghost predicate AttemptRecorded(before: Entry, p: Poll, e: Entry)
    requires |p.filterReads| == |before.attempts|
  {
    && e.last == Some(p.lastRead)
    && e.attempts != [] && e.attempts[|e.attempts| - 1] == p.appendRead
    && |e.attempts| == |InHour(before.attempts, p.filterReads)| + 1
    && Elements(e.attempts[..|e.attempts| - 1]) == TimesInHour(before.attempts, p.filterReads)
  }

  /** The entry after a poll. */
  ghost predicate EntryAfter(s: State, cfg: Config, p: Poll, e: Entry)
    requires |p.filterReads| == |s.memory.attempts|
  {
    if Attempts(s, cfg, p) then AttemptRecorded(s.memory, p, e) else e == s.memory
  }

  lemma PollIsReasoned(s: State, cfg: Config, p: Poll)
    requires cfg.Loaded() && StreakIsWhole(s) && |p.filterReads| == |s.memory.attempts|
    requires GateOpens(s.lastPoll, p.gateRead)
    ensures var t := PollStep(s, cfg, p);
      && t.seen == s.seen + Seeing(s, cfg, p)
      && t.restarts == s.restarts + (if Attempts(s, cfg, p) && p.persisted
                                     then [Restart(p.appendRead, p.identity, |s.seen| + 1)] else [])
      && EntryAfter(s, cfg, p, t.memory)
      && t.file == (if Attempts(s, cfg, p) && p.persisted then Some(t.memory) else s.file)
      && StreakIsWhole(t)
  {
    CountIsStreak(s, cfg.threshold, p.identity);
    StreakAfter(s, cfg, p);
    var counted := Counted(s, p);
    hide *;
    if !Observes(p) {
      PollClears(s, cfg, p);
      assert s.restarts + [] == s.restarts;
    } else {
      PollCounts(s, cfg, p);
      RequestIsReasoned(counted, cfg, p);
      SeeingOf(s, cfg, p);
      CountedKeeps(s, p);
    }
  }

  /** The state once the poll has counted its observation. */
  function Counted(s: State, p: Poll): State {
    s.(lastPoll := Some(p.gateRead), failures := Some(Streak(p.identity, NextCount(s, p.identity))),
       seen := s.seen + [SeenUnhealthy(p.identity)],
       begun := if NextCount(s, p.identity) == 1 then p.gateRead else s.begun)
  }

  lemma PollClears(s: State, cfg: Config, p: Poll)
    requires |p.filterReads| == |s.memory.attempts| && GateOpens(s.lastPoll, p.gateRead) && !Observes(p)
    ensures PollStep(s, cfg, p) == Clear(s.(lastPoll := Some(p.gateRead)))
    ensures Clear(s.(lastPoll := Some(p.gateRead))).seen == s.seen + Seeing(s, cfg, p)
    ensures var t := Clear(s.(lastPoll := Some(p.gateRead)));
      t.restarts == s.restarts && t.file == s.file && EntryAfter(s, cfg, p, t.memory) && !Attempts(s, cfg, p)
  {
  }

  lemma PollCounts(s: State, cfg: Config, p: Poll)
    requires |p.filterReads| == |s.memory.attempts| && GateOpens(s.lastPoll, p.gateRead) && Observes(p)
    ensures PollStep(s, cfg, p) ==
      if NextCount(s, p.identity) < cfg.threshold then Counted(s, p)
      else if !Confirmed(p) then Clear(Counted(s, p))
      else RequestStep(Counted(s, p), cfg, p)
  {
    hide RequestStep;
  }

  lemma CountedKeeps(s: State, p: Poll)
    ensures var t := Counted(s, p);
      && t.memory == s.memory && t.file == s.file && t.restarts == s.restarts
      && t.seen == s.seen + [SeenUnhealthy(p.identity)] && |t.seen| == |s.seen| + 1
      && Clear(t).memory == s.memory && Clear(t).file == s.file && Clear(t).restarts == s.restarts
      && Clear(t).seen == s.seen + [SeenUnhealthy(p.identity), Cleared]
      && s.restarts + [] == s.restarts
  {
  }

  lemma RequestIsReasoned(s: State, cfg: Config, p: Poll)
    requires |p.filterReads| == |s.memory.attempts| && cfg.Loaded()
    ensures var t := RequestStep(s, cfg, p);
      if BudgetLeft(cfg, s.memory, p) then
        && t.seen == s.seen + [Cleared] && AttemptRecorded(s.memory, p, t.memory)
        && t.file == (if p.persisted then Some(t.memory) else s.file)
        && t.restarts == s.restarts + if p.persisted then [Restart(p.appendRead, p.identity, |s.seen|)] else []
      else t == s
  {
    RecentIsInHour(s.memory.attempts, p.filterReads);
    var recent := Recent(s.memory.attempts, p.filterReads);
    assert (recent + [p.appendRead])[..|recent|] == recent;
    assert s.restarts + [] == s.restarts;
    hide Recent, InHour, TimesInHour, Elements;
  }

  lemma SeeingOf(s: State, cfg: Config, p: Poll)
    requires |p.filterReads| == |s.memory.attempts| && Observes(p)
    ensures var full := FullStreak(s.seen, cfg.threshold, p.identity);
      && (Attempts(s, cfg, p) <==> full && Confirmed(p) && BudgetLeft(cfg, s.memory, p))
      && (!full || (Confirmed(p) && !BudgetLeft(cfg, s.memory, p)) ==> Seeing(s, cfg, p) == [SeenUnhealthy(p.identity)])
      && (full && (!Confirmed(p) || BudgetLeft(cfg, s.memory, p)) ==>
            Seeing(s, cfg, p) == [SeenUnhealthy(p.identity), Cleared])
      && (s.seen + [SeenUnhealthy(p.identity)]) + [Cleared] == s.seen + [SeenUnhealthy(p.identity), Cleared]
    ensures forall e :: EntryAfter(s, cfg, p, e) <==>
      if Attempts(s, cfg, p) then AttemptRecorded(s.memory, p, e) else e == s.memory
  {
    hide FullStreak, BudgetLeft, Confirmed, AttemptRecorded;
  }

  lemma StreakAfter(s: State, cfg: Config, p: Poll)
    requires StreakIsWhole(s) && |p.filterReads| == |s.memory.attempts|
    ensures StreakIsWhole(PollStep(s, cfg, p))
  {
    var t := PollStep(s, cfg, p);
    PollShape(s, cfg, p);
    hide PollStep, NextCount;
    if t.seen == s.seen + [SeenUnhealthy(p.identity)] && t.failures.Some? {
      CountIsWhole(s, t, p.identity);
    }
  }

  lemma PollShape(s: State, cfg: Config, p: Poll)
    requires |p.filterReads| == |s.memory.attempts|
    ensures var t := PollStep(s, cfg, p);
      || (t.failures == s.failures && t.seen == s.seen)
      || (t.failures == None && t.seen != [] && t.seen[|t.seen| - 1] == Cleared)
      || (t.failures == Some(Streak(p.identity, NextCount(s, p.identity))) &&
          t.seen == s.seen + [SeenUnhealthy(p.identity)])
  {
    hide Recent, LastHundred;
  }

  lemma NextKeepsWhole(s: State, cfg: Config, step: Step)
    requires StreakIsWhole(s) && Enabled(s, step)
    ensures StreakIsWhole(Next(s, cfg, step))
  {
    if step.PollService? {
      StreakAfter(s, cfg, step.poll);
    }
    hide PollStep;
  }

  lemma {:induction false} RunKeepsWhole(cfg: Config, states: seq<State>, steps: seq<Step>, k: nat)
    requires IsRun(cfg, states, steps) && k <= |steps|
    ensures StreakIsWhole(states[k])
  {
    hide StreakIsWhole, Next, Enabled;
    if k > 0 {
      RunKeepsWhole(cfg, states, steps, k - 1);
      NextKeepsWhole(states[k - 1], cfg, steps[k - 1]);
    } else {
      FirstIsWhole(states[0]);
    }
  }

  lemma FirstIsWhole(s: State)
    requires Begins(s)
    ensures StreakIsWhole(s)
  {
  }

  // ------------------------------------------------------------------ every run

  /** What one step does to the record, the restarts, the memory and the history file. */
  ghost predicate Reasoned(s: State, cfg: Config, step: Step, t: State)
    requires Enabled(s, step)
  {
    match step
    case PollService(p, _) =>
      && t.seen == s.seen + Seeing(s, cfg, p)
      && t.restarts == s.restarts + (if Attempts(s, cfg, p) && p.persisted
                                     then [Restart(p.appendRead, p.identity, |s.seen| + 1)] else [])
      && EntryAfter(s, cfg, p, t.memory)
      && t.file == (if Attempts(s, cfg, p) && p.persisted then Some(t.memory) else s.file)
    case RecordAction(_) =>
      t.seen == s.seen + [Cleared] && t.restarts == s.restarts && t.memory == s.memory && t.file == s.file
    case Persist(_) =>
      t.seen == s.seen && t.restarts == s.restarts && t.memory == s.memory && t.file == Some(s.memory)
    case Reload(clocks, readable, _) =>
      t.seen == s.seen + [Cleared] && t.restarts == s.restarts && t.file == s.file &&
      if readable && s.file.Some? then Reads(s.file.value, clocks, t.memory)
      else t.memory.attempts == [] && t.memory.last == None
  }

  /** What a new life reads from the file: the last hundred attempts, those of the hour. */
  ghost predicate Reads(file: Entry, clocks: seq<real>, e: Entry) {
    var kept := LastHundred(file.attempts);
    && |clocks| == |kept| && e.last == file.last
    && |e.attempts| == |InHour(kept, clocks)|
    && Elements(e.attempts) == TimesInHour(kept, clocks)
  }

  lemma NextIsReasoned(s: State, cfg: Config, step: Step)
    requires cfg.Loaded() && StreakIsWhole(s) && Enabled(s, step)
    ensures Reasoned(s, cfg, step, Next(s, cfg, step))
  {
    match step {
      case PollService(p, end) =>
        NextIsPoll(s, cfg, p, end);
        ReadsAreOrdered(s, p, end);
        PollIsReasoned(s, cfg, p);
        hide PollStep, Next, Seeing, Attempts, EntryAfter, Enabled;
      case Reload(clocks, readable, end) =>
        if readable && s.file.Some? {
          RecentIsInHour(LastHundred(s.file.value.attempts), clocks);
        }
        hide Recent, InHour, LastHundred;
      case _ =>
    }
  }

  /** In every run each step is reasoned. In particular a restart is issued exactly by a poll
      that sees the service unhealthy with a known process, no job running and the grace over,
      whose streak is full, that confirms the process and its health under the locks, that
      finds budget and cooldown in order, and that can record the attempt durably. */
  lemma StepsAreReasoned(cfg: Config, states: seq<State>, steps: seq<Step>, k: nat)
    requires cfg.Loaded() && IsRun(cfg, states, steps) && k < |steps|
    ensures Reasoned(states[k], cfg, steps[k], states[k + 1])
  {
    RunKeepsWhole(cfg, states, steps, k);
    hide StreakIsWhole, Reasoned;
    NextIsReasoned(states[k], cfg, steps[k]);
  }

  /** The poll that issued a restart. */
  ghost predicate Issues(s: State, cfg: Config, step: Step, r: Restart) {
    step.PollService? && Enabled(s, step) && Attempts(s, cfg, step.poll) && step.poll.persisted &&
    r == Restart(step.poll.appendRead, step.poll.identity, |s.seen| + 1)
  }

  /** Every restart of every run was issued by such a poll. */
  lemma {:induction false} RestartsComeFromPolls(cfg: Config, states: seq<State>, steps: seq<Step>, k: nat, i: nat) returns (j: nat)
    requires cfg.Loaded() && IsRun(cfg, states, steps) && k <= |steps| && i < |states[k].restarts|
    ensures j < k && Issues(states[j], cfg, steps[j], states[k].restarts[i])
  {
    hide Next, Attempts, Seeing, EntryAfter, Reads, Enabled;
    j := 0;
    if k > 0 {
      StepsAreReasoned(cfg, states, steps, k - 1);
      assert Enabled(states[k - 1], steps[k - 1]);
      if i < |states[k - 1].restarts| {
        j := RestartsComeFromPolls(cfg, states, steps, k - 1, i);
      } else {
        j := k - 1;
      }
    }
  }
}
