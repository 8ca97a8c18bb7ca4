/** What every interleaving of starts, observations and commits keeps. */
module ProcessStatesProperties {
  import opened Wrappers
  import opened Services
  import opened ProcessStates

  ghost predicate SystemInv(s: State) {
    && s.live <= s.ever
    && (forall p, q :: p in s.ever && q in s.ever && p.pid == q.pid && Close(p.createTime, q.createTime) ==> p == q)
    && (forall p, q :: p in s.live && q in s.live && p.pid == q.pid ==> p == q)
  }

  /** A stored create time is that of a real process. */
  predicate Exact(r: Runtime, ever: set<Process>) {
    r.createTime.Some? ==> r.pid.Some? && Process(r.pid.value, r.createTime.value) in ever
  }

  /** A pid is stored with its create time. */
  predicate Known(r: Runtime) {
    r.pid.Some? ==> r.createTime.Some?
  }

  ghost predicate HeldExact(s: State) {
    && (forall t :: t in s.held ==> Exact(s.held[t].seen, s.ever))
    && (forall t :: t in s.held && s.held[t].Evaluated? ==> s.held[t].candidate in s.ever)
  }

  function LastStored(history: seq<Store>): Runtime {
    if history == [] then STOPPED else history[|history| - 1].state
  }

  /** The history of a service ends with its state in memory. */
  ghost predicate HistoryInv(s: State) {
    forall sid :: Lookup(s.states, sid) == LastStored(History(s, sid))
  }

  /** Only a state loaded at startup can lack the create time of its pid. */
  predicate Genuine(e: Store, sid: Id, i: nat, loaded: map<Id, Runtime>, ever: set<Process>) {
    Exact(e.state, ever) && (Known(e.state) || (i == 0 && sid in loaded && e.state == loaded[sid]))
  }

  ghost predicate GenuineInv(s: State) {
    forall sid, i :: 0 <= i < |History(s, sid)| ==> Genuine(History(s, sid)[i], sid, i, s.loaded, s.ever)
  }

  /** A process judged dead stays dead, and no state of its identity has been stored since; a
      loaded state without a create time was the first one. */
  ghost predicate JudgedOk(s: State, o: Observation)
    requires o.JudgedDead?
  {
    && o.stored <= |History(s, o.sid)|
    && (o.seen.createTime.Some? ==>
          && o.seen.pid.Some? && Process(o.seen.pid.value, o.seen.createTime.value) in s.ever - s.live
          && forall i :: o.stored <= i < |History(s, o.sid)| ==> !SameIdentity(History(s, o.sid)[i].state, o.seen))
    && (o.seen.pid.Some? && o.seen.createTime.None? ==> o.stored > 0)
  }

  ghost predicate JudgedInv(s: State) {
    && (forall t :: t in s.held && s.held[t].JudgedDead? ==> JudgedOk(s, s.held[t]))
    && (forall t :: t in s.held && s.held[t].Snapshot? && s.held[t].seen.pid.Some? ==> History(s, s.held[t].sid) != [])
  }

  /** Whoever holds the operation lock of a stopped service finds it as it was. */
  ghost predicate LockOk(s: State, o: Observation)
    requires Locked(o)
  {
    && o.sid in s.locks
    && (o.seen.pid == None ==>
          && Lookup(s.states, o.sid).pid == None
          && (o.JudgedDead? ==> |History(s, o.sid)| == o.stored))
  }

  ghost predicate LockInv(s: State) {
    && (forall t :: t in s.held && Locked(s.held[t]) ==> LockOk(s, s.held[t]))
    && (forall t, u | t in s.held && u in s.held && Locked(s.held[t]) && Locked(s.held[u]) ::
          s.held[t].sid == s.held[u].sid ==> t == u)
  }

  /** Two states with create times never name the same process. */
  ghost predicate KnownApart(states: map<Id, Runtime>) {
    forall a, b | a in states && b in states && a != b ::
      states[a].createTime.Some? ==> !SameIdentity(states[a], states[b])
  }

  ghost predicate Inv(s: State) {
    && SystemInv(s) && HeldExact(s) && HistoryInv(s) && GenuineInv(s)
    && JudgedInv(s) && LockInv(s) && KnownApart(s.states)
  }

  // ------------------------------------------------------------------ what every step keeps

  /** A step makes at most one process known to the system, a new one. */
  lemma ProcessesChange(s: State, step: Step)
    requires Enabled(s, step)
    ensures var u := Next(s, step);
      && u.loaded == s.loaded
      && ((u.ever == s.ever && u.live <= s.live) ||
          exists p :: u.ever == s.ever + {p} && u.live <= s.live + {p} && NewToSystem(s, p) &&
                      (p in u.live ==> forall q :: q in s.live ==> q.pid != p.pid))
  {
    if step.Start? || step.FailStart? || step.Appear? {
      assert Next(s, step).ever == s.ever + {step.p};
    }
    hide NewToSystem, Tracks, MayAdopt, History;
  }

  lemma NextKeepsSystem(s: State, step: Step)
    requires SystemInv(s) && Enabled(s, step)
    ensures SystemInv(Next(s, step))
    ensures s.ever <= Next(s, step).ever && Next(s, step).live * s.ever <= s.live
    ensures Next(s, step).loaded == s.loaded
  {
    ProcessesChange(s, step);
    hide Next, Enabled;
  }

  /** The create time read again at commit time proves that the candidate is unchanged. */
  lemma AdoptsCandidate(s: State, t: Thread, current: Process)
    requires SystemInv(s) && HeldExact(s) && t in s.held && s.held[t].Evaluated? && current in s.live
    requires current.pid == s.held[t].candidate.pid && Close(current.createTime, s.held[t].candidate.createTime)
    ensures s.held[t].candidate == current
  {
  }

  /** The service a step stores a state for, and what it stores. */
  function Stored(s: State, step: Step): Option<(Id, Store)>
    requires Enabled(s, step)
  {
    match step
    case Start(sid, p, rest, saved) => Some((sid, Store(Tracking(p, rest), saved)))
    case CommitStopped(t, rest, saved) =>
      var o := s.held[t];
      if o.sid in s.states && SameIdentity(s.states[o.sid], o.seen)
      then Some((o.sid, Store(Runtime(None, None, rest), saved))) else None
    case CommitForget(t, saved) =>
      var o := s.held[t];
      if SameIdentity(Lookup(s.states, o.sid), o.seen) then Some((o.sid, Store(STOPPED, saved))) else None
    case CommitAdopt(t, current, rest, saved) =>
      var o := s.held[t];
      if MayAdopt(s.states, o.sid, o.seen, o.candidate, current)
      then Some((o.sid, Store(Tracking(o.candidate, rest), saved))) else None
    case _ => None
  }

  /** The step stores a state for this service. */
  predicate StoresFor(s: State, step: Step, sid: Id)
    requires Enabled(s, step)
  {
    Stored(s, step).Some? && Stored(s, step).value.0 == sid
  }

  /** What a step that stores something does to the tables. */
  lemma NextStores(s: State, step: Step)
    requires Enabled(s, step)
    ensures var u := Next(s, step);
      match Stored(s, step)
      case None => u.states == s.states && u.files == s.files && u.history == s.history
      case Some((sid, e)) =>
        && u.history == s.history[sid := History(s, sid) + [e]]
        && ((u.states == s.states[sid := e.state] &&
             u.files == if e.saved then s.files[sid := e.state] else s.files) ||
            (e.state == STOPPED && u.states == s.states - {sid} &&
             u.files == if e.saved then s.files - {sid} else s.files))
  {
    hide MaySpawn, NewToSystem, Tracks, MayAdopt, Tracking, Locked, Lookup, SameIdentity;
  }

  /** A step extends the history of at most one service, by what it stores. */
  lemma HistoryGrows(s: State, step: Step, sid: Id)
    requires Enabled(s, step)
    ensures History(Next(s, step), sid) ==
      if StoresFor(s, step, sid) then History(s, sid) + [Stored(s, step).value.1] else History(s, sid)
    ensures StoresFor(s, step, sid) ==>
      var e := Stored(s, step).value.1;
      && Lookup(Next(s, step).states, sid) == e.state
      && Lookup(Next(s, step).files, sid) == if e.saved then e.state else Lookup(s.files, sid)
    ensures !StoresFor(s, step, sid) ==>
      && Lookup(Next(s, step).states, sid) == Lookup(s.states, sid)
      && Lookup(Next(s, step).files, sid) == Lookup(s.files, sid)
  {
    NextStores(s, step);
    hide Next, Enabled, Stored;
  }

  lemma NextKeepsHistory(s: State, step: Step)
    requires HistoryInv(s) && Enabled(s, step)
    ensures HistoryInv(Next(s, step))
  {
    hide Next, Stored, StoresFor, Enabled;
    forall sid ensures Lookup(Next(s, step).states, sid) == LastStored(History(Next(s, step), sid)) {
      HistoryGrows(s, step, sid);
    }
  }

  lemma StoredIsGenuine(s: State, step: Step)
    requires SystemInv(s) && HeldExact(s) && Enabled(s, step) && Stored(s, step).Some?
    ensures var r := Stored(s, step).value.1.state; Known(r) && Exact(r, Next(s, step).ever)
  {
  }

  lemma GenuineStays(e: Store, sid: Id, i: nat, s: State, u: State)
    requires Genuine(e, sid, i, s.loaded, s.ever) && s.ever <= u.ever && u.loaded == s.loaded
    ensures Genuine(e, sid, i, u.loaded, u.ever)
  {
  }

  lemma NextKeepsGenuine(s: State, step: Step)
    requires SystemInv(s) && HeldExact(s) && GenuineInv(s) && Enabled(s, step)
    ensures GenuineInv(Next(s, step))
  {
    var u := Next(s, step);
    NextKeepsSystem(s, step);
    hide Next, Stored, StoresFor, Enabled, SystemInv, HeldExact, Exact, Known;
    forall sid, i | 0 <= i < |History(u, sid)| ensures Genuine(History(u, sid)[i], sid, i, u.loaded, u.ever) {
      HistoryGrows(s, step, sid);
      if i < |History(s, sid)| {
        assert Genuine(History(s, sid)[i], sid, i, s.loaded, s.ever);
        GenuineStays(History(s, sid)[i], sid, i, s, u);
      } else {
        NewEntryIsGenuine(s, step, sid, i);
      }
    }
  }

  lemma NewEntryIsGenuine(s: State, step: Step, sid: Id, i: nat)
    requires SystemInv(s) && HeldExact(s) && Enabled(s, step)
    requires i == |History(s, sid)| < |History(Next(s, step), sid)|
    ensures Genuine(History(Next(s, step), sid)[i], sid, i, s.loaded, Next(s, step).ever)
  {
    HistoryGrows(s, step, sid);
    assert StoresFor(s, step, sid);
    StoredIsGenuine(s, step);
  }

  /** What is stored now: real, and only a loaded state can lack its create time. */
  lemma StoredNow(s: State, sid: Id)
    requires HistoryInv(s) && GenuineInv(s)
    ensures var r := Lookup(s.states, sid);
      && Exact(r, s.ever)
      && (r.pid.Some? ==> History(s, sid) != [])
      && (!Known(r) ==> |History(s, sid)| == 1 && sid in s.loaded && r == s.loaded[sid])
  {
    var h := History(s, sid);
    assert Lookup(s.states, sid) == LastStored(h);
    if h != [] {
      assert Genuine(h[|h| - 1], sid, |h| - 1, s.loaded, s.ever);
    }
  }

  /** What a thread holds after a step it held before, unless the step is its own reading. */
  lemma HeldBefore(s: State, step: Step, t: Thread)
    requires Enabled(s, step) && t in Next(s, step).held
    ensures match step
      case TakeSnapshot(u, sid, locked) =>
        if u == t then Next(s, step).held[t] == Snapshot(sid, Lookup(s.states, sid), locked)
        else t in s.held && s.held[t] == Next(s, step).held[t]
      case Evaluate(u, sid, candidate) =>
        if u == t then candidate in s.live && Next(s, step).held[t] == Evaluated(sid, Lookup(s.states, sid), candidate)
        else t in s.held && s.held[t] == Next(s, step).held[t]
      case JudgeDead(u) =>
        t in s.held &&
        if u == t then s.held[t].Snapshot? && Next(s, step).held[t] ==
          JudgedDead(s.held[t].sid, s.held[t].seen, s.held[t].locked, |History(s, s.held[t].sid)|)
        else s.held[t] == Next(s, step).held[t]
      case _ => t in s.held && s.held[t] == Next(s, step).held[t]
  {
    hide MaySpawn, NewToSystem, Tracks, MayAdopt, SameIdentity;
  }

  lemma NextKeepsHeld(s: State, step: Step)
    requires HeldExact(s) && HistoryInv(s) && GenuineInv(s) && SystemInv(s) && Enabled(s, step)
    ensures HeldExact(Next(s, step))
  {
    NextKeepsSystem(s, step);
    if step.TakeSnapshot? || step.Evaluate? {
      StoredNow(s, step.sid);
    }
    hide Next, Enabled, HistoryInv, GenuineInv, History;
    forall t | t in Next(s, step).held
      ensures Exact(Next(s, step).held[t].seen, Next(s, step).ever)
      ensures Next(s, step).held[t].Evaluated? ==> Next(s, step).held[t].candidate in Next(s, step).ever
    {
      HeldBefore(s, step, t);
    }
  }

  // ------------------------------------------------------------------ judgements

  /** No step stores the identity of a process that is dead. */
  lemma StoredIsNotDead(s: State, step: Step, dead: Process)
    requires SystemInv(s) && HeldExact(s) && Enabled(s, step) && Stored(s, step).Some? && dead in s.ever - s.live
    ensures var r := Stored(s, step).value.1.state; !(r.pid == Some(dead.pid) && r.createTime == Some(dead.createTime))
  {
    if step.CommitAdopt? {
      AdoptsCandidate(s, step.t, step.current);
    }
  }

  lemma JudgedStays(s: State, step: Step, o: Observation)
    requires SystemInv(s) && HeldExact(s) && Enabled(s, step) && o.JudgedDead? && JudgedOk(s, o)
    ensures JudgedOk(Next(s, step), o)
  {
    NextKeepsSystem(s, step);
    HistoryGrows(s, step, o.sid);
    if Stored(s, step).Some? && o.seen.createTime.Some? {
      StoredIsNotDead(s, step, Process(o.seen.pid.value, o.seen.createTime.value));
    }
    hide Next, Stored, Enabled, SystemInv, HeldExact, History;
  }

  lemma JudgedBegins(s: State, t: Thread)
    requires HeldExact(s) && JudgedInv(s) && Enabled(s, JudgeDead(t))
    ensures JudgedOk(Next(s, JudgeDead(t)), Next(s, JudgeDead(t)).held[t])
  {
    var o := Next(s, JudgeDead(t)).held[t];
    if o.seen.createTime.Some? {
      assert Tracks(o.seen, Process(o.seen.pid.value, o.seen.createTime.value));
    }
  }

  lemma NextKeepsJudged(s: State, step: Step)
    requires SystemInv(s) && HeldExact(s) && HistoryInv(s) && GenuineInv(s) && JudgedInv(s) && Enabled(s, step)
    ensures JudgedInv(Next(s, step))
  {
    var u := Next(s, step);
    hide Next, Enabled, SystemInv, HeldExact, HistoryInv, GenuineInv, JudgedOk, History;
    forall t | t in u.held && u.held[t].JudgedDead? ensures JudgedOk(u, u.held[t]) {
      HeldBefore(s, step, t);
      if step == JudgeDead(t) {
        JudgedBegins(s, t);
      } else {
        JudgedStays(s, step, s.held[t]);
      }
    }
    forall t | t in u.held && u.held[t].Snapshot? && u.held[t].seen.pid.Some? ensures History(u, u.held[t].sid) != [] {
      HeldBefore(s, step, t);
      HistoryGrows(s, step, u.held[t].sid);
      StoredNow(s, u.held[t].sid);
    }
  }

  // ------------------------------------------------------------------ operation locks

  lemma LocksStay(s: State, step: Step, t: Thread)
    requires LockInv(s) && Enabled(s, step) && t in s.held && Locked(s.held[t])
    requires t in Next(s, step).held && Locked(Next(s, step).held[t])
    ensures s.held[t].sid in Next(s, step).locks
  {
    assert LockOk(s, s.held[t]);
    hide LockOk, MaySpawn, NewToSystem, Tracks, MayAdopt, SameIdentity, History;
  }

  /** Nothing is stored for a stopped service whose operation lock another thread holds. */
  lemma LockedIsLeftAlone(s: State, step: Step, t: Thread)
    requires LockInv(s) && Enabled(s, step) && t in s.held && Locked(s.held[t]) && t in Next(s, step).held
    requires s.held[t].seen.pid == None
    ensures !StoresFor(s, step, s.held[t].sid)
  {
    assert LockOk(s, s.held[t]);
    hide LockOk, Tracks, MayAdopt, NewToSystem, History;
  }

  lemma LockStays(s: State, step: Step, t: Thread)
    requires LockInv(s) && Enabled(s, step) && t in s.held && Locked(s.held[t]) && t in Next(s, step).held
    requires Locked(Next(s, step).held[t])
    ensures LockOk(Next(s, step), Next(s, step).held[t])
  {
    assert LockOk(s, s.held[t]);
    LocksStay(s, step, t);
    HeldBefore(s, step, t);
    HistoryGrows(s, step, s.held[t].sid);
    if s.held[t].seen.pid == None {
      LockedIsLeftAlone(s, step, t);
    }
    hide Next, Enabled, LockInv, StoresFor, Stored, History;
  }

  lemma NextKeepsLocks(s: State, step: Step)
    requires LockInv(s) && Enabled(s, step)
    ensures LockInv(Next(s, step))
  {
    var u := Next(s, step);
    forall t | t in u.held && Locked(u.held[t]) ensures LockOk(u, u.held[t]) {
      if t in s.held {
        HeldBefore(s, step, t);
        LockStays(s, step, t);
      }
    }
    NextKeepsOwners(s, step);
    hide Next, Enabled, LockOk;
  }

  lemma NextKeepsOwners(s: State, step: Step)
    requires LockInv(s) && Enabled(s, step)
    ensures forall t, u | t in Next(s, step).held && u in Next(s, step).held &&
                          Locked(Next(s, step).held[t]) && Locked(Next(s, step).held[u]) ::
              Next(s, step).held[t].sid == Next(s, step).held[u].sid ==> t == u
  {
    forall t | t in s.held && Locked(s.held[t]) ensures s.held[t].sid in s.locks {
      assert LockOk(s, s.held[t]);
    }
    hide LockOk, MayAdopt, MaySpawn, Tracks, History, Commit, Remove;
  }

  // ------------------------------------------------------------------ identities

  lemma StoreKeepsApart(states: map<Id, Runtime>, sid: Id, r: Runtime)
    requires KnownApart(states)
    requires r.createTime.Some? ==> forall other :: other in states && other != sid ==> !SameIdentity(states[other], r)
    ensures KnownApart(states[sid := r])
  {
  }

  lemma NextKeepsApart(s: State, step: Step)
    requires KnownApart(s.states) && SystemInv(s) && HeldExact(s) && HistoryInv(s) && GenuineInv(s) && Enabled(s, step)
    ensures KnownApart(Next(s, step).states)
  {
    match step {
      case Start(sid, p, rest, saved) =>
        forall other | other in s.states ensures Exact(s.states[other], s.ever) {
          StoredNow(s, other);
        }
        hide HistoryInv, GenuineInv, KnownApart;
        StoreKeepsApart(s.states, sid, Tracking(p, rest));
      case CommitAdopt(t, current, rest, _) =>
        var o := s.held[t];
        if MayAdopt(s.states, o.sid, o.seen, o.candidate, current) {
          AdoptsCandidate(s, t, current);
          hide HistoryInv, GenuineInv, KnownApart, HeldExact;
          StoreKeepsApart(s.states, o.sid, Tracking(o.candidate, rest));
        }
      case CommitStopped(t, rest, _) =>
        hide HistoryInv, GenuineInv, KnownApart, HeldExact;
        StoreKeepsApart(s.states, s.held[t].sid, Runtime(None, None, rest));
      case CommitForget(t, _) =>
        hide HistoryInv, GenuineInv, HeldExact;
      case _ =>
    }
  }

  lemma NextKeepsInv(s: State, step: Step)
    requires Inv(s) && Enabled(s, step)
    ensures Inv(Next(s, step))
  {
    hide SystemInv, HeldExact, HistoryInv, GenuineInv, JudgedInv, LockInv, KnownApart, Next, Enabled;
    NextKeepsSystem(s, step);
    NextKeepsHeld(s, step);
    NextKeepsHistory(s, step);
    NextKeepsGenuine(s, step);
    NextKeepsJudged(s, step);
    NextKeepsLocks(s, step);
    NextKeepsApart(s, step);
  }

  // ------------------------------------------------------------------ every run

  /** The supervisor starts with runtime files of real processes, no two of the same one. Old
      files may lack create times. */
  ghost predicate Begins(s: State) {
    && s.states == s.loaded && s.files == s.loaded && s.held == map[] && s.locks == {}
    && s.history == (map sid | sid in s.loaded :: [Store(s.loaded[sid], true)])
    && SystemInv(s) && KnownApart(s.loaded)
    && forall sid :: sid in s.loaded ==> Exact(s.loaded[sid], s.ever)
  }

  ghost predicate IsRun(states: seq<State>, steps: seq<Step>) {
    && |states| == |steps| + 1
    && Begins(states[0])
    && (forall i :: 0 <= i < |steps| ==> Enabled(states[i], steps[i]) && states[i + 1] == Next(states[i], steps[i]))
  }

  lemma BeginHolds(s: State)
    requires Begins(s)
    ensures Inv(s)
  {
  }

  lemma {:induction false} RunKeepsInv(states: seq<State>, steps: seq<Step>, k: nat)
    requires IsRun(states, steps) && k <= |steps|
    ensures Inv(states[k])
  {
    hide Inv, Begins;
    if k == 0 {
      BeginHolds(states[0]);
    } else {
      RunKeepsInv(states, steps, k - 1);
      NextKeepsInv(states[k - 1], steps[k - 1]);
    }
  }

  // ------------------------------------------------------------------ stale observations

  /** A stop or forget commit changes nothing if it finds another identity than the one judged
      dead. Otherwise no state has been stored since: it removes the very state that was
      judged, never a later one. */
  lemma StaleObservationsDoNotErase(states: seq<State>, steps: seq<Step>, k: nat)
    requires IsRun(states, steps) && k < |steps|
    requires steps[k].CommitStopped? || steps[k].CommitForget?
    ensures var o, s, u := states[k].held[steps[k].t], states[k], states[k + 1];
      if SameIdentity(Lookup(s.states, o.sid), o.seen)
      then |History(s, o.sid)| == o.stored && Lookup(u.states, o.sid).pid == None
      else u.states == s.states && u.files == s.files && u.history == s.history
  {
    RunKeepsInv(states, steps, k);
    var s, o := states[k], states[k].held[steps[k].t];
    if SameIdentity(Lookup(s.states, o.sid), o.seen) {
      NothingStoredSince(s, steps[k].t);
    }
    hide HistoryInv, GenuineInv, JudgedInv, LockInv, SystemInv, HeldExact;
  }

  lemma NothingStoredSince(s: State, t: Thread)
    requires HistoryInv(s) && GenuineInv(s) && JudgedInv(s) && LockInv(s)
    requires t in s.held && s.held[t].JudgedDead? && (s.held[t].seen.pid == None ==> s.held[t].locked)
    requires SameIdentity(Lookup(s.states, s.held[t].sid), s.held[t].seen)
    ensures |History(s, s.held[t].sid)| == s.held[t].stored
  {
    var o := s.held[t];
    var h := History(s, o.sid);
    assert JudgedOk(s, o) && Lookup(s.states, o.sid) == LastStored(h);
    if o.seen.pid == None {
      assert LockOk(s, o);
    } else if o.seen.createTime == None {
      StoredNow(s, o.sid);
    }
  }

  // ------------------------------------------------------------------ compared commits

  /** The stored pid and create time, which are missing for an unknown service. */
  function StoredPid(states: map<Id, Runtime>, sid: Id): Option<nat> {
    if sid in states then states[sid].pid else None
  }

  function StoredTime(states: map<Id, Runtime>, sid: Id): Option<real> {
    if sid in states then states[sid].createTime else None
  }

  /** A start, stop or forget stores its state exactly if there is nothing to compare or the
      stored pid and create time are those observed. */
  lemma StoresAreCompared(states: seq<State>, steps: seq<Step>, k: nat)
    requires IsRun(states, steps) && k < |steps|
    ensures var s, u := states[k], states[k + 1];
      match steps[k]
      case Start(sid, p, rest, _) => u.states == s.states[sid := Runtime(Some(p.pid), Some(p.createTime), rest)]
      case CommitStopped(t, rest, _) =>
        var o := s.held[t];
        u.states == if StoredPid(s.states, o.sid) == o.seen.pid && StoredTime(s.states, o.sid) == o.seen.createTime
                    then s.states[o.sid := Runtime(None, None, rest)] else s.states
      case CommitForget(t, _) =>
        var o := s.held[t];
        u.states == if StoredPid(s.states, o.sid) == o.seen.pid && StoredTime(s.states, o.sid) == o.seen.createTime
                    then s.states - {o.sid} else s.states
      case CommitAdopt(_, _, _, _) => true
      case _ => u.states == s.states && u.files == s.files
  {
    hide Begins, NewToSystem, MaySpawn, TakenByOther;
  }

  /** An adoption commits exactly if the state is still the one evaluated, the process is still
      the candidate, and no other service has its pid stored without a create time or with
      one within a second; then it stores the candidate. */
  lemma AdoptionsAreCompared(states: seq<State>, steps: seq<Step>, k: nat)
    requires IsRun(states, steps) && k < |steps| && steps[k].CommitAdopt?
    ensures var s, u, step := states[k], states[k + 1], steps[k];
      var o, current := s.held[step.t], step.current;
      var committed :=
        && current.pid == o.candidate.pid && -1.0 <= current.createTime - o.candidate.createTime <= 1.0
        && (if o.sid in s.states then s.states[o.sid] else Runtime(None, None, 0)) == o.seen
        && forall x :: x in s.states && x != o.sid && s.states[x].pid == Some(current.pid) ==>
             s.states[x].createTime.Some? && !(-1.0 <= s.states[x].createTime.value - current.createTime <= 1.0);
      && u.states == (if committed
                      then s.states[o.sid := Runtime(Some(current.pid), Some(current.createTime), step.rest)]
                      else s.states)
      && (committed ==> |History(u, o.sid)| == |History(s, o.sid)| + 1)
      && (!committed ==> u.files == s.files && u.history == s.history)
  {
    RunKeepsInv(states, steps, k);
    var s, step := states[k], steps[k];
    hide Begins, Inv;
    AdoptionIsCompared(s, step);
  }

  lemma AdoptionIsCompared(s: State, step: Step)
    requires Inv(s) && Enabled(s, step) && step.CommitAdopt?
    ensures var u, o, current := Next(s, step), s.held[step.t], step.current;
      var committed :=
        && current.pid == o.candidate.pid && -1.0 <= current.createTime - o.candidate.createTime <= 1.0
        && (if o.sid in s.states then s.states[o.sid] else Runtime(None, None, 0)) == o.seen
        && forall x :: x in s.states && x != o.sid && s.states[x].pid == Some(current.pid) ==>
             s.states[x].createTime.Some? && !(-1.0 <= s.states[x].createTime.value - current.createTime <= 1.0);
      && u.states == (if committed
                      then s.states[o.sid := Runtime(Some(current.pid), Some(current.createTime), step.rest)]
                      else s.states)
      && (committed ==> |History(u, o.sid)| == |History(s, o.sid)| + 1)
      && (!committed ==> u.files == s.files && u.history == s.history)
  {
    var o, current := s.held[step.t], step.current;
    if current.pid == o.candidate.pid && Close(current.createTime, o.candidate.createTime) {
      AdoptsCandidate(s, step.t, current);
    }
    hide Inv, NewToSystem, SameIdentity;
  }

  // ------------------------------------------------------------------ one process, one service

  /** No live process is tracked by two services. */
  ghost predicate NobodyShares(s: State) {
    forall a, b, p | a in s.states && b in s.states && p in s.live ::
      Tracks(s.states[a], p) && Tracks(s.states[b], p) ==> a == b
  }

  /** The service has this pid stored without a create time. */
  predicate Anonymous(states: map<Id, Runtime>, sid: Id, pid: nat) {
    sid in states && states[sid].pid == Some(pid) && states[sid].createTime == None
  }

  /** Two services never track the same live process, unless one of them still has the state
      it was loaded with, and that lacks its create time. */
  lemma SharingIsLoaded(states: seq<State>, steps: seq<Step>, k: nat, a: Id, b: Id, p: Process)
    requires IsRun(states, steps) && k <= |steps|
    requires a in states[k].states && b in states[k].states && a != b && p in states[k].live
    requires Tracks(states[k].states[a], p) && Tracks(states[k].states[b], p)
    ensures var s := states[k];
      || (Anonymous(s.states, a, p.pid) && a in s.loaded && s.states[a] == s.loaded[a])
      || (Anonymous(s.states, b, p.pid) && b in s.loaded && s.states[b] == s.loaded[b])
  {
    RunKeepsInv(states, steps, k);
    StoredNow(states[k], a);
    StoredNow(states[k], b);
    hide HistoryInv, GenuineInv, JudgedInv, HeldExact, LockInv;
  }

  lemma {:induction false} LoadedStays(states: seq<State>, steps: seq<Step>, k: nat)
    requires IsRun(states, steps) && k <= |steps|
    ensures states[k].loaded == states[0].loaded
  {
    hide Begins, Enabled;
    if k > 0 {
      LoadedStays(states, steps, k - 1);
      LoadedKept(states[k - 1], steps[k - 1]);
    }
  }

  lemma LoadedKept(s: State, step: Step)
    requires Enabled(s, step)
    ensures Next(s, step).loaded == s.loaded
  {
  }

  /** In every run that begins without states, or with states that have their create times, no
      live process is ever tracked by two services. */
  lemma NobodySharesAProcess(states: seq<State>, steps: seq<Step>, k: nat)
    requires IsRun(states, steps) && k <= |steps|
    requires forall sid :: sid in states[0].loaded ==> Known(states[0].loaded[sid])
    ensures NobodyShares(states[k])
  {
    LoadedStays(states, steps, k);
    var s := states[k];
    forall a, b, p | a in s.states && b in s.states && p in s.live && a != b && Tracks(s.states[a], p)
      ensures !Tracks(s.states[b], p)
    {
      if Tracks(s.states[b], p) {
        SharingIsLoaded(states, steps, k, a, b, p);
      }
    }
  }

  /** An adoption never makes the adopting service share a live process, whatever the states
      are. */
  lemma AdoptionNeverShares(s: State, step: Step, other: Id, p: Process)
    requires SystemInv(s) && step.CommitAdopt? && Enabled(s, step) && Next(s, step).states != s.states
    requires other in s.states && other != s.held[step.t].sid && p in s.live
    requires Tracks(Next(s, step).states[s.held[step.t].sid], p)
    ensures !Tracks(Next(s, step).states[other], p)
  {
  }

  /** Where sharing begins with old files: a spawn gets a pid that another service was loaded
      with, without a create time, or a foreign process gets a pid two services have so. */
  ghost predicate BeginsSharing(s: State, step: Step) {
    match step
    case Start(sid, p, _, _) => exists other :: other != sid && Anonymous(s.states, other, p.pid)
    case Appear(p) => exists a, b :: a != b && Anonymous(s.states, a, p.pid) && Anonymous(s.states, b, p.pid)
    case _ => false
  }

  /** A process new to the system is tracked only where its pid is stored without a create time. */
  lemma NewIsTrackedAnonymously(s: State, p: Process, sid: Id)
    requires Inv(s) && NewToSystem(s, p) && sid in s.states
    ensures Tracks(s.states[sid], p) <==> Anonymous(s.states, sid, p.pid)
  {
    StoredNow(s, sid);
  }

  lemma StartSharesIff(s: State, step: Step)
    requires Inv(s) && NobodyShares(s) && step.Start? && Enabled(s, step)
    ensures NobodyShares(Next(s, step)) <==> !BeginsSharing(s, step)
  {
    var u, sid, p := Next(s, step), step.sid, step.p;
    forall other | other in s.states
      ensures Tracks(s.states[other], p) <==> Anonymous(s.states, other, p.pid)
    {
      NewIsTrackedAnonymously(s, p, other);
    }
    hide Inv;
    if BeginsSharing(s, step) {
      var other :| other != sid && Anonymous(s.states, other, p.pid);
      assert Tracks(u.states[other], p) && Tracks(u.states[sid], p) && p in u.live;
    } else {
      forall a, b, q | a in u.states && b in u.states && q in u.live && Tracks(u.states[a], q) && Tracks(u.states[b], q)
        ensures a == b
      {
        if a != sid && b != sid && q in s.live {
          assert Tracks(s.states[a], q) && Tracks(s.states[b], q);
        }
      }
    }
  }

  lemma AppearSharesIff(s: State, step: Step)
    requires Inv(s) && NobodyShares(s) && step.Appear? && Enabled(s, step)
    ensures NobodyShares(Next(s, step)) <==> !BeginsSharing(s, step)
  {
    var p := step.p;
    forall other | other in s.states
      ensures Tracks(s.states[other], p) <==> Anonymous(s.states, other, p.pid)
    {
      NewIsTrackedAnonymously(s, p, other);
    }
    hide Inv;
    if BeginsSharing(s, step) {
      var a, b :| a != b && Anonymous(s.states, a, p.pid) && Anonymous(s.states, b, p.pid);
      assert Tracks(s.states[a], p) && Tracks(s.states[b], p) && p in Next(s, step).live;
    }
  }

  /** Apart from starts and adoptions, a step leaves each state as it is or without a pid. */
  lemma StatesOnlyLose(s: State, step: Step, a: Id)
    requires Enabled(s, step) && !step.Start? && a in Next(s, step).states
    requires step.CommitAdopt? ==> a != s.held[step.t].sid || Next(s, step).states == s.states
    ensures Next(s, step).states[a].pid == None || (a in s.states && Next(s, step).states[a] == s.states[a])
  {
    hide MaySpawn, Tracks, History, TakenByOther;
  }

  lemma LiveOnlyLose(s: State, step: Step)
    requires Enabled(s, step) && !step.Start? && !step.Appear?
    ensures Next(s, step).live <= s.live
  {
    hide MaySpawn, Tracks, History, MayAdopt;
  }

  lemma OtherStepsNeverShare(s: State, step: Step)
    requires Inv(s) && NobodyShares(s) && Enabled(s, step) && !step.Start? && !step.Appear?
    ensures NobodyShares(Next(s, step))
  {
    var u := Next(s, step);
    assert SystemInv(s);
    LiveOnlyLose(s, step);
    hide Inv, SystemInv, Next, Enabled;
    if step.CommitAdopt? && u.states != s.states {
      AdoptKeepsUnshared(s, step);
    } else {
      forall a | a in u.states ensures u.states[a].pid == None || (a in s.states && u.states[a] == s.states[a]) {
        StatesOnlyLose(s, step, a);
      }
    }
  }

  lemma AdoptKeepsUnshared(s: State, step: Step)
    requires SystemInv(s) && NobodyShares(s) && Enabled(s, step) && step.CommitAdopt? && Next(s, step).states != s.states
    ensures NobodyShares(Next(s, step))
  {
    var u, sid := Next(s, step), s.held[step.t].sid;
    LiveOnlyLose(s, step);
    forall other, p | other in s.states && other != sid && p in s.live && Tracks(u.states[sid], p)
      ensures !Tracks(u.states[other], p)
    {
      AdoptionNeverShares(s, step, other, p);
    }
    assert u.states.Keys <= s.states.Keys + {sid};
    forall a | a in s.states && a != sid ensures u.states[a] == s.states[a] {
    }
    hide SystemInv, Next, Enabled;
  }

  /** Sharing begins exactly there. */
  lemma StepSharesIff(s: State, step: Step)
    requires Inv(s) && NobodyShares(s) && Enabled(s, step)
    ensures NobodyShares(Next(s, step)) <==> !BeginsSharing(s, step)
  {
    hide Inv, NobodyShares, Next, Enabled;
    match step {
      case Start(_, _, _, _) => StartSharesIff(s, step);
      case Appear(_) => AppearSharesIff(s, step);
      case _ => OtherStepsNeverShare(s, step);
    }
  }

  /** A service loaded with a pid and no create time, and a spawn of another one that gets this
      pid: both track the process. */
  lemma TwoServicesShare() returns (states: seq<State>, steps: seq<Step>, p: Process)
    ensures IsRun(states, steps)
    ensures var s := states[|steps|];
      p in s.live && 1 in s.states && 2 in s.states && Tracks(s.states[1], p) && Tracks(s.states[2], p)
  {
    var old1 := Runtime(Some(5), None, 0);
    var loaded := map[1 := old1];
    p := Process(5, 100.0);
    var s := State(loaded, loaded, loaded, {}, {}, map[], {}, map sid | sid in loaded :: [Store(loaded[sid], true)]);
    var start := Start(2, p, 0, true);
    states, steps := [s, Next(s, start)], [start];
  }

  // ------------------------------------------------------------------ runtime files

  /** At every release of the state lock the runtime file of a service holds the state it had
      after its last successful save, or was loaded with: since moment `j` every save for it
      has failed, so that the next one that succeeds brings file and state together again. */
  lemma {:induction false} FilesFollowStates(states: seq<State>, steps: seq<Step>, k: nat, sid: Id) returns (j: nat)
    requires IsRun(states, steps) && k <= |steps|
    ensures j <= k && Lookup(states[k].files, sid) == Lookup(states[j].files, sid) == Lookup(states[j].states, sid)
    ensures forall i :: j <= i < k && StoresFor(states[i], steps[i], sid) ==> !Stored(states[i], steps[i]).value.1.saved
    ensures k > 0 && StoresFor(states[k - 1], steps[k - 1], sid) && Stored(states[k - 1], steps[k - 1]).value.1.saved ==>
      Lookup(states[k].files, sid) == Lookup(states[k].states, sid)
  {
    hide Enabled, Next, Stored, Lookup, SystemInv, KnownApart, Exact;
    if k == 0 {
      j := 0;
    } else {
      var s, step := states[k - 1], steps[k - 1];
      HistoryGrows(s, step, sid);
      if StoresFor(s, step, sid) && Stored(s, step).value.1.saved {
        j := k;
      } else {
        j := FilesFollowStates(states, steps, k - 1, sid);
      }
    }
  }

  /** A start whose save raises leaves a state without a file. */
  lemma FailedSaveDiffers() returns (states: seq<State>, steps: seq<Step>)
    ensures IsRun(states, steps) && Lookup(states[|steps|].files, 1) != Lookup(states[|steps|].states, 1)
  {
    var s := State(map[], map[], map[], {}, {}, map[], {}, map[]);
    var start := Start(1, Process(5, 0.0), 0, false);
    states, steps := [s, Next(s, start)], [start];
  }
}
