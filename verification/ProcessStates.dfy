/** The native process manager: compare-and-set commits of stop, adopt and forget against
    states that other threads may have replaced, with the operating system as environment. */
module ProcessStates {
  import opened Wrappers
  import opened Services

  type Thread = nat

  /** What the operating system knows: a pid and the time the process was created. */
  datatype Process = Process(pid: nat, createTime: real)

  /** The stored state; `rest` stands for the start, exit and action fields. */
  datatype Runtime = Runtime(pid: Option<nat>, createTime: Option<real>, rest: nat)

  const STOPPED: Runtime := Runtime(None, None, 0)

  /** What a thread carries from its reading to its commit. `stored` is how many states had
      been stored for the service when the process was judged dead; `locked` whether the
      thread holds the operation lock of the service, as a stop or forget does. */
  datatype Observation =
    | Snapshot(sid: Id, seen: Runtime, locked: bool)
    | JudgedDead(sid: Id, seen: Runtime, locked: bool, stored: nat)
    | Evaluated(sid: Id, seen: Runtime, candidate: Process)

  /** One commit for a service: the state stored in memory and whether writing it to the
      runtime file succeeded. */
  datatype Store = Store(state: Runtime, saved: bool)

  /** `loaded` are the runtime files found at startup, `locks` the operation locks that
      waiting threads hold. */
  datatype State = State(
    loaded: map<Id, Runtime>, states: map<Id, Runtime>, files: map<Id, Runtime>,
    live: set<Process>, ever: set<Process>,
    held: map<Thread, Observation>, locks: set<Id>, history: map<Id, seq<Store>>)

  /** `FailStart` is a spawn that ended before its create time and group could be read: the
      start raises and stores nothing. */
  datatype Step =
    | Start(sid: Id, p: Process, rest: nat, saved: bool)
    | FailStart(sid: Id, p: Process)
    | Appear(p: Process)
    | Die(p: Process)
    | TakeSnapshot(t: Thread, sid: Id, locked: bool)
    | JudgeDead(t: Thread)
    | GiveUp(t: Thread)
    | CommitStopped(t: Thread, rest: nat, saved: bool)
    | CommitForget(t: Thread, saved: bool)
    | Evaluate(t: Thread, sid: Id, candidate: Process)
    | CommitAdopt(t: Thread, current: Process, rest: nat, saved: bool)

  function Lookup(m: map<Id, Runtime>, sid: Id): Runtime {
    if sid in m then m[sid] else STOPPED
  }

  function History(s: State, sid: Id): seq<Store> {
    if sid in s.history then s.history[sid] else []
  }

  predicate Close(a: real, b: real) {
    -1.0 <= a - b <= 1.0
  }

  /** The identity test of the liveness check: equal pid and, when known, a create time
      within a second. */
  predicate Tracks(r: Runtime, p: Process) {
    r.pid == Some(p.pid) && (r.createTime.Some? ==> Close(r.createTime.value, p.createTime))
  }

  predicate SameIdentity(a: Runtime, b: Runtime) {
    a.pid == b.pid && a.createTime == b.createTime
  }

  /** The operating system never reuses a pid within the tolerance of the check. */
  predicate NewToSystem(s: State, p: Process) {
    forall q :: q in s.ever ==> q.pid == p.pid ==> !Close(q.createTime, p.createTime)
  }

  /** The adoption check against the other services. */
  predicate TakenByOther(states: map<Id, Runtime>, sid: Id, current: Process) {
    exists other :: other in states && other != sid && Tracks(states[other], current)
  }

  predicate Locked(o: Observation) {
    !o.Evaluated? && o.locked
  }

  predicate MaySpawn(s: State, sid: Id, p: Process) {
    && NewToSystem(s, p) && sid !in s.locks
    && forall q :: q in s.live ==> q.pid != p.pid && !Tracks(Lookup(s.states, sid), q)
  }

  /** Start, stop, forget and the commit of an adoption hold the operation lock of the
      service; an inspection does not. */
  predicate Enabled(s: State, step: Step) {
    match step
    case Start(sid, p, _, _) => MaySpawn(s, sid, p)
    case FailStart(sid, p) => MaySpawn(s, sid, p)
    case Appear(p) => NewToSystem(s, p) && forall q :: q in s.live ==> q.pid != p.pid
    case Die(p) => p in s.live
    case TakeSnapshot(t, sid, locked) => t !in s.held && (locked ==> sid !in s.locks)
    case JudgeDead(t) =>
      t in s.held && s.held[t].Snapshot? && forall q :: q in s.live ==> !Tracks(s.held[t].seen, q)
    case GiveUp(t) => t in s.held
    case CommitStopped(t, _, _) => t in s.held && s.held[t].JudgedDead? && s.held[t].seen.pid.Some?
    case CommitForget(t, _) => t in s.held && s.held[t].JudgedDead? && s.held[t].locked
    case Evaluate(t, _, candidate) => t !in s.held && candidate in s.live
    case CommitAdopt(t, current, _, _) =>
      t in s.held && s.held[t].Evaluated? && current in s.live && s.held[t].sid !in s.locks
  }

  /** The state in memory is replaced first; then the file is written, which may raise. */
  function Commit(s: State, sid: Id, stored: Store): State {
    s.(states := s.states[sid := stored.state],
       files := if stored.saved then s.files[sid := stored.state] else s.files,
       history := s.history[sid := History(s, sid) + [stored]])
  }

  function Remove(s: State, sid: Id, saved: bool): State {
    s.(states := s.states - {sid}, files := if saved then s.files - {sid} else s.files,
       history := s.history[sid := History(s, sid) + [Store(STOPPED, saved)]])
  }

  function Release(s: State, t: Thread): State
    requires t in s.held
  {
    s.(held := s.held - {t}, locks := if Locked(s.held[t]) then s.locks - {s.held[t].sid} else s.locks)
  }

  predicate MayAdopt(states: map<Id, Runtime>, sid: Id, seen: Runtime, candidate: Process, current: Process) {
    && current.pid == candidate.pid && Close(current.createTime, candidate.createTime)
    && Lookup(states, sid) == seen
    && !TakenByOther(states, sid, current)
  }

  function Next(s: State, step: Step): State
    requires Enabled(s, step)
  {
    match step
    case Start(sid, p, rest, saved) =>
      Commit(s.(live := s.live + {p}, ever := s.ever + {p}), sid, Store(Tracking(p, rest), saved))
    case FailStart(_, p) => s.(ever := s.ever + {p})
    case Appear(p) => s.(live := s.live + {p}, ever := s.ever + {p})
    case Die(p) => s.(live := s.live - {p})
    case TakeSnapshot(t, sid, locked) =>
      s.(held := s.held[t := Snapshot(sid, Lookup(s.states, sid), locked)],
         locks := if locked then s.locks + {sid} else s.locks)
    case JudgeDead(t) =>
      var o := s.held[t];
      s.(held := s.held[t := JudgedDead(o.sid, o.seen, o.locked, |History(s, o.sid)|)])
    case GiveUp(t) => Release(s, t)
    case CommitStopped(t, rest, saved) =>
      var o := s.held[t];
      if o.sid in s.states && SameIdentity(s.states[o.sid], o.seen)
      then Release(Commit(s, o.sid, Store(Runtime(None, None, rest), saved)), t)
      else Release(s, t)
    case CommitForget(t, saved) =>
      var o := s.held[t];
      if SameIdentity(Lookup(s.states, o.sid), o.seen) then Release(Remove(s, o.sid, saved), t) else Release(s, t)
    case Evaluate(t, sid, candidate) => s.(held := s.held[t := Evaluated(sid, Lookup(s.states, sid), candidate)])
    case CommitAdopt(t, current, rest, saved) =>
      var o := s.held[t];
      if MayAdopt(s.states, o.sid, o.seen, o.candidate, current)
      then Release(Commit(s, o.sid, Store(Tracking(o.candidate, rest), saved)), t)
      else Release(s, t)
  }

  function Tracking(p: Process, rest: nat): Runtime {
    Runtime(Some(p.pid), Some(p.createTime), rest)
  }

  /** How a commit ends: the state was another one, state and file were replaced, or the
      state was replaced and writing the file raised. */
  datatype Outcome = Unchanged | Committed | SaveFailed

  /** The fields behind the state lock; every method is one critical section. */
  class ProcessManager {
    var states: map<Id, Runtime>
    var files: map<Id, Runtime>

    /** `_load_all`. */
    constructor (loaded: map<Id, Runtime>)
      ensures states == loaded && files == loaded
    {
      states, files := loaded, loaded;
    }

    /** Replaces the state, then writes the file; false where the write raises. */
    method Save(sid: Id, r: Runtime, writable: bool) returns (saved: bool)
      modifies this`states, this`files
      ensures states == old(states)[sid := r] && saved == writable
      ensures files == if writable then old(files)[sid := r] else old(files)
    {
      states := states[sid := r];
      if writable {
        files := files[sid := r];
      }
      return writable;
    }

    /** The commit at the end of `start`. */
    method CommitStart(sid: Id, p: Process, rest: nat, writable: bool) returns (saved: bool)
      modifies this
      ensures saved == writable
      ensures var started := Runtime(Some(p.pid), Some(p.createTime), rest);
        && states == old(states)[sid := started]
        && files == (if writable then old(files)[sid := started] else old(files))
    {
      saved := Save(sid, Tracking(p, rest), writable);
    }

    /** `_mark_stopped_if_current`. */
    method MarkStoppedIfCurrent(sid: Id, expected: Runtime, rest: nat, writable: bool) returns (outcome: Outcome)
      modifies this
      ensures outcome == Unchanged <==>
        !(sid in old(states) && old(states)[sid].pid == expected.pid && old(states)[sid].createTime == expected.createTime)
      ensures outcome == SaveFailed ==> !writable
      ensures outcome == Committed ==> writable
      ensures outcome == Unchanged ==> states == old(states) && files == old(files)
      ensures outcome != Unchanged ==> states == old(states)[sid := Runtime(None, None, rest)]
      ensures outcome == Committed ==> files == old(files)[sid := Runtime(None, None, rest)]
      ensures outcome == SaveFailed ==> files == old(files)
    {
      if sid !in states || !SameIdentity(states[sid], expected) {
        return Unchanged;
      }
      var saved := Save(sid, Runtime(None, None, rest), writable);
      return if saved then Committed else SaveFailed;
    }

    /** The locked part of `_commit_adopt_evaluation`; the fresh create time was compared
        with the candidate before. */
    method CommitAdoption(sid: Id, seen: Runtime, candidate: Process, current: Process, rest: nat, writable: bool)
      returns (outcome: Outcome)
      requires current.pid == candidate.pid && Close(current.createTime, candidate.createTime)
      modifies this
      ensures outcome != Unchanged <==>
        && (if sid in old(states) then old(states)[sid] else Runtime(None, None, 0)) == seen
        && forall x :: x in old(states) && x != sid && old(states)[x].pid == Some(current.pid) ==>
             old(states)[x].createTime.Some? && !(-1.0 <= old(states)[x].createTime.value - current.createTime <= 1.0)
      ensures outcome == SaveFailed ==> !writable
      ensures outcome == Committed ==> writable
      ensures var adopted := Runtime(Some(candidate.pid), Some(candidate.createTime), rest);
        && states == (if outcome != Unchanged then old(states)[sid := adopted] else old(states))
        && files == (if outcome == Committed then old(files)[sid := adopted] else old(files))
    {
      if Lookup(states, sid) != seen {
        return Unchanged;
      }
      var others := states.Keys;
      while others != {}
        invariant others <= states.Keys && states == old(states) && files == old(files)
        invariant forall x :: x in states && x != sid && x !in others ==> !Tracks(states[x], current)
        decreases |others|
      {
        var x :| x in others;
        if x != sid && Tracks(states[x], current) {
          return Unchanged;
        }
        others := others - {x};
      }
      var saved := Save(sid, Tracking(candidate, rest), writable);
      return if saved then Committed else SaveFailed;
    }

    /** The locked part of `forget_service`; the unlink of the file may raise. */
    method ForgetIfCurrent(sid: Id, expected: Runtime, writable: bool) returns (outcome: Outcome)
      modifies this
      ensures outcome != Unchanged <==>
        if sid in old(states) then old(states)[sid].pid == expected.pid && old(states)[sid].createTime == expected.createTime
        else expected.pid == None && expected.createTime == None
      ensures outcome == SaveFailed ==> !writable
      ensures outcome == Committed ==> writable
      ensures states == if outcome != Unchanged then old(states) - {sid} else old(states)
      ensures files == if outcome == Committed then old(files) - {sid} else old(files)
    {
      if !SameIdentity(Lookup(states, sid), expected) {
        return Unchanged;
      }
      states := states - {sid};
      if !writable {
        return SaveFailed;
      }
      files := files - {sid};
      return Committed;
    }
  }
}
