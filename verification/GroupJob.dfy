/** A group stop, start or restart: the two passes of the job thread, with PM2, the
    health probes and the mutation guard as an environment that may fail at any step. */
module GroupJob {
  import opened Services
  import opened DependencyGraph

  datatype Action = Start | Stop | Restart

  /** `StopRefused`: a guard raised before the PM2 call. `StopRaised`: the call itself
      raised, although the process may have stopped. */
  datatype StopOutcome = StopRefused | StopRaised(nowOffline: bool) | Stopped

  /** `StartRaised`: the call or the wait for readiness raised, although the process may
      have come online. `Ready`: the wait saw the service online and healthy. */
  datatype StartOutcome = StartRefused | StartRaised(nowOnline: bool) | Ready

  datatype Environment = Environment(
    inspectFails: Id -> bool,
    stop: Id -> StopOutcome,
    start: Id -> StartOutcome,
    healthy: (Id, Id) -> bool)

  datatype Job = Job(registry: seq<Service>, group: nat, ordered: seq<Service>, action: Action, env: Environment)

  datatype Outcome = Succeeded | Failed | BlockedByDependent | BlockedByDependency | Skipped
  {
    predicate Bad() {
      Failed? || BlockedByDependent? || BlockedByDependency?
    }
  }

  datatype Result = Result(id: Id, outcome: Outcome)

  datatype Call = StopCall(id: Id) | StartCall(id: Id)

  datatype Progress = Progress(online: set<Id>, failed: set<Id>, results: seq<Result>, calls: seq<Call>)

  datatype Report = Report(succeeded: bool, outerError: bool, results: seq<Result>, online: set<Id>, calls: seq<Call>)

  /** Assignment to an ordered dictionary: a known key keeps its place. */
  function Put(results: seq<Result>, id: Id, outcome: Outcome): (r: seq<Result>)
    ensures forall x :: x in r ==> x == Result(id, outcome) || x in results
    ensures Result(id, outcome) in r
  {
    if results == [] then [Result(id, outcome)]
    else if results[0].id == id then [Result(id, outcome)] + results[1..]
    else [results[0]] + Put(results[1..], id, outcome)
  }

  // ------------------------------------------------------------------ guards

  predicate DependentFailed(job: Job, s: Service, failed: set<Id>) {
    exists t :: t in job.ordered && t.id in failed && s.id in t.dependsOn
  }

  predicate UsedOutside(job: Job, s: Service, online: set<Id>) {
    exists t :: t in job.registry && t.id !in Ids(job.ordered) && s.id in t.dependsOn && t.id in online
  }

  predicate DependenciesReady(job: Job, s: Service, online: set<Id>) {
    forall d :: d in s.dependsOn ==> d in Ids(job.registry) && d in online && job.env.healthy(s.id, d)
  }

  // ------------------------------------------------------------------ one member

  function Fail(p: Progress, id: Id, outcome: Outcome): Progress {
    p.(failed := p.failed + {id}, results := Put(p.results, id, outcome))
  }

  function StopOne(job: Job, initial: set<Id>, s: Service, p: Progress): Progress {
    if job.action == Restart && s.id !in initial then
      p.(results := Put(p.results, s.id, Skipped))
    else if DependentFailed(job, s, p.failed) then
      Fail(p, s.id, BlockedByDependent)
    else if job.env.stop(s.id).StopRefused? || UsedOutside(job, s, p.online) then
      Fail(p, s.id, Failed)
    else
      var q := p.(calls := p.calls + [StopCall(s.id)]);
      match job.env.stop(s.id)
      case StopRaised(nowOffline) =>
        Fail(if nowOffline then q.(online := q.online - {s.id}) else q, s.id, Failed)
      case _ =>
        q.(online := q.online - {s.id}, results := Put(q.results, s.id, Succeeded))
  }

  function StartOne(job: Job, initial: set<Id>, s: Service, p: Progress): Progress {
    if s.id in p.failed || (job.action == Restart && s.id !in initial) then p
    else if exists d :: d in s.dependsOn && d in p.failed then
      Fail(p, s.id, BlockedByDependency)
    else if job.env.start(s.id).StartRefused? || !DependenciesReady(job, s, p.online) then
      Fail(p, s.id, Failed)
    else
      var q := if s.id in p.online then p else p.(calls := p.calls + [StartCall(s.id)]);
      match job.env.start(s.id)
      case StartRaised(nowOnline) =>
        Fail(if nowOnline then q.(online := q.online + {s.id}) else q, s.id, Failed)
      case _ =>
        q.(online := q.online + {s.id}, results := Put(q.results, s.id, Succeeded))
  }

  // ------------------------------------------------------------------ the passes

  /** State after the stop pass has visited `ordered[k..]`, last member first. */
  function AfterStops(job: Job, initial: set<Id>, k: nat, p: Progress): Progress
    requires k <= |job.ordered|
    decreases |job.ordered| - k
  {
    if k == |job.ordered| then p
    else StopOne(job, initial, job.ordered[k], AfterStops(job, initial, k + 1, p))
  }

  /** State after the start pass has visited `ordered[..k]`. */
  function AfterStarts(job: Job, initial: set<Id>, k: nat, p: Progress): Progress
    requires k <= |job.ordered|
  {
    if k == 0 then p
    else StartOne(job, initial, job.ordered[k - 1], AfterStarts(job, initial, k - 1, p))
  }

  function Initial(job: Job, online: set<Id>): set<Id> {
    Ids(job.ordered) * online
  }

  function Begin(online: set<Id>): Progress {
    Progress(online, {}, [], [])
  }

  function StopPass(job: Job, online: set<Id>): Progress {
    if job.action == Start then Begin(online)
    else AfterStops(job, Initial(job, online), 0, Begin(online))
  }

  function JobPasses(job: Job, online: set<Id>): Progress {
    if job.action == Stop then StopPass(job, online)
    else AfterStarts(job, Initial(job, online), |job.ordered|, StopPass(job, online))
  }

  function JobReport(job: Job, online: set<Id>): Report {
    if exists s :: s in job.ordered && job.env.inspectFails(s.id) then Report(false, true, [], online, [])
    else
      var p := JobPasses(job, online);
      Report(p.failed == {}, false, p.results, p.online, p.calls)
  }

  /** The job thread itself: PM2's online set and call history, and the two collections
      the passes grow. */
  class JobRunner {
    const job: Job
    var online: set<Id>
    var failed: set<Id>
    var results: seq<Result>
    var calls: seq<Call>

    constructor (job: Job, online: set<Id>)
      ensures this.job == job && this.online == online && Now() == Begin(online)
    {
      this.job, this.online := job, online;
      failed, results, calls := {}, [], [];
    }

    function Now(): Progress
      reads this
    {
      Progress(online, failed, results, calls)
    }

    method Record(id: Id, outcome: Outcome)
      modifies this`failed, this`results
      ensures Now() == if outcome.Bad() then Fail(old(Now()), id, outcome)
                       else old(Now()).(results := Put(old(results), id, outcome))
    {
      if outcome.Bad() {
        failed := failed + {id};
      }
      results := Put(results, id, outcome);
    }

    /** `_mutate(service, "stop", ...)` and the result the pass records for it. */
    method StopMember(initial: set<Id>, s: Service)
      modifies this
      ensures Now() == StopOne(job, initial, s, old(Now()))
    {
      if job.action == Restart && s.id !in initial {
        Record(s.id, Skipped);
        return;
      }
      if DependentFailed(job, s, failed) {
        Record(s.id, BlockedByDependent);
        return;
      }
      if job.env.stop(s.id).StopRefused? || UsedOutside(job, s, online) {
        Record(s.id, Failed);
        return;
      }
      calls := calls + [StopCall(s.id)];
      var outcome := job.env.stop(s.id);
      if outcome.Stopped? || outcome.nowOffline {
        online := online - {s.id};
      }
      Record(s.id, if outcome.Stopped? then Succeeded else Failed);
    }

    /** `_mutate(service, "start", ...)` with its readiness wait. */
    method StartMember(initial: set<Id>, s: Service)
      modifies this
      ensures Now() == StartOne(job, initial, s, old(Now()))
    {
      if s.id in failed || (job.action == Restart && s.id !in initial) {
        return;
      }
      if exists d :: d in s.dependsOn && d in failed {
        Record(s.id, BlockedByDependency);
        return;
      }
      if job.env.start(s.id).StartRefused? || !DependenciesReady(job, s, online) {
        Record(s.id, Failed);
        return;
      }
      if s.id !in online {
        calls := calls + [StartCall(s.id)];
      }
      var outcome := job.env.start(s.id);
      if outcome.Ready? || outcome.nowOnline {
        online := online + {s.id};
      }
      Record(s.id, if outcome.Ready? then Succeeded else Failed);
    }

    /** The inspection before the passes: who is online, or that an inspection raised. */
    method Inspect() returns (initial: set<Id>, raised: bool)
      ensures raised <==> exists s :: s in job.ordered && job.env.inspectFails(s.id)
      ensures !raised ==> initial == Initial(job, online)
    {
      initial := {};
      for i := 0 to |job.ordered|
        invariant initial == Ids(job.ordered[..i]) * online
        invariant forall j :: 0 <= j < i ==> !job.env.inspectFails(job.ordered[j].id)
      {
        assert job.ordered[..i + 1] == job.ordered[..i] + [job.ordered[i]];
        if job.env.inspectFails(job.ordered[i].id) {
          assert job.ordered[i] in job.ordered;
          return initial, true;
        }
        if job.ordered[i].id in online {
          initial := initial + {job.ordered[i].id};
        }
      }
      assert job.ordered[..|job.ordered|] == job.ordered;
      return initial, false;
    }

    method StopAll(initial: set<Id>)
      modifies this
      ensures Now() == AfterStops(job, initial, 0, old(Now()))
    {
      hide StopOne;
      for k := |job.ordered| downto 0
        invariant Now() == AfterStops(job, initial, k, old(Now()))
      {
        StopMember(initial, job.ordered[k]);
      }
    }

    method StartAll(initial: set<Id>)
      modifies this
      ensures Now() == AfterStarts(job, initial, |job.ordered|, old(Now()))
    {
      hide StartOne;
      for k := 0 to |job.ordered|
        invariant Now() == AfterStarts(job, initial, k, old(Now()))
      {
        StartMember(initial, job.ordered[k]);
      }
    }

    /** `_run_job`. */
    method Run() returns (report: Report)
      requires Now() == Begin(online)
      modifies this
      ensures report == JobReport(job, old(online))
    {
      var initial, raised := Inspect();
      hide AfterStops, AfterStarts, Initial;
      if raised {
        return Report(false, true, [], online, []);
      }
      if job.action != Start {
        StopAll(initial);
      }
      if job.action != Stop {
        StartAll(initial);
      }
      report := Report(failed == {}, false, results, online, calls);
    }
  }
}
