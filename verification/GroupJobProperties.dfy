/** What a whole group job keeps and what its report means, for every environment. */
module GroupJobProperties {
  import opened Services
  import opened DependencyGraph
  import opened GroupJob

  /** Every online service has all its dependencies online. */
  ghost predicate Closed(registry: seq<Service>, online: set<Id>) {
    forall s, d :: s in registry && s.id in online && d in s.dependsOn ==> d in online
  }

  /** A job as `submit_group` builds it from an accepted registry. */
  ghost predicate Submitted(job: Job) {
    Accepts(job.registry) && IsOrderOf(job.ordered, Index(InGroup(job.registry, job.group)))
  }

  /** The facts about a submitted job that the passes rely on. */
  ghost predicate WellOrdered(job: Job) {
    && UniqueIds(job.registry) && UniqueIds(job.ordered)
    && (forall s :: s in job.ordered ==> s in job.registry)
    && (forall i, j | 0 <= i < |job.ordered| && 0 <= j < |job.ordered| ::
          job.ordered[j].id in job.ordered[i].dependsOn ==> j < i)
  }

  /** In a duplicate-free order each dependency stands before its dependent. */
  lemma DependencyIsEarlier(order: seq<Service>, index: map<Id, Service>, i: nat, j: nat)
    requires UniqueIds(order) && DependenciesFirst(order, index)
    requires i < |order| && j < |order| && order[j].id in index && order[j].id in order[i].dependsOn
    ensures j < i
  {
    assert Among(order, i, order[j].id);
    var m :| 0 <= m < i && order[m].id == order[j].id;
    assert m == j;
  }

  lemma SubmittedIsWellOrdered(job: Job)
    requires Submitted(job)
    ensures WellOrdered(job)
  {
    var order := job.ordered;
    var index := Index(InGroup(job.registry, job.group));
    hide Cyclic, DependsOnOthers, UniqueIds, DependenciesFirst;
    forall i, j | 0 <= i < |order| && 0 <= j < |order| && order[j].id in order[i].dependsOn
      ensures j < i
    {
      assert order[j] in order && order[j].id in index;
      DependencyIsEarlier(order, index, i, j);
    }
  }

  // ------------------------------------------------------------------ closure

  /** The stop pass has dealt with `ordered[k..]`: those members are offline or failed. */
  ghost predicate StopProgress(job: Job, before: set<Id>, k: nat, p: Progress)
    requires k <= |job.ordered|
  {
    && p.online <= before
    && (forall id :: id in before && id !in p.online ==> id in Ids(job.ordered[k..]))
    && (forall j :: k <= j < |job.ordered| ==>
          job.ordered[j].id in p.failed || job.ordered[j].id !in p.online)
  }

  lemma StopOneKeepsClosed(job: Job, before: set<Id>, k: nat, p: Progress)
    requires WellOrdered(job) && k < |job.ordered|
    requires StopProgress(job, before, k + 1, p) && Closed(job.registry, p.online)
    ensures Closed(job.registry, StopOne(job, Initial(job, before), job.ordered[k], p).online)
  {
    var s := job.ordered[k];
    var q := StopOne(job, Initial(job, before), s, p);
    forall t | t in job.registry && t.id in p.online && s.id in t.dependsOn
      ensures DependentFailed(job, s, p.failed) || UsedOutside(job, s, p.online)
    {
      if t.id in Ids(job.ordered) {
        var j :| 0 <= j < |job.ordered| && job.ordered[j].id == t.id;
        assert job.ordered[j] == t && k < j;
      }
    }
  }

  lemma StopOneMoves(job: Job, before: set<Id>, s: Service, p: Progress)
    requires s in job.ordered && p.online <= before
    ensures var q := StopOne(job, Initial(job, before), s, p);
      && q.online <= p.online <= q.online + {s.id} && p.failed <= q.failed
      && (s.id in q.failed || s.id !in q.online)
  {
  }

  lemma StopOneKeepsProgress(job: Job, before: set<Id>, k: nat, p: Progress)
    requires WellOrdered(job) && k < |job.ordered| && StopProgress(job, before, k + 1, p)
    ensures StopProgress(job, before, k, StopOne(job, Initial(job, before), job.ordered[k], p))
  {
    hide WellOrdered;
    assert job.ordered[k..] == [job.ordered[k]] + job.ordered[k + 1..];
    assert Ids(job.ordered[k..]) == {job.ordered[k].id} + Ids(job.ordered[k + 1..]);
    StopOneMoves(job, before, job.ordered[k], p);
    hide StopOne, Ids;
  }

  lemma {:induction false} StopsKeepClosed(job: Job, before: set<Id>, k: nat)
    requires WellOrdered(job) && k <= |job.ordered| && Closed(job.registry, before)
    ensures Closed(job.registry, AfterStops(job, Initial(job, before), k, Begin(before)).online)
    ensures StopProgress(job, before, k, AfterStops(job, Initial(job, before), k, Begin(before)))
    decreases |job.ordered| - k
  {
    if k < |job.ordered| {
      StopsKeepClosed(job, before, k + 1);
      var p := AfterStops(job, Initial(job, before), k + 1, Begin(before));
      StopOneKeepsClosed(job, before, k, p);
      StopOneKeepsProgress(job, before, k, p);
    }
  }

  lemma StartOneKeepsClosed(job: Job, initial: set<Id>, s: Service, p: Progress)
    requires UniqueIds(job.registry) && s in job.registry && Closed(job.registry, p.online)
    ensures Closed(job.registry, StartOne(job, initial, s, p).online)
  {
    var q := StartOne(job, initial, s, p);
    forall t, d | t in job.registry && t.id in q.online && d in t.dependsOn
      ensures d in q.online
    {
      if t.id !in p.online {
        assert t == s;
      }
    }
  }

  lemma {:induction false} StartsKeepClosed(job: Job, initial: set<Id>, k: nat, p: Progress)
    requires WellOrdered(job) && k <= |job.ordered| && Closed(job.registry, p.online)
    ensures Closed(job.registry, AfterStarts(job, initial, k, p).online)
  {
    if k > 0 {
      StartsKeepClosed(job, initial, k - 1, p);
      assert job.ordered[k - 1] in job.registry;
      StartOneKeepsClosed(job, initial, job.ordered[k - 1], AfterStarts(job, initial, k - 1, p));
    }
  }

  lemma PassesKeepClosed(job: Job, before: set<Id>)
    requires WellOrdered(job) && Closed(job.registry, before)
    ensures Closed(job.registry, StopPass(job, before).online)
    ensures Closed(job.registry, JobPasses(job, before).online)
  {
    hide WellOrdered, Closed, StopProgress, AfterStops, AfterStarts;
    StopsKeepClosed(job, before, 0);
    if job.action != Stop {
      StartsKeepClosed(job, Initial(job, before), |job.ordered|, StopPass(job, before));
    }
  }

  lemma ReportOfPasses(job: Job, before: set<Id>)
    ensures var report := JobReport(job, before);
      if report.outerError then report.online == before && report.calls == []
      else report.online == JobPasses(job, before).online && report.calls == JobPasses(job, before).calls
           && report.results == JobPasses(job, before).results
           && (report.succeeded <==> JobPasses(job, before).failed == {})
  {
    hide JobPasses;
  }

  /** A whole job keeps the online set closed under dependencies, whichever guards, PM2
      calls and readiness waits fail, including failures that still changed the state. */
  lemma JobKeepsClosed(job: Job, before: set<Id>)
    requires Submitted(job) && Closed(job.registry, before)
    ensures Closed(job.registry, JobReport(job, before).online)
  {
    SubmittedIsWellOrdered(job);
    hide Submitted, WellOrdered, Closed, JobPasses, JobReport, StopPass;
    PassesKeepClosed(job, before);
    ReportOfPasses(job, before);
  }

  // ------------------------------------------------------------------ results

  lemma {:induction false} PutNewKey(results: seq<Result>, id: Id, outcome: Outcome)
    requires forall i :: 0 <= i < |results| ==> results[i].id != id
    ensures Put(results, id, outcome) == results + [Result(id, outcome)]
  {
    if results != [] {
      PutNewKey(results[1..], id, outcome);
    }
  }

  lemma {:induction false} PutKnownKey(results: seq<Result>, m: nat, outcome: Outcome)
    requires m < |results| && forall i :: 0 <= i < m ==> results[i].id != results[m].id
    ensures Put(results, results[m].id, outcome) == results[m := Result(results[m].id, outcome)]
  {
    if m > 0 {
      PutKnownKey(results[1..], m - 1, outcome);
    }
  }

  /** Where the result of `ordered[j]` stands: the stop pass fills the list backwards. */
  function Slot(job: Job, j: nat): int {
    if job.action == Start then j else |job.ordered| - 1 - j
  }

  /** What a recorded result says once the stop pass is over its member. */
  ghost predicate Stopping(job: Job, before: set<Id>, r: Result, p: Progress) {
    && (r.outcome.Bad() <==> r.id in p.failed)
    && (r.outcome == Skipped <==> job.action == Restart && r.id !in before)
    && (r.outcome == Skipped ==> r.id !in p.online)
    && (r.outcome == Succeeded ==> r.id !in p.online && StopCall(r.id) in p.calls && job.env.stop(r.id).Stopped?)
    && (r.outcome == BlockedByDependent ==> (r.id in p.online <==> r.id in before))
    && r.outcome != BlockedByDependency
  }

  /** What the final result of a member says. */
  ghost predicate Settled(job: Job, before: set<Id>, r: Result, p: Progress) {
    && (r.outcome.Bad() <==> r.id in p.failed)
    && (r.outcome == Skipped <==> job.action == Restart && r.id !in before)
    && (r.outcome == Skipped ==> r.id !in p.online)
    && (r.outcome == Succeeded ==> (r.id in p.online <==> job.action != Stop))
    && (r.outcome == Succeeded && job.action == Restart ==> r.id in before && StopCall(r.id) in p.calls)
    && (r.outcome == BlockedByDependent ==> job.action != Start && (r.id in p.online <==> r.id in before))
    && (r.outcome == BlockedByDependency ==>
          job.action != Stop && (r.id in p.online <==> job.action == Start && r.id in before))
  }

  ghost predicate StopResults(job: Job, before: set<Id>, k: nat, p: Progress)
    requires k <= |job.ordered|
  {
    var n := |job.ordered|;
    && |p.results| == n - k
    && p.failed <= Ids(job.ordered[k..])
    && (forall j :: 0 <= j < k ==> (job.ordered[j].id in p.online <==> job.ordered[j].id in before))
    && (forall j :: k <= j < n ==> p.results[n - 1 - j].id == job.ordered[j].id)
    && (forall i :: 0 <= i < n - k ==> Stopping(job, before, p.results[i], p))
  }

  /** A step for one member leaves all other members alone. */
  ghost predicate TouchesOnly(id: Id, p: Progress, q: Progress) {
    && (forall x :: x != id ==> (x in p.online <==> x in q.online))
    && (forall x :: x != id ==> (x in p.failed <==> x in q.failed))
    && p.calls <= q.calls
  }

  lemma StopOneEffect(job: Job, before: set<Id>, s: Service, p: Progress) returns (outcome: Outcome)
    requires job.action != Start && s in job.ordered
    requires s.id in p.online <==> s.id in before
    requires s.id !in p.failed
    ensures var q := StopOne(job, Initial(job, before), s, p);
      && q.results == Put(p.results, s.id, outcome)
      && Stopping(job, before, Result(s.id, outcome), q)
      && TouchesOnly(s.id, p, q)
  {
    if job.action == Restart && s.id !in Initial(job, before) {
      outcome := Skipped;
    } else if DependentFailed(job, s, p.failed) {
      outcome := BlockedByDependent;
    } else if job.env.stop(s.id).Stopped? && !UsedOutside(job, s, p.online) {
      outcome := Succeeded;
    } else {
      outcome := Failed;
    }
  }

  lemma StopOneRecords(job: Job, before: set<Id>, k: nat, p: Progress)
    requires WellOrdered(job) && job.action != Start && k < |job.ordered|
    requires StopResults(job, before, k + 1, p)
    ensures StopResults(job, before, k, StopOne(job, Initial(job, before), job.ordered[k], p))
  {
    var n, s := |job.ordered|, job.ordered[k];
    assert s in job.ordered;
    var outcome := StopOneEffect(job, before, s, p);
    hide StopOne, Stopping;
    forall i | 0 <= i < |p.results| ensures p.results[i].id != s.id {
      assert p.results[n - 1 - (n - 1 - i)].id == job.ordered[n - 1 - i].id;
    }
    PutNewKey(p.results, s.id, outcome);
    StopFrame(job, before, k, p, StopOne(job, Initial(job, before), s, p), outcome);
  }

  lemma StopFrame(job: Job, before: set<Id>, k: nat, p: Progress, q: Progress, outcome: Outcome)
    requires WellOrdered(job) && k < |job.ordered| && StopResults(job, before, k + 1, p)
    requires TouchesOnly(job.ordered[k].id, p, q)
    requires q.results == p.results + [Result(job.ordered[k].id, outcome)]
    requires Stopping(job, before, Result(job.ordered[k].id, outcome), q)
    requires forall i :: 0 <= i < |p.results| ==> p.results[i].id != job.ordered[k].id
    ensures StopResults(job, before, k, q)
  {
    var s := job.ordered[k];
    hide Stopping;
    assert job.ordered[k..] == [s] + job.ordered[k + 1..];
    forall i | 0 <= i < |q.results| ensures Stopping(job, before, q.results[i], q) {
      if i < |p.results| {
        StoppingSurvives(job, before, s.id, p.results[i], p, q);
      }
    }
  }

  lemma StoppingSurvives(job: Job, before: set<Id>, id: Id, r: Result, p: Progress, q: Progress)
    requires TouchesOnly(id, p, q) && r.id != id && Stopping(job, before, r, p)
    ensures Stopping(job, before, r, q)
  {
  }

  lemma {:induction false} StopsRecord(job: Job, before: set<Id>, k: nat)
    requires WellOrdered(job) && job.action != Start && k <= |job.ordered|
    ensures StopResults(job, before, k, AfterStops(job, Initial(job, before), k, Begin(before)))
    decreases |job.ordered| - k
  {
    if k < |job.ordered| {
      StopsRecord(job, before, k + 1);
      StopOneRecords(job, before, k, AfterStops(job, Initial(job, before), k + 1, Begin(before)));
    }
  }

  function Filled(job: Job, k: nat): nat {
    if job.action == Start then k else |job.ordered|
  }

  ghost predicate StartResults(job: Job, before: set<Id>, k: nat, p: Progress)
    requires k <= |job.ordered|
  {
    && |p.results| == Filled(job, k)
    && p.failed <= Ids(job.ordered[..Filled(job, k)])
    && (job.action == Start ==>
          forall j :: k <= j < |job.ordered| ==> (job.ordered[j].id in p.online <==> job.ordered[j].id in before))
    && (forall j :: 0 <= j < Filled(job, k) ==> p.results[Slot(job, j)].id == job.ordered[j].id)
    && (forall j :: 0 <= j < k ==> Settled(job, before, p.results[Slot(job, j)], p))
    && (forall j :: k <= j < Filled(job, k) ==> Stopping(job, before, p.results[Slot(job, j)], p))
  }

  lemma StartOneEffect(job: Job, before: set<Id>, s: Service, p: Progress) returns (outcome: Outcome)
    requires job.action != Stop && s in job.ordered && s.id !in p.failed
    requires job.action == Start ==> (s.id in p.online <==> s.id in before)
    requires job.action == Restart ==> s.id in before && s.id !in p.online && StopCall(s.id) in p.calls
    ensures var q := StartOne(job, Initial(job, before), s, p);
      && q.results == Put(p.results, s.id, outcome)
      && Settled(job, before, Result(s.id, outcome), q)
      && TouchesOnly(s.id, p, q)
  {
    if exists d :: d in s.dependsOn && d in p.failed {
      outcome := BlockedByDependency;
    } else if job.env.start(s.id).Ready? && DependenciesReady(job, s, p.online) {
      outcome := Succeeded;
    } else {
      outcome := Failed;
    }
  }

  lemma SettledSurvives(job: Job, before: set<Id>, id: Id, r: Result, p: Progress, q: Progress)
    requires TouchesOnly(id, p, q) && r.id != id && Settled(job, before, r, p)
    ensures Settled(job, before, r, q)
  {
  }

  lemma FreshStartRecords(job: Job, before: set<Id>, k: nat, p: Progress)
    requires WellOrdered(job) && job.action == Start && k < |job.ordered|
    requires StartResults(job, before, k, p)
    ensures StartResults(job, before, k + 1, StartOne(job, Initial(job, before), job.ordered[k], p))
  {
    var s := job.ordered[k];
    assert s in job.ordered;
    assert s.id !in p.failed;
    var outcome := StartOneEffect(job, before, s, p);
    hide StartOne, Settled, Stopping;
    forall i | 0 <= i < k ensures p.results[i].id != s.id {
      assert p.results[Slot(job, i)].id == job.ordered[i].id;
    }
    PutNewKey(p.results, s.id, outcome);
    StartFrame(job, before, k, p, StartOne(job, Initial(job, before), s, p), outcome);
  }

  lemma StartFrame(job: Job, before: set<Id>, k: nat, p: Progress, q: Progress, outcome: Outcome)
    requires WellOrdered(job) && job.action == Start && k < |job.ordered| && StartResults(job, before, k, p)
    requires TouchesOnly(job.ordered[k].id, p, q)
    requires q.results == p.results + [Result(job.ordered[k].id, outcome)]
    requires Settled(job, before, Result(job.ordered[k].id, outcome), q)
    requires forall i :: 0 <= i < |p.results| ==> p.results[i].id != job.ordered[k].id
    ensures StartResults(job, before, k + 1, q)
  {
    var s := job.ordered[k];
    hide Settled, Stopping;
    assert job.ordered[..k + 1] == job.ordered[..k] + [s];
    forall j | 0 <= j < k + 1 ensures Settled(job, before, q.results[Slot(job, j)], q) {
      if j < k {
        SettledSurvives(job, before, s.id, p.results[Slot(job, j)], p, q);
      }
    }
  }

  lemma RestartRecords(job: Job, before: set<Id>, k: nat, p: Progress)
    requires WellOrdered(job) && job.action == Restart && k < |job.ordered|
    requires StartResults(job, before, k, p)
    ensures StartResults(job, before, k + 1, StartOne(job, Initial(job, before), job.ordered[k], p))
  {
    var s, n := job.ordered[k], |job.ordered|;
    var m := Slot(job, k);
    var r := p.results[m];
    assert r.id == s.id && Stopping(job, before, r, p);
    assert s in job.ordered;
    if s.id !in p.failed && s.id in Initial(job, before) {
      assert r.outcome == Succeeded;
      var q := StartOne(job, Initial(job, before), s, p);
      var outcome := StartOneEffect(job, before, s, p);
      forall j | 0 <= j < n && j != k
        ensures p.results[Slot(job, j)].id != s.id
      {
        assert p.results[Slot(job, j)].id == job.ordered[j].id;
      }
      forall i | 0 <= i < m ensures p.results[i].id != s.id {
        assert i == Slot(job, n - 1 - i);
      }
      PutKnownKey(p.results, m, outcome);
      RestartFrame(job, before, k, p, q, outcome);
    }
  }

  lemma RestartFrame(job: Job, before: set<Id>, k: nat, p: Progress, q: Progress, outcome: Outcome)
    requires WellOrdered(job) && job.action == Restart && k < |job.ordered|
    requires StartResults(job, before, k, p) && TouchesOnly(job.ordered[k].id, p, q)
    requires q.results == p.results[Slot(job, k) := Result(job.ordered[k].id, outcome)]
    requires Settled(job, before, Result(job.ordered[k].id, outcome), q)
    ensures StartResults(job, before, k + 1, q)
  {
    var s := job.ordered[k];
    hide Settled, Stopping;
    assert job.ordered[..|job.ordered|] == job.ordered;
    assert s in job.ordered;
    forall j | 0 <= j < k ensures Settled(job, before, q.results[Slot(job, j)], q) {
      assert p.results[Slot(job, j)].id == job.ordered[j].id;
      SettledSurvives(job, before, s.id, p.results[Slot(job, j)], p, q);
    }
    forall j | k + 1 <= j < |job.ordered| ensures Stopping(job, before, q.results[Slot(job, j)], q) {
      assert p.results[Slot(job, j)].id == job.ordered[j].id;
      StoppingSurvives(job, before, s.id, p.results[Slot(job, j)], p, q);
    }
  }

  lemma {:induction false} StartsRecord(job: Job, before: set<Id>, k: nat)
    requires WellOrdered(job) && job.action != Stop && k <= |job.ordered|
    ensures StartResults(job, before, k,
                         AfterStarts(job, Initial(job, before), k, StopPass(job, before)))
  {
    hide StartResults, StopResults, StartOne;
    if k == 0 {
      PassBegins(job, before);
    } else {
      StartsRecord(job, before, k - 1);
      var p := AfterStarts(job, Initial(job, before), k - 1, StopPass(job, before));
      if job.action == Start {
        FreshStartRecords(job, before, k - 1, p);
      } else {
        RestartRecords(job, before, k - 1, p);
      }
    }
  }

  lemma PassBegins(job: Job, before: set<Id>)
    requires WellOrdered(job) && job.action != Stop
    ensures StartResults(job, before, 0, StopPass(job, before))
  {
    hide Stopping;
    if job.action == Restart {
      StopsRecord(job, before, 0);
      assert job.ordered[..|job.ordered|] == job.ordered[0..];
    }
  }

  /** Exactly one result per member, in stop order when there is a stop pass and in start
      order otherwise; each result says what became of its member. */
  ghost predicate Reported(job: Job, before: set<Id>, p: Progress) {
    && |p.results| == |job.ordered|
    && (forall j :: 0 <= j < |job.ordered| ==> p.results[Slot(job, j)].id == job.ordered[j].id)
    && (forall r :: r in p.results ==> Settled(job, before, r, p))
    && p.failed <= Ids(job.ordered)
  }

  lemma PassesReport(job: Job, before: set<Id>)
    requires WellOrdered(job)
    ensures Reported(job, before, JobPasses(job, before))
  {
    var n := |job.ordered|;
    assert job.ordered[..n] == job.ordered == job.ordered[0..];
    hide WellOrdered, StopResults, StartResults, Reported, AfterStops, AfterStarts;
    if job.action == Stop {
      StopsRecord(job, before, 0);
      StopsReported(job, before, JobPasses(job, before));
    } else {
      StartsRecord(job, before, n);
      StartsReported(job, before, JobPasses(job, before));
    }
  }

  lemma StopsReported(job: Job, before: set<Id>, p: Progress)
    requires job.action == Stop && StopResults(job, before, 0, p)
    ensures Reported(job, before, p)
  {
    assert job.ordered[0..] == job.ordered;
    forall r | r in p.results ensures Settled(job, before, r, p) {
      assert Stopping(job, before, r, p);
    }
    hide Settled, Stopping;
  }

  lemma StartsReported(job: Job, before: set<Id>, p: Progress)
    requires job.action != Stop && StartResults(job, before, |job.ordered|, p)
    ensures Reported(job, before, p)
  {
    var n := |job.ordered|;
    assert job.ordered[..n] == job.ordered;
    hide Settled, Stopping;
    forall r | r in p.results ensures Settled(job, before, r, p) {
      var i :| 0 <= i < n && p.results[i] == r;
      var j := if job.action == Start then i else n - 1 - i;
      assert Slot(job, j) == i;
    }
  }

  /** A job without an outer error has one result per member, succeeds exactly when no
      result is failed or blocked, and its results tell the final state of the members. */
  lemma ReportMeaning(job: Job, before: set<Id>)
    requires Submitted(job)
    ensures var report, p := JobReport(job, before), JobPasses(job, before);
      !report.outerError ==>
        && report.results == p.results && report.online == p.online
        && Reported(job, before, p)
        && (report.succeeded <==> forall r :: r in report.results ==> !r.outcome.Bad())
  {
    SubmittedIsWellOrdered(job);
    hide Submitted, WellOrdered, JobPasses, JobReport;
    PassesReport(job, before);
    ReportOfPasses(job, before);
    var p := JobPasses(job, before);
    forall id | id in p.failed ensures exists r :: r in p.results && r.outcome.Bad() {
      var j :| 0 <= j < |job.ordered| && job.ordered[j].id == id;
      var r := p.results[Slot(job, j)];
      assert r in p.results && Settled(job, before, r, p);
    }
  }

  lemma StepTouchesMember(job: Job, initial: set<Id>, s: Service, p: Progress, id: Id)
    requires id != s.id
    ensures id in StopOne(job, initial, s, p).online <==> id in p.online
    ensures id in StartOne(job, initial, s, p).online <==> id in p.online
  {
    hide Put, DependentFailed, UsedOutside, DependenciesReady;
  }

  lemma {:induction false} StopsTouchMembers(job: Job, initial: set<Id>, k: nat, p: Progress, id: Id)
    requires k <= |job.ordered| && id !in Ids(job.ordered)
    ensures id in AfterStops(job, initial, k, p).online <==> id in p.online
    decreases |job.ordered| - k
  {
    hide StopOne;
    if k < |job.ordered| {
      StopsTouchMembers(job, initial, k + 1, p, id);
      assert job.ordered[k] in job.ordered;
      StepTouchesMember(job, initial, job.ordered[k], AfterStops(job, initial, k + 1, p), id);
    }
  }

  lemma {:induction false} StartsTouchMembers(job: Job, initial: set<Id>, k: nat, p: Progress, id: Id)
    requires k <= |job.ordered| && id !in Ids(job.ordered)
    ensures id in AfterStarts(job, initial, k, p).online <==> id in p.online
  {
    hide StartOne;
    if k > 0 {
      StartsTouchMembers(job, initial, k - 1, p, id);
      assert job.ordered[k - 1] in job.ordered;
      StepTouchesMember(job, initial, job.ordered[k - 1], AfterStarts(job, initial, k - 1, p), id);
    }
  }

  /** No job changes a service outside its group. */
  lemma JobLeavesOthersAlone(job: Job, before: set<Id>, id: Id)
    requires id !in Ids(job.ordered)
    ensures id in JobReport(job, before).online <==> id in before
  {
    StopsTouchMembers(job, Initial(job, before), 0, Begin(before), id);
    StartsTouchMembers(job, Initial(job, before), |job.ordered|, StopPass(job, before), id);
  }

  // ------------------------------------------------------------------ order of the PM2 calls

  lemma PositionIs(order: seq<Service>, k: nat)
    requires UniqueIds(order) && k < |order|
    ensures order[k].id in Ids(order) && Position(order, order[k].id) == k
  {
    assert order[k] in order;
  }

  /** Stops run against the dependency order, starts along it, and no stop follows a start. */
  ghost predicate InCallOrder(job: Job, calls: seq<Call>) {
    && (forall c :: c in calls ==> c.id in Ids(job.ordered))
    && (forall i, j :: 0 <= i < j < |calls| ==> CallBefore(job, calls[i], calls[j]))
  }

  ghost predicate CallBefore(job: Job, first: Call, second: Call) {
    && first.id in Ids(job.ordered) && second.id in Ids(job.ordered)
    && (second.StopCall? ==> first.StopCall? && Position(job.ordered, second.id) < Position(job.ordered, first.id))
    && (first.StartCall? ==> second.StartCall? && Position(job.ordered, first.id) < Position(job.ordered, second.id))
  }

  ghost predicate CallsUpTo(job: Job, stopped: nat, started: nat, calls: seq<Call>) {
    && InCallOrder(job, calls)
    && (forall c :: c in calls ==>
          if c.StopCall? then stopped <= Position(job.ordered, c.id) else Position(job.ordered, c.id) < started)
  }

  lemma AppendStop(job: Job, k: nat, calls: seq<Call>)
    requires WellOrdered(job) && k < |job.ordered| && CallsUpTo(job, k + 1, 0, calls)
    ensures CallsUpTo(job, k, 0, calls)
    ensures CallsUpTo(job, k, 0, calls + [StopCall(job.ordered[k].id)])
  {
    PositionIs(job.ordered, k);
    hide Position;
  }

  lemma AppendStart(job: Job, k: nat, calls: seq<Call>)
    requires WellOrdered(job) && k < |job.ordered| && CallsUpTo(job, 0, k, calls)
    ensures CallsUpTo(job, 0, k + 1, calls)
    ensures CallsUpTo(job, 0, k + 1, calls + [StartCall(job.ordered[k].id)])
  {
    PositionIs(job.ordered, k);
    hide Position;
  }

  lemma CallsOfStep(job: Job, initial: set<Id>, s: Service, p: Progress)
    ensures StopOne(job, initial, s, p).calls in {p.calls, p.calls + [StopCall(s.id)]}
    ensures StartOne(job, initial, s, p).calls in {p.calls, p.calls + [StartCall(s.id)]}
  {
  }

  lemma NoCalls(job: Job, k: nat)
    ensures CallsUpTo(job, k, 0, [])
  {
  }

  lemma {:induction false} StopCallsInOrder(job: Job, initial: set<Id>, k: nat, p: Progress)
    requires WellOrdered(job) && k <= |job.ordered| && p.calls == []
    ensures CallsUpTo(job, k, 0, AfterStops(job, initial, k, p).calls)
    decreases |job.ordered| - k
  {
    hide CallsUpTo, WellOrdered, StopOne;
    if k == |job.ordered| {
      NoCalls(job, k);
    } else {
      StopCallsInOrder(job, initial, k + 1, p);
      var q := AfterStops(job, initial, k + 1, p);
      AppendStop(job, k, q.calls);
      CallsOfStep(job, initial, job.ordered[k], q);
    }
  }

  lemma {:induction false} StartCallsInOrder(job: Job, initial: set<Id>, k: nat, p: Progress)
    requires WellOrdered(job) && k <= |job.ordered| && CallsUpTo(job, 0, 0, p.calls)
    ensures CallsUpTo(job, 0, k, AfterStarts(job, initial, k, p).calls)
  {
    hide CallsUpTo, WellOrdered, StartOne;
    if k > 0 {
      StartCallsInOrder(job, initial, k - 1, p);
      var q := AfterStarts(job, initial, k - 1, p);
      AppendStart(job, k - 1, q.calls);
      CallsOfStep(job, initial, job.ordered[k - 1], q);
    }
  }

  /** A restart starts only members that were online and whose stop PM2 confirmed. */
  ghost predicate StartsJustified(job: Job, before: set<Id>, calls: seq<Call>) {
    job.action == Restart ==>
      forall id :: StartCall(id) in calls ==>
        id in before && StopCall(id) in calls && job.env.stop(id).Stopped?
  }

  lemma StartIsJustified(job: Job, before: set<Id>, k: nat, p: Progress)
    requires job.action == Restart && k < |job.ordered|
    requires StartResults(job, before, k, p) && StartsJustified(job, before, p.calls)
    ensures StartsJustified(job, before, StartOne(job, Initial(job, before), job.ordered[k], p).calls)
  {
    assert Stopping(job, before, p.results[Slot(job, k)], p);
  }

  lemma {:induction false} StartsAreJustified(job: Job, before: set<Id>, k: nat)
    requires WellOrdered(job) && job.action == Restart && k <= |job.ordered|
    ensures StartsJustified(job, before, AfterStarts(job, Initial(job, before), k, StopPass(job, before)).calls)
  {
    hide StartResults, StartOne, StopOne;
    if k == 0 {
      StopCallsInOrder(job, Initial(job, before), 0, Begin(before));
    } else {
      StartsAreJustified(job, before, k - 1);
      StartsRecord(job, before, k - 1);
      StartIsJustified(job, before, k - 1, AfterStarts(job, Initial(job, before), k - 1, StopPass(job, before)));
    }
  }

  /** In the calls of any job, a dependent is stopped before and started after each of its
      dependencies in the group, stops precede starts, and restarts are justified. */
  lemma CallsRespectDependencies(job: Job, before: set<Id>)
    requires Submitted(job)
    ensures StartsJustified(job, before, JobReport(job, before).calls)
    ensures forall i, j | 0 <= i < |JobReport(job, before).calls| && 0 <= j < |JobReport(job, before).calls| ::
      PairInOrder(job, JobReport(job, before).calls, i, j)
  {
    hide WellOrdered, InCallOrder, PairInOrder, JobReport;
    SubmittedIsWellOrdered(job);
    hide Submitted;
    CallsInOrder(job, before);
    var calls := JobReport(job, before).calls;
    forall i, j | 0 <= i < |calls| && 0 <= j < |calls| ensures PairInOrder(job, calls, i, j) {
      OrderOfPair(job, calls, i, j);
    }
  }

  /** Call `i` against call `j`: stops come before starts, and if call `i` is about a
      dependent of the service of call `j`, it stops first and starts last. */
  ghost predicate PairInOrder(job: Job, calls: seq<Call>, i: nat, j: nat)
    requires i < |calls| && j < |calls|
  {
    && (calls[i].StartCall? && calls[j].StopCall? ==> j < i)
    && (forall s :: s in job.ordered && s.id == calls[i].id && calls[j].id in s.dependsOn ==>
          && (calls[i].StopCall? && calls[j].StopCall? ==> i < j)
          && (calls[i].StartCall? && calls[j].StartCall? ==> j < i))
  }

  lemma CallsInOrder(job: Job, before: set<Id>)
    requires WellOrdered(job)
    ensures InCallOrder(job, JobReport(job, before).calls)
    ensures StartsJustified(job, before, JobReport(job, before).calls)
  {
    hide WellOrdered, AfterStops, AfterStarts, CallBefore;
    var initial, p := Initial(job, before), StopPass(job, before);
    StopCallsInOrder(job, initial, 0, Begin(before));
    StartCallsInOrder(job, initial, |job.ordered|, p);
    if job.action == Restart {
      StartsAreJustified(job, before, |job.ordered|);
    }
  }

  lemma OrderOfPair(job: Job, calls: seq<Call>, i: nat, j: nat)
    requires WellOrdered(job) && InCallOrder(job, calls) && i < |calls| && j < |calls|
    ensures PairInOrder(job, calls, i, j)
  {
    assert calls[i] in calls && calls[j] in calls;
    assert i < j ==> CallBefore(job, calls[i], calls[j]);
    assert j < i ==> CallBefore(job, calls[j], calls[i]);
    forall s | s in job.ordered && s.id == calls[i].id && calls[j].id in s.dependsOn
      ensures Position(job.ordered, calls[j].id) < Position(job.ordered, calls[i].id)
    {
      var a, b := Position(job.ordered, calls[i].id), Position(job.ordered, calls[j].id);
      var m :| 0 <= m < |job.ordered| && job.ordered[m] == s;
      assert m == a;
    }
  }

  // ------------------------------------------------------------------ the calls explain the state

  /** What one PM2 call does to the online services. */
  function AfterCall(env: Environment, online: set<Id>, call: Call): set<Id> {
    match call
    case StopCall(id) =>
      if env.stop(id).Stopped? || (env.stop(id).StopRaised? && env.stop(id).nowOffline) then online - {id} else online
    case StartCall(id) =>
      if env.start(id).Ready? || (env.start(id).StartRaised? && env.start(id).nowOnline) then online + {id} else online
  }

  function Replay(env: Environment, online: set<Id>, calls: seq<Call>): set<Id> {
    if calls == [] then online
    else AfterCall(env, Replay(env, online, calls[..|calls| - 1]), calls[|calls| - 1])
  }

  lemma ReplayOn(env: Environment, before: set<Id>, calls: seq<Call>, call: Call)
    ensures Replay(env, before, calls + [call]) == AfterCall(env, Replay(env, before, calls), call)
  {
    assert (calls + [call])[..|calls|] == calls;
  }

  lemma StepReplays(job: Job, initial: set<Id>, s: Service, before: set<Id>, p: Progress)
    requires p.online == Replay(job.env, before, p.calls)
    ensures StopOne(job, initial, s, p).online == Replay(job.env, before, StopOne(job, initial, s, p).calls)
    ensures StartOne(job, initial, s, p).online == Replay(job.env, before, StartOne(job, initial, s, p).calls)
  {
    hide Put, DependentFailed, UsedOutside, DependenciesReady, Replay;
    ReplayOn(job.env, before, p.calls, StopCall(s.id));
    ReplayOn(job.env, before, p.calls, StartCall(s.id));
  }

  lemma {:induction false} StopsReplay(job: Job, initial: set<Id>, k: nat, before: set<Id>)
    requires k <= |job.ordered|
    ensures var p := AfterStops(job, initial, k, Begin(before)); p.online == Replay(job.env, before, p.calls)
    decreases |job.ordered| - k
  {
    hide StopOne;
    if k < |job.ordered| {
      StopsReplay(job, initial, k + 1, before);
      StepReplays(job, initial, job.ordered[k], before, AfterStops(job, initial, k + 1, Begin(before)));
    }
  }

  lemma {:induction false} StartsReplay(job: Job, initial: set<Id>, k: nat, before: set<Id>, p: Progress)
    requires k <= |job.ordered| && p.online == Replay(job.env, before, p.calls)
    ensures var q := AfterStarts(job, initial, k, p); q.online == Replay(job.env, before, q.calls)
  {
    hide StartOne;
    if k > 0 {
      StartsReplay(job, initial, k - 1, before, p);
      StepReplays(job, initial, job.ordered[k - 1], before, AfterStarts(job, initial, k - 1, p));
    }
  }

  /** Whatever the results say, also of a failed member: the services online after a job are
      those its recorded PM2 calls leave online. */
  lemma OnlineFollowsCalls(job: Job, before: set<Id>)
    ensures JobReport(job, before).online == Replay(job.env, before, JobReport(job, before).calls)
  {
    hide AfterStops, AfterStarts, AfterCall;
    StopsReplay(job, Initial(job, before), 0, before);
    StartsReplay(job, Initial(job, before), |job.ordered|, before, StopPass(job, before));
  }

  // ------------------------------------------------------------------ the undisturbed job

  /** No guard, PM2 call, probe or wait fails. */
  ghost predicate Smooth(env: Environment) {
    && (forall id :: !env.inspectFails(id) && env.stop(id).Stopped? && env.start(id).Ready?)
    && (forall id, d :: env.healthy(id, d))
  }

  /** What the preflights of the action ask of the services outside the group. */
  ghost predicate OutsideAllows(job: Job, before: set<Id>) {
    && (job.action != Start ==> forall s :: s in job.ordered ==> !UsedOutside(job, s, before))
    && (job.action == Start ==> forall s, d :: s in job.ordered && d in s.dependsOn ==>
                                  d in Ids(job.ordered) || d in before)
  }

  function Target(job: Job, before: set<Id>): set<Id> {
    match job.action
    case Start => before + Ids(job.ordered)
    case Stop => before - Ids(job.ordered)
    case Restart => before
  }

  lemma {:induction false} SmoothStops(job: Job, before: set<Id>, k: nat)
    requires Smooth(job.env) && OutsideAllows(job, before) && job.action != Start && k <= |job.ordered|
    ensures var p := AfterStops(job, Initial(job, before), k, Begin(before));
      p.failed == {} && p.online == before - Ids(job.ordered[k..])
    decreases |job.ordered| - k
  {
    if k < |job.ordered| {
      SmoothStops(job, before, k + 1);
      var s, p := job.ordered[k], AfterStops(job, Initial(job, before), k + 1, Begin(before));
      assert s in job.ordered && job.ordered[k..] == [s] + job.ordered[k + 1..];
      assert !UsedOutside(job, s, before) && !DependentFailed(job, s, p.failed);
    }
  }

  /** The online set after an undisturbed start pass has visited `ordered[..k]`. */
  function SmoothOnline(job: Job, before: set<Id>, k: nat): set<Id>
    requires k <= |job.ordered|
  {
    if job.action == Start then before + Ids(job.ordered[..k])
    else (before - Ids(job.ordered)) + before * Ids(job.ordered[..k])
  }

  ghost predicate Undisturbed(job: Job, before: set<Id>) {
    && WellOrdered(job) && Smooth(job.env) && OutsideAllows(job, before) && Closed(job.registry, before)
    && (forall s :: s in job.registry ==> DependsOnOthers(s, Ids(job.registry)))
  }

  lemma SmoothReady(job: Job, before: set<Id>, k: nat)
    requires Undisturbed(job, before) && job.action != Stop && k < |job.ordered|
    requires job.action == Restart ==> job.ordered[k].id in before
    ensures DependenciesReady(job, job.ordered[k], SmoothOnline(job, before, k))
  {
    var s := job.ordered[k];
    assert s in job.ordered && s in job.registry && DependsOnOthers(s, Ids(job.registry));
    forall d | d in s.dependsOn ensures d in SmoothOnline(job, before, k) {
      if d in Ids(job.ordered) {
        var j :| 0 <= j < |job.ordered| && job.ordered[j].id == d;
        assert job.ordered[j] == job.ordered[..k][j];
      }
    }
  }

  lemma SmoothStartOne(job: Job, before: set<Id>, k: nat, p: Progress)
    requires Undisturbed(job, before) && job.action != Stop && k < |job.ordered|
    requires p.failed == {} && p.online == SmoothOnline(job, before, k)
    ensures var q := StartOne(job, Initial(job, before), job.ordered[k], p);
      q.failed == {} && q.online == SmoothOnline(job, before, k + 1)
  {
    var s := job.ordered[k];
    assert s in job.ordered && job.ordered[..k + 1] == job.ordered[..k] + [s];
    assert job.env.start(s.id).Ready?;
    if job.action == Start || s.id in before {
      SmoothReady(job, before, k);
    }
    hide Undisturbed, DependenciesReady;
    assert Ids(job.ordered[..k + 1]) == Ids(job.ordered[..k]) + {s.id};
  }

  lemma SmoothBegins(job: Job, before: set<Id>)
    requires Undisturbed(job, before) && job.action != Stop
    ensures var q := StopPass(job, before);
      q.failed == {} && q.online == SmoothOnline(job, before, 0)
  {
    SmoothParts(job, before);
    hide Undisturbed, OutsideAllows, Smooth, AfterStops;
    assert job.ordered[0..] == job.ordered && job.ordered[..0] == [];
    if job.action == Restart {
      SmoothStops(job, before, 0);
    }
  }

  lemma {:induction false} SmoothStarts(job: Job, before: set<Id>, k: nat)
    requires Undisturbed(job, before) && job.action != Stop && k <= |job.ordered|
    ensures var q := AfterStarts(job, Initial(job, before), k, StopPass(job, before));
      q.failed == {} && q.online == SmoothOnline(job, before, k)
  {
    hide Undisturbed, StartOne, StopPass, SmoothOnline;
    if k == 0 {
      SmoothBegins(job, before);
    } else {
      SmoothStarts(job, before, k - 1);
      SmoothStartOne(job, before, k - 1, AfterStarts(job, Initial(job, before), k - 1, StopPass(job, before)));
    }
  }

  lemma SmoothParts(job: Job, before: set<Id>)
    requires Undisturbed(job, before)
    ensures Smooth(job.env) && OutsideAllows(job, before)
  {
  }

  lemma SubmittedIsUndisturbed(job: Job, before: set<Id>)
    requires Submitted(job) && Smooth(job.env) && OutsideAllows(job, before) && Closed(job.registry, before)
    ensures Undisturbed(job, before)
    ensures !exists s :: s in job.ordered && job.env.inspectFails(s.id)
  {
    SubmittedIsWellOrdered(job);
    hide WellOrdered, OutsideAllows, Closed, IsOrderOf;
  }

  /** An undisturbed job succeeds and reaches its aim: the group online, the group offline,
      or for a restart exactly the services that were online before. */
  lemma SmoothJobReachesTarget(job: Job, before: set<Id>)
    requires Submitted(job) && Smooth(job.env) && OutsideAllows(job, before) && Closed(job.registry, before)
    ensures JobReport(job, before).succeeded
    ensures JobReport(job, before).online == Target(job, before)
  {
    SubmittedIsUndisturbed(job, before);
    hide Submitted, Undisturbed, OutsideAllows, Closed, JobPasses;
    PassesReachTarget(job, before);
  }

  lemma PassesReachTarget(job: Job, before: set<Id>)
    requires Undisturbed(job, before)
    ensures JobPasses(job, before).failed == {} && JobPasses(job, before).online == Target(job, before)
  {
    SmoothParts(job, before);
    hide Undisturbed, Smooth, OutsideAllows, AfterStops, AfterStarts;
    var n := |job.ordered|;
    assert job.ordered[..n] == job.ordered == job.ordered[0..];
    if job.action == Stop {
      SmoothStops(job, before, 0);
    } else {
      SmoothStarts(job, before, n);
    }
  }
}
