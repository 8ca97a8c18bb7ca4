/** Why each member of a group job ends as it does, for every environment: the report is
    determined by who was online before, by the dependencies and by the answers of PM2. */
module GroupJobReasons {
  import opened Wrappers
  import opened Services
  import opened DependencyGraph
  import opened GroupJob
  import opened GroupJobProperties

  // ------------------------------------------------------------------ results by member

  function OutcomeOf(results: seq<Result>, id: Id): Option<Outcome> {
    if results == [] then None
    else if results[0].id == id then Some(results[0].outcome)
    else OutcomeOf(results[1..], id)
  }

  lemma {:induction false} PutOutcome(results: seq<Result>, id: Id, outcome: Outcome, x: Id)
    ensures OutcomeOf(Put(results, id, outcome), x) == if x == id then Some(outcome) else OutcomeOf(results, x)
  {
    if results != [] && results[0].id != id {
      PutOutcome(results[1..], id, outcome, x);
    }
  }

  predicate BadFor(results: seq<Result>, id: Id) {
    OutcomeOf(results, id).Some? && OutcomeOf(results, id).value.Bad()
  }

  // ------------------------------------------------------------------ the reference answers

  /** The job means to stop this member: a restart leaves stopped members alone. */
  predicate Meant(job: Job, before: set<Id>, s: Service) {
    job.action == Restart ==> s.id in before
  }

  /** PM2 was asked to stop the member and confirmed it. */
  predicate Halted(job: Job, calls: seq<Call>, id: Id) {
    StopCall(id) in calls && job.env.stop(id).Stopped?
  }

  /** A member that depends on this one should have stopped and did not. */
  ghost predicate KeptByDependent(job: Job, before: set<Id>, calls: seq<Call>, s: Service) {
    exists t :: t in job.ordered && s.id in t.dependsOn && Meant(job, before, t) && !Halted(job, calls, t.id)
  }

  /** A service outside the group that depends on this member was online. */
  ghost predicate NeededOutside(job: Job, before: set<Id>, s: Service) {
    exists t :: t in job.registry && t.id !in Ids(job.ordered) && s.id in t.dependsOn && t.id in before
  }

  ghost function StopAnswer(job: Job, before: set<Id>, calls: seq<Call>, s: Service): Outcome {
    if !Meant(job, before, s) then Skipped
    else if KeptByDependent(job, before, calls, s) then BlockedByDependent
    else if Halted(job, calls, s.id) then Succeeded
    else Failed
  }

  /** PM2 is asked to stop exactly the members that are meant, that no dependent keeps, that
      no outside service needs and that no guard refuses. */
  ghost predicate StopAsked(job: Job, before: set<Id>, calls: seq<Call>, s: Service) {
    StopCall(s.id) in calls <==>
      job.action != Start && Meant(job, before, s) && !KeptByDependent(job, before, calls, s) &&
      !job.env.stop(s.id).StopRefused? && !NeededOutside(job, before, s)
  }

  /** The start pass deals with the member: in a restart only if its stop was confirmed. */
  predicate Eligible(job: Job, before: set<Id>, calls: seq<Call>, s: Service) {
    job.action == Start || (job.action == Restart && s.id in before && Halted(job, calls, s.id))
  }

  ghost predicate DependencyBad(results: seq<Result>, s: Service) {
    exists d :: d in s.dependsOn && BadFor(results, d)
  }

  /** Every dependency is registered, online and healthy. */
  ghost predicate AllReady(job: Job, online: set<Id>, s: Service) {
    forall d :: d in s.dependsOn ==> d in Ids(job.registry) && d in online && job.env.healthy(s.id, d)
  }

  ghost predicate MayStart(job: Job, online: set<Id>, results: seq<Result>, s: Service) {
    !DependencyBad(results, s) && !job.env.start(s.id).StartRefused? && AllReady(job, online, s)
  }

  ghost function Answer(job: Job, before: set<Id>, online: set<Id>, results: seq<Result>, calls: seq<Call>, s: Service): Outcome {
    if !Eligible(job, before, calls, s) then StopAnswer(job, before, calls, s)
    else if DependencyBad(results, s) then BlockedByDependency
    else if MayStart(job, online, results, s) && job.env.start(s.id).Ready? then Succeeded
    else Failed
  }

  /** PM2 is asked to start exactly the eligible members that may start and are offline. */
  ghost predicate StartAsked(job: Job, before: set<Id>, online: set<Id>, results: seq<Result>, calls: seq<Call>, s: Service) {
    StartCall(s.id) in calls <==>
      Eligible(job, before, calls, s) && MayStart(job, online, results, s) && (job.action == Start ==> s.id !in before)
  }

  // ------------------------------------------------------------------ the stop pass

  /** What a step for one member may change. */
  ghost predicate StepOf(id: Id, p: Progress, q: Progress) {
    && (forall x :: x != id ==> (x in p.online <==> x in q.online) && (x in p.failed <==> x in q.failed))
    && (forall x :: x != id ==> OutcomeOf(q.results, x) == OutcomeOf(p.results, x))
    && (forall c :: c in p.calls ==> c in q.calls)
    && (forall c :: c in q.calls ==> c in p.calls || c.id == id)
  }

  lemma StopShape(job: Job, initial: set<Id>, s: Service, p: Progress) returns (outcome: Outcome)
    ensures var q := StopOne(job, initial, s, p);
      && q.results == Put(p.results, s.id, outcome)
      && q.calls in {p.calls, p.calls + [StopCall(s.id)]}
      && q.online in {p.online, p.online - {s.id}} && q.failed in {p.failed, p.failed + {s.id}}
  {
    hide Put, DependentFailed, UsedOutside;
    if job.action == Restart && s.id !in initial {
      outcome := Skipped;
    } else if DependentFailed(job, s, p.failed) {
      outcome := BlockedByDependent;
    } else if job.env.stop(s.id).Stopped? && !UsedOutside(job, s, p.online) {
      outcome := Succeeded;
    } else {
      outcome := Failed;
    }
  }

  lemma StartShape(job: Job, initial: set<Id>, s: Service, p: Progress) returns (outcome: Outcome)
    ensures var q := StartOne(job, initial, s, p);
      && q.results in {p.results, Put(p.results, s.id, outcome)}
      && q.calls in {p.calls, p.calls + [StartCall(s.id)]}
      && q.online in {p.online, p.online + {s.id}} && q.failed in {p.failed, p.failed + {s.id}}
  {
    hide Put, DependenciesReady;
    if exists d :: d in s.dependsOn && d in p.failed {
      outcome := BlockedByDependency;
    } else if job.env.start(s.id).Ready? && DependenciesReady(job, s, p.online) {
      outcome := Succeeded;
    } else {
      outcome := Failed;
    }
  }

  lemma ShapeIsLocal(id: Id, p: Progress, q: Progress, outcome: Outcome, call: Call)
    requires q.results in {p.results, Put(p.results, id, outcome)} && call.id == id
    requires q.calls in {p.calls, p.calls + [call]}
    requires q.online in {p.online, p.online - {id}, p.online + {id}} && q.failed in {p.failed, p.failed + {id}}
    ensures StepOf(id, p, q) && forall c :: c in q.calls ==> c in p.calls || c == call
  {
    forall x ensures OutcomeOf(Put(p.results, id, outcome), x) == if x == id then Some(outcome) else OutcomeOf(p.results, x) {
      PutOutcome(p.results, id, outcome, x);
    }
    hide Put, OutcomeOf;
  }

  lemma StopIsLocal(job: Job, initial: set<Id>, s: Service, p: Progress)
    ensures var q := StopOne(job, initial, s, p);
      StepOf(s.id, p, q) && forall c :: c in q.calls ==> c in p.calls || c == StopCall(s.id)
  {
    var outcome := StopShape(job, initial, s, p);
    hide *;
    ShapeIsLocal(s.id, p, StopOne(job, initial, s, p), outcome, StopCall(s.id));
  }

  lemma StartIsLocal(job: Job, initial: set<Id>, s: Service, p: Progress)
    ensures var q := StartOne(job, initial, s, p);
      StepOf(s.id, p, q) && forall c :: c in q.calls ==> c in p.calls || c == StartCall(s.id)
  {
    var outcome := StartShape(job, initial, s, p);
    hide *;
    ShapeIsLocal(s.id, p, StartOne(job, initial, s, p), outcome, StartCall(s.id));
  }

  /** The stop pass has dealt with the member. */
  ghost predicate StopDone(job: Job, before: set<Id>, s: Service, p: Progress) {
    && OutcomeOf(p.results, s.id) == Some(StopAnswer(job, before, p.calls, s))
    && StopAsked(job, before, p.calls, s)
    && (s.id in p.failed <==> Meant(job, before, s) && !Halted(job, p.calls, s.id))
    && (Halted(job, p.calls, s.id) ==> s.id !in p.online)
    && (!Meant(job, before, s) ==> s.id !in p.online)
  }

  /** The stop pass has not dealt with the member yet. */
  ghost predicate StopDue(before: set<Id>, s: Service, p: Progress) {
    && s.id !in p.failed && OutcomeOf(p.results, s.id) == None && StopCall(s.id) !in p.calls
    && (s.id in p.online <==> s.id in before)
  }

  /** No step has anything to do with a service outside the group. */
  ghost predicate Outsider(before: set<Id>, id: Id, p: Progress) {
    id !in p.failed && OutcomeOf(p.results, id) == None && (id in p.online <==> id in before)
  }

  ghost predicate StopsUpTo(job: Job, before: set<Id>, k: nat, p: Progress)
    requires k <= |job.ordered|
  {
    && (forall j :: k <= j < |job.ordered| ==> StopDone(job, before, job.ordered[j], p))
    && (forall j :: 0 <= j < k ==> StopDue(before, job.ordered[j], p))
    && (forall id :: id !in Ids(job.ordered) ==> Outsider(before, id, p))
    && (forall id :: StartCall(id) !in p.calls)
  }

  /** The failures the pass looks at are the members that should have stopped and did not. */
  lemma FailedMeansKept(job: Job, before: set<Id>, k: nat, p: Progress)
    requires WellOrdered(job) && k < |job.ordered| && StopsUpTo(job, before, k + 1, p)
    ensures DependentFailed(job, job.ordered[k], p.failed) <==> KeptByDependent(job, before, p.calls, job.ordered[k])
  {
    var s := job.ordered[k];
    forall t | t in job.ordered && s.id in t.dependsOn
      ensures t.id in p.failed <==> Meant(job, before, t) && !Halted(job, p.calls, t.id)
    {
      var j :| 0 <= j < |job.ordered| && job.ordered[j] == t;
      assert k < j;
      assert StopDone(job, before, job.ordered[j], p);
    }
    hide StopDone, StopsUpTo, WellOrdered, Meant, Halted;
  }

  lemma UsedMeansNeeded(job: Job, before: set<Id>, s: Service, online: set<Id>)
    requires forall id :: id !in Ids(job.ordered) ==> (id in online <==> id in before)
    ensures UsedOutside(job, s, online) <==> NeededOutside(job, before, s)
  {
    hide Ids;
  }

  /** Later steps of the stop pass leave the reason of a member as it is. */
  lemma KeptStays(job: Job, before: set<Id>, s: Service, id: Id, calls: seq<Call>, later: seq<Call>)
    requires forall c :: c in calls ==> c in later
    requires forall c :: c in later ==> c in calls || c.id == id
    requires forall t :: t in job.ordered && s.id in t.dependsOn ==> t.id != id
    ensures KeptByDependent(job, before, later, s) <==> KeptByDependent(job, before, calls, s)
  {
    forall t | t in job.ordered && s.id in t.dependsOn
      ensures Halted(job, later, t.id) <==> Halted(job, calls, t.id)
    {
    }
    hide Halted, Meant;
  }

  lemma StopDoneStays(job: Job, before: set<Id>, s: Service, id: Id, p: Progress, q: Progress)
    requires StopDone(job, before, s, p) && StepOf(id, p, q) && s.id != id
    requires forall t :: t in job.ordered && s.id in t.dependsOn ==> t.id != id
    ensures StopDone(job, before, s, q)
  {
    KeptStays(job, before, s, id, p.calls, q.calls);
    assert StopCall(s.id) in q.calls <==> StopCall(s.id) in p.calls;
    hide KeptByDependent, NeededOutside, OutcomeOf;
  }

  /** What one turn of the stop pass does, in the terms of the reference answers. */
  lemma StopTurn(job: Job, before: set<Id>, s: Service, p: Progress)
    requires s in job.ordered && StopDue(before, s, p)
    requires DependentFailed(job, s, p.failed) <==> KeptByDependent(job, before, p.calls, s)
    requires UsedOutside(job, s, p.online) <==> NeededOutside(job, before, s)
    ensures var q := StopOne(job, Initial(job, before), s, p);
      var asked := Meant(job, before, s) && !KeptByDependent(job, before, p.calls, s) &&
                   !job.env.stop(s.id).StopRefused? && !NeededOutside(job, before, s);
      var stopped := asked && job.env.stop(s.id).Stopped?;
      && q.calls == (if asked then p.calls + [StopCall(s.id)] else p.calls)
      && (s.id in q.failed <==> Meant(job, before, s) && !stopped)
      && (stopped || !Meant(job, before, s) ==> s.id !in q.online)
      && q.results == Put(p.results, s.id,
           if !Meant(job, before, s) then Skipped
           else if KeptByDependent(job, before, p.calls, s) then BlockedByDependent
           else if stopped then Succeeded else Failed)
  {
    hide Put, KeptByDependent, NeededOutside, DependentFailed, UsedOutside, OutcomeOf;
  }

  lemma StopDoneBy(job: Job, before: set<Id>, s: Service, p: Progress, q: Progress, outcome: Outcome)
    requires job.action != Start && StopCall(s.id) !in p.calls
    requires KeptByDependent(job, before, q.calls, s) <==> KeptByDependent(job, before, p.calls, s)
    requires q.results == Put(p.results, s.id, outcome)
    requires var asked := Meant(job, before, s) && !KeptByDependent(job, before, p.calls, s) &&
                          !job.env.stop(s.id).StopRefused? && !NeededOutside(job, before, s);
      var stopped := asked && job.env.stop(s.id).Stopped?;
      && q.calls == (if asked then p.calls + [StopCall(s.id)] else p.calls)
      && (s.id in q.failed <==> Meant(job, before, s) && !stopped)
      && (stopped || !Meant(job, before, s) ==> s.id !in q.online)
      && outcome == (if !Meant(job, before, s) then Skipped
                     else if KeptByDependent(job, before, p.calls, s) then BlockedByDependent
                     else if stopped then Succeeded else Failed)
    ensures StopDone(job, before, s, q)
  {
    PutOutcome(p.results, s.id, outcome, s.id);
    hide Put, KeptByDependent, NeededOutside, OutcomeOf, Meant;
  }

  lemma NoOwnDependent(job: Job, k: nat)
    requires WellOrdered(job) && k < |job.ordered|
    ensures forall t :: t in job.ordered && job.ordered[k].id in t.dependsOn ==> t.id != job.ordered[k].id
  {
    forall t | t in job.ordered && job.ordered[k].id in t.dependsOn ensures t.id != job.ordered[k].id {
      var j :| 0 <= j < |job.ordered| && job.ordered[j] == t;
      assert k < j;
    }
  }

  lemma StopOneDone(job: Job, before: set<Id>, k: nat, p: Progress)
    requires WellOrdered(job) && job.action != Start && k < |job.ordered| && StopsUpTo(job, before, k + 1, p)
    ensures StopDone(job, before, job.ordered[k], StopOne(job, Initial(job, before), job.ordered[k], p))
  {
    var s := job.ordered[k];
    var q := StopOne(job, Initial(job, before), s, p);
    assert s in job.ordered && StopDue(before, s, p) && StopCall(s.id) !in p.calls;
    assert forall id :: id !in Ids(job.ordered) ==> Outsider(before, id, p);
    FailedMeansKept(job, before, k, p);
    UsedMeansNeeded(job, before, s, p.online);
    NoOwnDependent(job, k);
    hide *;
    StopTurn(job, before, s, p);
    var outcome := StopShape(job, Initial(job, before), s, p);
    AddsOnly(p.calls, q.calls, StopCall(s.id));
    KeptStays(job, before, s, s.id, p.calls, q.calls);
    StopDoneBy(job, before, s, p, q,
               if !Meant(job, before, s) then Skipped
               else if KeptByDependent(job, before, p.calls, s) then BlockedByDependent
               else if !job.env.stop(s.id).StopRefused? && !NeededOutside(job, before, s) && job.env.stop(s.id).Stopped?
               then Succeeded else Failed);
  }

  lemma AddsOnly(calls: seq<Call>, later: seq<Call>, call: Call)
    requires later in {calls, calls + [call]}
    ensures forall c :: c in calls ==> c in later
    ensures forall c :: c in later ==> c in calls || c == call
  {
  }

  lemma OthersStayDone(job: Job, before: set<Id>, k: nat, p: Progress, q: Progress, j: nat)
    requires WellOrdered(job) && k < j < |job.ordered| && StepOf(job.ordered[k].id, p, q)
    requires StopDone(job, before, job.ordered[j], p)
    ensures StopDone(job, before, job.ordered[j], q)
  {
    var s := job.ordered[j];
    forall t | t in job.ordered && s.id in t.dependsOn ensures t.id != job.ordered[k].id {
      var i :| 0 <= i < |job.ordered| && job.ordered[i] == t;
      assert j < i;
    }
    assert s.id != job.ordered[k].id;
    hide *;
    StopDoneStays(job, before, s, job.ordered[k].id, p, q);
  }

  lemma OthersStayDue(job: Job, before: set<Id>, k: nat, p: Progress, q: Progress, j: nat)
    requires WellOrdered(job) && j < k < |job.ordered| && StepOf(job.ordered[k].id, p, q)
    requires StopDue(before, job.ordered[j], p)
    ensures StopDue(before, job.ordered[j], q)
  {
    assert job.ordered[j].id != job.ordered[k].id;
    hide WellOrdered, OutcomeOf;
  }

  lemma StopOneUpTo(job: Job, before: set<Id>, k: nat, p: Progress)
    requires WellOrdered(job) && job.action != Start && k < |job.ordered| && StopsUpTo(job, before, k + 1, p)
    ensures StopsUpTo(job, before, k, StopOne(job, Initial(job, before), job.ordered[k], p))
  {
    var s := job.ordered[k];
    var q := StopOne(job, Initial(job, before), s, p);
    StopOneDone(job, before, k, p);
    StopIsLocal(job, Initial(job, before), s, p);
    assert s in job.ordered;
    hide StopOne, StopDone, WellOrdered, StopDue, OutcomeOf;
    forall j | k < j < |job.ordered| ensures StopDone(job, before, job.ordered[j], q) {
      OthersStayDone(job, before, k, p, q, j);
    }
    forall j | 0 <= j < k ensures StopDue(before, job.ordered[j], q) {
      OthersStayDue(job, before, k, p, q, j);
    }
    forall id | id !in Ids(job.ordered) ensures Outsider(before, id, q) {
      assert Outsider(before, id, p) && id != s.id;
    }
    hide StepOf, Outsider, Ids;
  }

  lemma {:induction false} StopsExplained(job: Job, before: set<Id>, k: nat)
    requires WellOrdered(job) && job.action != Start && k <= |job.ordered|
    ensures StopsUpTo(job, before, k, AfterStops(job, Initial(job, before), k, Begin(before)))
    decreases |job.ordered| - k
  {
    hide WellOrdered, StopDone, StopOne;
    if k < |job.ordered| {
      StopsExplained(job, before, k + 1);
      StopOneUpTo(job, before, k, AfterStops(job, Initial(job, before), k + 1, Begin(before)));
    }
  }

  // ------------------------------------------------------------------ the start pass

  /** Whoever failed has a failed or blocked result, and the other way round. */
  ghost predicate FailedAreBad(p: Progress) {
    forall id :: id in p.failed <==> BadFor(p.results, id)
  }

  /** The start pass has dealt with the member. */
  ghost predicate StartDone(job: Job, before: set<Id>, s: Service, p: Progress) {
    && OutcomeOf(p.results, s.id) == Some(Answer(job, before, p.online, p.results, p.calls, s))
    && StartAsked(job, before, p.online, p.results, p.calls, s)
  }

  /** The start pass finds the member as the stop pass left it. */
  ghost predicate StartDue(job: Job, before: set<Id>, s: Service, p: Progress) {
    && StartCall(s.id) !in p.calls
    && (job.action == Start ==> s.id !in p.failed && (s.id in p.online <==> s.id in before))
    && (job.action == Restart ==>
          && OutcomeOf(p.results, s.id) == Some(StopAnswer(job, before, p.calls, s))
          && (s.id in p.failed <==> Meant(job, before, s) && !Halted(job, p.calls, s.id))
          && (Halted(job, p.calls, s.id) ==> s.id !in p.online))
  }

  ghost predicate StartsUpTo(job: Job, before: set<Id>, k: nat, p: Progress)
    requires k <= |job.ordered|
  {
    && (forall j :: 0 <= j < k ==> StartDone(job, before, job.ordered[j], p))
    && (forall j :: k <= j < |job.ordered| ==> StartDue(job, before, job.ordered[j], p))
    && (forall s :: s in job.ordered ==> StopAsked(job, before, p.calls, s))
    && FailedAreBad(p)
  }

  lemma StopDoneIsBad(job: Job, before: set<Id>, s: Service, p: Progress)
    requires job.action != Start && StopDone(job, before, s, p)
    ensures s.id in p.failed <==> BadFor(p.results, s.id)
  {
    hide KeptByDependent, NeededOutside, OutcomeOf;
  }

  lemma StopsLeaveBad(job: Job, before: set<Id>, p: Progress)
    requires job.action != Start && StopsUpTo(job, before, 0, p)
    ensures FailedAreBad(p)
  {
    forall id ensures id in p.failed <==> BadFor(p.results, id) {
      if id in Ids(job.ordered) {
        var j :| 0 <= j < |job.ordered| && job.ordered[j].id == id;
        StopDoneIsBad(job, before, job.ordered[j], p);
      } else {
        assert Outsider(before, id, p);
      }
    }
  }

  lemma StartsBegin(job: Job, before: set<Id>)
    requires WellOrdered(job) && job.action != Stop
    ensures StartsUpTo(job, before, 0, StopPass(job, before))
  {
    var p := StopPass(job, before);
    if job.action == Restart {
      StopsExplained(job, before, 0);
      StopsLeaveBad(job, before, p);
      forall j | 0 <= j < |job.ordered|
        ensures StartDue(job, before, job.ordered[j], p) && StopAsked(job, before, p.calls, job.ordered[j])
      {
        assert StopDone(job, before, job.ordered[j], p);
      }
    }
    hide StopDone, StopAsked, AfterStops;
  }

  /** Starts do not change what was stopped, nor why. */
  lemma StopsAreOver(job: Job, before: set<Id>, s: Service, id: Id, calls: seq<Call>, later: seq<Call>)
    requires forall c :: c in calls ==> c in later
    requires forall c :: c in later ==> c in calls || c == StartCall(id)
    ensures StopAnswer(job, before, later, s) == StopAnswer(job, before, calls, s)
    ensures StopAsked(job, before, later, s) <==> StopAsked(job, before, calls, s)
    ensures Eligible(job, before, later, s) <==> Eligible(job, before, calls, s)
    ensures Halted(job, later, s.id) <==> Halted(job, calls, s.id)
  {
    forall x ensures Halted(job, later, x) <==> Halted(job, calls, x) {
      assert StopCall(x) in later <==> StopCall(x) in calls;
    }
    assert StopCall(s.id) in later <==> StopCall(s.id) in calls;
    hide Halted, Meant, NeededOutside;
  }

  /** A step for a service the member does not depend on leaves its reason as it is. */
  lemma MayStartStays(job: Job, s: Service, id: Id, p: Progress, q: Progress)
    requires StepOf(id, p, q) && id !in s.dependsOn
    ensures DependencyBad(q.results, s) <==> DependencyBad(p.results, s)
    ensures AllReady(job, q.online, s) <==> AllReady(job, p.online, s)
    ensures MayStart(job, q.online, q.results, s) <==> MayStart(job, p.online, p.results, s)
  {
    forall d | d in s.dependsOn
      ensures BadFor(q.results, d) <==> BadFor(p.results, d)
      ensures d in q.online <==> d in p.online
    {
      assert OutcomeOf(q.results, d) == OutcomeOf(p.results, d);
    }
    hide OutcomeOf, BadFor;
  }

  lemma StartDoneStays(job: Job, before: set<Id>, s: Service, id: Id, p: Progress, q: Progress)
    requires StartDone(job, before, s, p) && StepOf(id, p, q) && s.id != id && id !in s.dependsOn
    requires forall c :: c in q.calls ==> c in p.calls || c == StartCall(id)
    ensures StartDone(job, before, s, q)
  {
    MayStartStays(job, s, id, p, q);
    StopsAreOver(job, before, s, id, p.calls, q.calls);
    assert StartCall(s.id) in q.calls <==> StartCall(s.id) in p.calls;
    hide StopAnswer, DependencyBad, AllReady, MayStart, Eligible, OutcomeOf;
  }

  lemma StartDueStays(job: Job, before: set<Id>, s: Service, id: Id, p: Progress, q: Progress)
    requires StartDue(job, before, s, p) && StepOf(id, p, q) && s.id != id
    requires forall c :: c in q.calls ==> c in p.calls || c == StartCall(id)
    ensures StartDue(job, before, s, q)
  {
    StopsAreOver(job, before, s, id, p.calls, q.calls);
    assert StartCall(s.id) in q.calls <==> StartCall(s.id) in p.calls;
    hide StopAnswer, OutcomeOf, Halted, Meant;
  }

  /** What one turn of the start pass does, in the terms of the reference answers. */
  lemma StartTurn(job: Job, before: set<Id>, s: Service, p: Progress)
    requires job.action != Stop && s in job.ordered && StartDue(job, before, s, p) && FailedAreBad(p)
    ensures var q := StartOne(job, Initial(job, before), s, p);
      if !Eligible(job, before, p.calls, s) then q == p
      else
        && q.results == Put(p.results, s.id,
             if DependencyBad(p.results, s) then BlockedByDependency
             else if MayStart(job, p.online, p.results, s) && job.env.start(s.id).Ready? then Succeeded
             else Failed)
        && (s.id in q.failed <==> !(MayStart(job, p.online, p.results, s) && job.env.start(s.id).Ready?))
        && (StartCall(s.id) in q.calls <==> MayStart(job, p.online, p.results, s) && s.id !in p.online)
  {
    assert (exists d :: d in s.dependsOn && d in p.failed) <==> DependencyBad(p.results, s);
    assert DependenciesReady(job, s, p.online) <==> AllReady(job, p.online, s);
    hide Put, StopAnswer, OutcomeOf, BadFor, DependencyBad, DependenciesReady, AllReady;
  }

  lemma StartOneDone(job: Job, before: set<Id>, k: nat, p: Progress)
    requires WellOrdered(job) && job.action != Stop && k < |job.ordered| && StartsUpTo(job, before, k, p)
    ensures StartDone(job, before, job.ordered[k], StartOne(job, Initial(job, before), job.ordered[k], p))
  {
    var s := job.ordered[k];
    var q := StartOne(job, Initial(job, before), s, p);
    assert s in job.ordered && StartDue(job, before, s, p) && s.id !in s.dependsOn;
    StartTurn(job, before, s, p);
    StartIsLocal(job, Initial(job, before), s, p);
    MayStartStays(job, s, s.id, p, q);
    StopsAreOver(job, before, s, s.id, p.calls, q.calls);
    hide WellOrdered, StartsUpTo, FailedAreBad, StepOf, StopAnswer, MayStart, StartOne, DependencyBad;
    StartDoneBy(job, before, s, p, q);
  }

  lemma StartDoneBy(job: Job, before: set<Id>, s: Service, p: Progress, q: Progress)
    requires job.action != Stop && StartDue(job, before, s, p)
    requires MayStart(job, q.online, q.results, s) <==> MayStart(job, p.online, p.results, s)
    requires DependencyBad(q.results, s) <==> DependencyBad(p.results, s)
    requires StopAnswer(job, before, q.calls, s) == StopAnswer(job, before, p.calls, s)
    requires Eligible(job, before, q.calls, s) <==> Eligible(job, before, p.calls, s)
    requires if !Eligible(job, before, p.calls, s) then q == p
             else
               && q.results == Put(p.results, s.id,
                    if DependencyBad(p.results, s) then BlockedByDependency
                    else if MayStart(job, p.online, p.results, s) && job.env.start(s.id).Ready? then Succeeded
                    else Failed)
               && (StartCall(s.id) in q.calls <==> MayStart(job, p.online, p.results, s) && s.id !in p.online)
    ensures StartDone(job, before, s, q)
  {
    if Eligible(job, before, p.calls, s) {
      PutOutcome(p.results, s.id, BlockedByDependency, s.id);
      PutOutcome(p.results, s.id, Succeeded, s.id);
      PutOutcome(p.results, s.id, Failed, s.id);
    }
    hide StopAnswer, MayStart, DependencyBad, Put, OutcomeOf;
  }

  lemma StartOneKeepsBad(job: Job, before: set<Id>, s: Service, p: Progress)
    requires job.action != Stop && s in job.ordered && StartDue(job, before, s, p) && FailedAreBad(p)
    ensures FailedAreBad(StartOne(job, Initial(job, before), s, p))
  {
    var q := StartOne(job, Initial(job, before), s, p);
    StartTurn(job, before, s, p);
    StartIsLocal(job, Initial(job, before), s, p);
    PutOutcome(p.results, s.id, BlockedByDependency, s.id);
    PutOutcome(p.results, s.id, Succeeded, s.id);
    PutOutcome(p.results, s.id, Failed, s.id);
    assert MayStart(job, p.online, p.results, s) ==> !DependencyBad(p.results, s);
    hide StartOne, StartDue, Eligible, MayStart, DependencyBad, Put, OutcomeOf;
    forall id ensures id in q.failed <==> BadFor(q.results, id) {
      assert id != s.id ==> (id in q.failed <==> id in p.failed) && OutcomeOf(q.results, id) == OutcomeOf(p.results, id);
    }
  }

  lemma StartOthersStay(job: Job, before: set<Id>, k: nat, p: Progress, q: Progress, j: nat)
    requires WellOrdered(job) && k < |job.ordered| && j < |job.ordered| && j != k
    requires StepOf(job.ordered[k].id, p, q)
    requires forall c :: c in q.calls ==> c in p.calls || c == StartCall(job.ordered[k].id)
    ensures j < k && StartDone(job, before, job.ordered[j], p) ==> StartDone(job, before, job.ordered[j], q)
    ensures k < j && StartDue(job, before, job.ordered[j], p) ==> StartDue(job, before, job.ordered[j], q)
  {
    var s, id := job.ordered[j], job.ordered[k].id;
    assert s.id != id && (j < k ==> id !in s.dependsOn);
    hide *;
    if j < k && StartDone(job, before, s, p) {
      StartDoneStays(job, before, s, id, p, q);
    }
    if k < j && StartDue(job, before, s, p) {
      StartDueStays(job, before, s, id, p, q);
    }
  }

  lemma StartOneUpTo(job: Job, before: set<Id>, k: nat, p: Progress)
    requires WellOrdered(job) && job.action != Stop && k < |job.ordered| && StartsUpTo(job, before, k, p)
    ensures StartsUpTo(job, before, k + 1, StartOne(job, Initial(job, before), job.ordered[k], p))
  {
    var s := job.ordered[k];
    var q := StartOne(job, Initial(job, before), s, p);
    assert s in job.ordered;
    StartOneDone(job, before, k, p);
    StartIsLocal(job, Initial(job, before), s, p);
    StartOneKeepsBad(job, before, s, p);
    hide WellOrdered, StartOne, StartDone, StartDue, FailedAreBad, StopAsked;
    forall j | 0 <= j < |job.ordered| && j != k
      ensures if j < k then StartDone(job, before, job.ordered[j], q) else StartDue(job, before, job.ordered[j], q)
    {
      StartOthersStay(job, before, k, p, q, j);
    }
    forall t | t in job.ordered ensures StopAsked(job, before, q.calls, t) {
      StopsAreOver(job, before, t, s.id, p.calls, q.calls);
    }
  }

  lemma {:induction false} StartsExplained(job: Job, before: set<Id>, k: nat)
    requires WellOrdered(job) && job.action != Stop && k <= |job.ordered|
    ensures StartsUpTo(job, before, k, AfterStarts(job, Initial(job, before), k, StopPass(job, before)))
  {
    hide WellOrdered, StartsUpTo, StartOne;
    if k == 0 {
      StartsBegin(job, before);
    } else {
      StartsExplained(job, before, k - 1);
      StartOneUpTo(job, before, k - 1, AfterStarts(job, Initial(job, before), k - 1, StopPass(job, before)));
    }
  }

  // ------------------------------------------------------------------ the whole job

  /** The outcome of the member and the PM2 calls made for it are the reference ones. */
  ghost predicate Explained(job: Job, before: set<Id>, report: Report, s: Service) {
    && OutcomeOf(report.results, s.id) == Some(Answer(job, before, report.online, report.results, report.calls, s))
    && StopAsked(job, before, report.calls, s)
    && StartAsked(job, before, report.online, report.results, report.calls, s)
  }

  lemma PassesExplained(job: Job, before: set<Id>, s: Service)
    requires WellOrdered(job) && s in job.ordered
    ensures var p := JobPasses(job, before);
      && OutcomeOf(p.results, s.id) == Some(Answer(job, before, p.online, p.results, p.calls, s))
      && StopAsked(job, before, p.calls, s)
      && StartAsked(job, before, p.online, p.results, p.calls, s)
  {
    var n := |job.ordered|;
    var j :| 0 <= j < n && job.ordered[j] == s;
    if job.action == Stop {
      StopsExplained(job, before, 0);
      assert StopDone(job, before, s, JobPasses(job, before));
      assert StartCall(s.id) !in JobPasses(job, before).calls;
    } else {
      StartsExplained(job, before, n);
      assert StartDone(job, before, job.ordered[j], JobPasses(job, before));
    }
    hide StopAnswer, StopAsked, MayStart, DependencyBad, OutcomeOf, AfterStops, AfterStarts;
  }

  /** A job has an outer error exactly if an inspection raises. Otherwise every result and
      every call follows from who was online before, the dependencies, and the answers of PM2
      and the probes: who is blocked, by whom, who fails, and who is stopped and started. */
  lemma JobIsExplained(job: Job, before: set<Id>)
    requires Submitted(job)
    ensures var report := JobReport(job, before);
      && (report.outerError <==> exists s :: s in job.ordered && job.env.inspectFails(s.id))
      && (!report.outerError ==> forall s :: s in job.ordered ==> Explained(job, before, report, s))
  {
    SubmittedIsWellOrdered(job);
    ReportOfPasses(job, before);
    hide Submitted, WellOrdered, JobPasses, Answer, StopAsked, StartAsked;
    var report := JobReport(job, before);
    if !report.outerError {
      forall s | s in job.ordered ensures Explained(job, before, report, s) {
        PassesExplained(job, before, s);
      }
    }
  }
}
