/** The table of group jobs and the intent generations that let explicit actions win. */
module JobTable {
  import opened Services

  const JOB_LIMIT: nat := 50

  datatype Status = Queued | Running | Succeeded | Failed
  {
    predicate Active() {
      Queued? || Running?
    }
  }

  datatype JobRecord = JobRecord(id: nat, status: Status)

  /** What an observer of the operations layer sees, oldest first. */
  datatype Event =
    | Submitted(job: nat)
    | Explicit(sid: Id)
    | Mutated(job: nat, sid: Id)

  datatype Table = Table(jobs: seq<JobRecord>, intents: map<nat, map<Id, nat>>,
                         generations: map<Id, nat>, log: seq<Event>)

  datatype Step =
    | Submit(id: nat, members: seq<Id>)
    | Record(sid: Id, explicit: bool)
    | Begin(id: nat)
    | Mutate(id: nat, sid: Id)
    | Finish(id: nat, ok: bool)

  function Generation(generations: map<Id, nat>, sid: Id): nat {
    if sid in generations then generations[sid] else 0
  }

  predicate Busy(jobs: seq<JobRecord>) {
    exists j :: j in jobs && j.status.Active()
  }

  predicate Has(jobs: seq<JobRecord>, id: nat, status: Status) {
    JobRecord(id, status) in jobs
  }

  function SetStatus(jobs: seq<JobRecord>, id: nat, status: Status): (r: seq<JobRecord>)
    ensures |r| == |jobs|
    ensures forall i :: 0 <= i < |jobs| ==>
      r[i] == if jobs[i].id == id then jobs[i].(status := status) else jobs[i]
  {
    if jobs == [] then []
    else [if jobs[0].id == id then jobs[0].(status := status) else jobs[0]] + SetStatus(jobs[1..], id, status)
  }

  /** The oldest jobs leave the table together with their intents. */
  function Evict(t: Table): Table
    decreases |t.jobs|
  {
    if |t.jobs| <= JOB_LIMIT then t
    else Evict(t.(jobs := t.jobs[1..], intents := t.intents - {t.jobs[0].id}))
  }

  function Snapshot(members: seq<Id>, generations: map<Id, nat>): map<Id, nat> {
    map sid | sid in members :: Generation(generations, sid)
  }

  /** Job ids are fresh, and the thread of a job runs its program: begin, mutate, finish. */
  predicate Enabled(t: Table, step: Step) {
    match step
    case Submit(id, _) => Submitted(id) !in t.log
    case Record(_, _) => true
    case Begin(id) => Has(t.jobs, id, Queued)
    case Mutate(id, sid) => Has(t.jobs, id, Running) && id in t.intents && sid in t.intents[id]
    case Finish(id, _) => Has(t.jobs, id, Running)
  }

  function Next(t: Table, step: Step): Table
    requires Enabled(t, step)
  {
    match step
    case Submit(id, members) =>
      if Busy(t.jobs) then t
      else
        Evict(Table(t.jobs + [JobRecord(id, Queued)],
                    t.intents[id := Snapshot(members, t.generations)],
                    t.generations, t.log + [Submitted(id)]))
    case Record(sid, explicit) =>
      if explicit
      then t.(generations := t.generations[sid := Generation(t.generations, sid) + 1], log := t.log + [Explicit(sid)])
      else t
    case Begin(id) => t.(jobs := SetStatus(t.jobs, id, Running))
    case Mutate(id, sid) =>
      if t.intents[id][sid] == Generation(t.generations, sid) then t.(log := t.log + [Mutated(id, sid)]) else t
    case Finish(id, ok) => t.(jobs := SetStatus(t.jobs, id, if ok then Succeeded else Failed))
  }

  const EMPTY: Table := Table([], map[], map[], [])

  class Operations {
    var jobs: seq<JobRecord>
    var jobIntents: map<nat, map<Id, nat>>
    var actionGenerations: map<Id, nat>
    ghost var log: seq<Event>

    constructor ()
      ensures State() == EMPTY
    {
      jobs, jobIntents, actionGenerations, log := [], map[], map[], [];
    }

    ghost function State(): Table
      reads this
    {
      Table(jobs, jobIntents, actionGenerations, log)
    }

    /** The locked part of `submit_group`; false is `operation_in_progress`. */
    method SubmitGroup(id: nat, members: seq<Id>) returns (accepted: bool)
      requires Enabled(State(), Submit(id, members))
      modifies this
      ensures State() == Next(old(State()), Submit(id, members))
      ensures accepted <==> forall j :: j in old(jobs) ==> j.status in {Succeeded, Failed}
    {
      if Busy(jobs) {
        return false;
      }
      jobs := jobs + [JobRecord(id, Queued)];
      jobIntents := jobIntents[id := Snapshot(members, actionGenerations)];
      log := log + [Submitted(id)];
      ghost var grown := State();
      while |jobs| > JOB_LIMIT
        invariant Evict(State()) == Evict(grown)
        decreases |jobs|
      {
        jobIntents := jobIntents - {jobs[0].id};
        jobs := jobs[1..];
      }
      return true;
    }

    method RecordAction(sid: Id, explicit: bool)
      modifies this
      ensures State() == Next(old(State()), Record(sid, explicit))
      ensures Generation(actionGenerations, sid) == Generation(old(actionGenerations), sid) + if explicit then 1 else 0
    {
      if explicit {
        actionGenerations := actionGenerations[sid := Generation(actionGenerations, sid) + 1];
        log := log + [Explicit(sid)];
      }
    }

    method BeginJob(id: nat)
      requires Enabled(State(), Begin(id))
      modifies this
      ensures State() == Next(old(State()), Begin(id))
      ensures |jobs| == |old(jobs)| && forall i :: 0 <= i < |jobs| ==>
        jobs[i] == if old(jobs)[i].id == id then JobRecord(id, Running) else old(jobs)[i]
    {
      jobs := SetStatus(jobs, id, Running);
    }

    /** `_check_intent` followed by the mutation, both under the mutation locks. */
    method MutateChecked(id: nat, sid: Id) returns (done: bool)
      requires Enabled(State(), Mutate(id, sid))
      modifies this
      ensures State() == Next(old(State()), Mutate(id, sid))
      ensures done <==>
        jobIntents[id][sid] == if sid in actionGenerations then actionGenerations[sid] else 0
    {
      done := jobIntents[id][sid] == Generation(actionGenerations, sid);
      if done {
        log := log + [Mutated(id, sid)];
      }
    }

    method FinishJob(id: nat, ok: bool)
      requires Enabled(State(), Finish(id, ok))
      modifies this
      ensures State() == Next(old(State()), Finish(id, ok))
      ensures |jobs| == |old(jobs)| && forall i :: 0 <= i < |jobs| ==>
        jobs[i] == if old(jobs)[i].id == id then JobRecord(id, if ok then Succeeded else Failed) else old(jobs)[i]
    {
      jobs := SetStatus(jobs, id, if ok then Succeeded else Failed);
    }
  }

  // ------------------------------------------------------------------ invariants of every run

  /** Explicit actions on `sid` among the first `n` events. */
  function ExplicitCount(log: seq<Event>, n: nat, sid: Id): nat
    requires n <= |log|
  {
    if n == 0 then 0
    else ExplicitCount(log, n - 1, sid) + if log[n - 1] == Explicit(sid) then 1 else 0
  }

  ghost predicate HasId(jobs: seq<JobRecord>, id: nat) {
    exists i :: 0 <= i < |jobs| && jobs[i].id == id
  }

  ghost predicate DistinctIds(jobs: seq<JobRecord>) {
    forall i, j :: 0 <= i < j < |jobs| ==> jobs[i].id != jobs[j].id
  }

  /** Only the newest job may be queued or running; intents and jobs have the same keys. */
  ghost predicate TableInv(t: Table) {
    && |t.jobs| <= JOB_LIMIT
    && DistinctIds(t.jobs)
    && SameKeys(t)
    && (forall i :: 0 <= i < |t.jobs| - 1 ==> !t.jobs[i].status.Active())
  }

  ghost predicate SameKeys(t: Table) {
    forall id :: id in t.intents <==> HasId(t.jobs, id)
  }

  /** A mutation logged for a job has no explicit action on its service since submission. */
  ghost predicate ExplicitWins(log: seq<Event>) {
    forall a, b, m :: 0 <= a < b < m < |log| && log[m].Mutated? && log[a] == Submitted(log[m].job) ==>
      log[b] != Explicit(log[m].sid)
  }

  ghost predicate GenerationsCount(t: Table) {
    forall sid :: Generation(t.generations, sid) == ExplicitCount(t.log, |t.log|, sid)
  }

  /** The versions bound to a job count the explicit actions before its submission. */
  ghost predicate IntentsCount(t: Table) {
    forall a, j, sid :: 0 <= a < |t.log| && t.log[a] == Submitted(j) && j in t.intents && sid in t.intents[j] ==>
      t.intents[j][sid] == ExplicitCount(t.log, a, sid)
  }

  ghost predicate IntentsSubmitted(t: Table) {
    forall j :: j in t.intents ==> Submitted(j) in t.log
  }

  ghost predicate LogInv(t: Table) {
    GenerationsCount(t) && IntentsCount(t) && IntentsSubmitted(t) && ExplicitWins(t.log)
  }

  ghost predicate Inv(t: Table) {
    TableInv(t) && LogInv(t)
  }

  lemma {:induction false} CountUnchanged(log: seq<Event>, a: nat, n: nat, sid: Id)
    requires a <= n <= |log|
    ensures ExplicitCount(log, a, sid) <= ExplicitCount(log, n, sid)
    ensures ExplicitCount(log, a, sid) == ExplicitCount(log, n, sid) ==>
      forall b :: a <= b < n ==> log[b] != Explicit(sid)
    decreases n
  {
    if a < n {
      CountUnchanged(log, a, n - 1, sid);
    }
  }

  lemma {:induction false} CountOfPrefix(log: seq<Event>, e: Event, n: nat, sid: Id)
    requires n <= |log|
    ensures ExplicitCount(log + [e], n, sid) == ExplicitCount(log, n, sid)
  {
    if n > 0 {
      CountOfPrefix(log, e, n - 1, sid);
    }
  }

  lemma AppendKeepsCounts(t: Table, e: Event, u: Table)
    requires GenerationsCount(t) && u.log == t.log + [e]
    requires forall sid :: Generation(u.generations, sid) ==
                           Generation(t.generations, sid) + if e == Explicit(sid) then 1 else 0
    ensures GenerationsCount(u)
  {
    forall sid ensures Generation(u.generations, sid) == ExplicitCount(u.log, |u.log|, sid) {
      CountOfPrefix(t.log, e, |t.log|, sid);
    }
  }

  lemma AppendKeepsIntents(t: Table, e: Event, u: Table)
    requires IntentsCount(t) && IntentsSubmitted(t) && u.intents == t.intents && u.log == t.log + [e]
    requires !e.Submitted?
    ensures IntentsCount(u) && IntentsSubmitted(u)
  {
    forall a, j, sid | 0 <= a < |u.log| && u.log[a] == Submitted(j) && j in u.intents && sid in u.intents[j]
      ensures u.intents[j][sid] == ExplicitCount(u.log, a, sid)
    {
      CountOfPrefix(t.log, e, a, sid);
      assert t.log[a] == Submitted(j);
    }
  }

  lemma AppendKeepsWins(t: Table, e: Event)
    requires ExplicitWins(t.log) && GenerationsCount(t) && IntentsCount(t)
    requires e.Mutated? ==> e.job in t.intents && e.sid in t.intents[e.job] &&
                            t.intents[e.job][e.sid] == Generation(t.generations, e.sid)
    ensures ExplicitWins(t.log + [e])
  {
    var log := t.log + [e];
    forall a, b, m | 0 <= a < b < m < |log| && log[m].Mutated? && log[a] == Submitted(log[m].job)
      ensures log[b] != Explicit(log[m].sid)
    {
      if m == |t.log| {
        assert t.log[a] == Submitted(e.job);
        CountUnchanged(t.log, a, |t.log|, e.sid);
      } else {
        assert t.log[m] == log[m] && t.log[a] == log[a] && t.log[b] == log[b];
      }
    }
  }

  lemma SubmitKeepsIntents(t: Table, id: nat, members: seq<Id>, u: Table)
    requires GenerationsCount(t) && IntentsCount(t) && IntentsSubmitted(t) && Submitted(id) !in t.log
    requires u.log == t.log + [Submitted(id)]
    requires u.intents == t.intents[id := Snapshot(members, t.generations)]
    ensures IntentsCount(u) && IntentsSubmitted(u)
  {
    assert u.log[|t.log|] == Submitted(id);
    forall a, j, sid | 0 <= a < |u.log| && u.log[a] == Submitted(j) && j in u.intents && sid in u.intents[j]
      ensures u.intents[j][sid] == ExplicitCount(u.log, a, sid)
    {
      CountOfPrefix(t.log, Submitted(id), a, sid);
      if a < |t.log| {
        assert t.log[a] == Submitted(j) && t.log[a] in t.log;
      }
    }
  }

  lemma {:induction false} EvictKeepsLog(t: Table)
    requires LogInv(t)
    ensures LogInv(Evict(t))
    decreases |t.jobs|
  {
    if |t.jobs| > JOB_LIMIT {
      var u := t.(jobs := t.jobs[1..], intents := t.intents - {t.jobs[0].id});
      assert IntentsCount(u);
      EvictKeepsLog(u);
    }
  }

  lemma DropOldest(t: Table)
    requires DistinctIds(t.jobs) && SameKeys(t) && |t.jobs| > 0
    ensures var u := t.(jobs := t.jobs[1..], intents := t.intents - {t.jobs[0].id});
      DistinctIds(u.jobs) && SameKeys(u)
  {
    var u := t.(jobs := t.jobs[1..], intents := t.intents - {t.jobs[0].id});
    forall id ensures id in u.intents <==> HasId(u.jobs, id) {
      if HasId(u.jobs, id) {
        var i :| 0 <= i < |u.jobs| && u.jobs[i].id == id;
        assert t.jobs[i + 1].id == id;
      }
      if id in u.intents {
        var i :| 0 <= i < |t.jobs| && t.jobs[i].id == id;
        assert u.jobs[i - 1].id == id;
      }
    }
  }

  /** Eviction cuts the list to its newest entries and drops exactly their intents. */
  lemma {:induction false} EvictKeepsNewest(t: Table)
    requires DistinctIds(t.jobs) && SameKeys(t)
    ensures var n := |t.jobs|;
      Evict(t).jobs == if n > JOB_LIMIT then t.jobs[n - JOB_LIMIT..] else t.jobs
    ensures DistinctIds(Evict(t).jobs) && SameKeys(Evict(t))
    decreases |t.jobs|
  {
    if |t.jobs| > JOB_LIMIT {
      hide DistinctIds, SameKeys;
      DropOldest(t);
      EvictKeepsNewest(t.(jobs := t.jobs[1..], intents := t.intents - {t.jobs[0].id}));
    }
  }

  function Grown(t: Table, id: nat, members: seq<Id>): Table {
    Table(t.jobs + [JobRecord(id, Queued)], t.intents[id := Snapshot(members, t.generations)],
          t.generations, t.log + [Submitted(id)])
  }

  lemma GrownKeepsKeys(t: Table, id: nat, members: seq<Id>)
    requires SameKeys(t)
    ensures SameKeys(Grown(t, id, members))
  {
    var u := Grown(t, id, members);
    forall x ensures x in u.intents <==> HasId(u.jobs, x) {
      if HasId(t.jobs, x) {
        var i :| 0 <= i < |t.jobs| && t.jobs[i].id == x;
        assert u.jobs[i].id == x;
      }
      assert u.jobs[|t.jobs|].id == id;
    }
  }

  lemma GrownKeepsDistinct(t: Table, id: nat)
    requires SameKeys(t) && DistinctIds(t.jobs) && id !in t.intents
    ensures DistinctIds(t.jobs + [JobRecord(id, Queued)])
  {
    forall i | 0 <= i < |t.jobs| ensures t.jobs[i].id != id {
      KnownId(t, i);
    }
  }

  lemma SubmitKeepsTable(t: Table, id: nat, members: seq<Id>)
    requires TableInv(t) && id !in t.intents && !Busy(t.jobs)
    ensures TableInv(Evict(Grown(t, id, members)))
  {
    var u := Grown(t, id, members);
    GrownKeepsKeys(t, id, members);
    GrownKeepsDistinct(t, id);
    hide SameKeys, DistinctIds;
    forall i | 0 <= i < |t.jobs| ensures !t.jobs[i].status.Active() {
      assert t.jobs[i] in t.jobs;
    }
    EvictKeepsNewest(u);
  }

  lemma SetStatusKeepsIds(jobs: seq<JobRecord>, id: nat, to: Status)
    ensures forall x :: HasId(SetStatus(jobs, id, to), x) <==> HasId(jobs, x)
    ensures DistinctIds(jobs) ==> DistinctIds(SetStatus(jobs, id, to))
  {
    var after := SetStatus(jobs, id, to);
    assert forall i :: 0 <= i < |jobs| ==> after[i].id == jobs[i].id;
    forall x ensures HasId(after, x) <==> HasId(jobs, x) {
      if HasId(jobs, x) {
        var i :| 0 <= i < |jobs| && jobs[i].id == x;
        assert after[i].id == x;
      }
    }
  }

  /** Only the newest job can be active, so the one whose status changes is the newest. */
  lemma StatusKeepsOldFinished(jobs: seq<JobRecord>, id: nat, from: Status, to: Status)
    requires DistinctIds(jobs) && Has(jobs, id, from) && from.Active()
    requires forall i :: 0 <= i < |jobs| - 1 ==> !jobs[i].status.Active()
    ensures forall i :: 0 <= i < |jobs| - 1 ==> !SetStatus(jobs, id, to)[i].status.Active()
  {
    var k :| 0 <= k < |jobs| && jobs[k] == JobRecord(id, from);
    assert k == |jobs| - 1;
    assert forall i :: 0 <= i < k ==> jobs[i].id != jobs[k].id;
    hide DistinctIds;
  }

  lemma StatusKeepsKeys(t: Table, id: nat, to: Status)
    requires SameKeys(t)
    ensures SameKeys(t.(jobs := SetStatus(t.jobs, id, to)))
  {
    hide HasId, DistinctIds, SetStatus;
    SetStatusKeepsIds(t.jobs, id, to);
  }

  lemma StatusKeepsTable(t: Table, id: nat, from: Status, to: Status)
    requires TableInv(t) && Has(t.jobs, id, from) && from.Active()
    ensures TableInv(t.(jobs := SetStatus(t.jobs, id, to)))
  {
    hide DistinctIds, HasId, SameKeys;
    SetStatusKeepsIds(t.jobs, id, to);
    StatusKeepsKeys(t, id, to);
    StatusKeepsOldFinished(t.jobs, id, from, to);
  }

  lemma NextKeepsLog(t: Table, step: Step)
    requires LogInv(t) && Enabled(t, step)
    ensures LogInv(Next(t, step))
  {
    var u := Next(t, step);
    match step {
      case Submit(id, members) =>
        if !Busy(t.jobs) {
          var grown := Grown(t, id, members);
          AppendKeepsCounts(t, Submitted(id), grown);
          SubmitKeepsIntents(t, id, members, grown);
          AppendKeepsWins(t, Submitted(id));
          hide GenerationsCount, IntentsCount, IntentsSubmitted, ExplicitWins;
          EvictKeepsLog(grown);
        }
      case Record(sid, explicit) =>
        if explicit {
          AppendKeepsCounts(t, Explicit(sid), u);
          hide GenerationsCount, IntentsCount, IntentsSubmitted, ExplicitWins;
          AppendKeepsIntents(t, Explicit(sid), u);
          AppendKeepsWins(t, Explicit(sid));
        }
      case Mutate(id, sid) =>
        if u != t {
          AppendKeepsCounts(t, Mutated(id, sid), u);
          hide GenerationsCount, IntentsCount, IntentsSubmitted, ExplicitWins;
          AppendKeepsIntents(t, Mutated(id, sid), u);
          AppendKeepsWins(t, Mutated(id, sid));
        }
      case Begin(id) =>
      case Finish(id, ok) =>
    }
  }

  lemma NextKeepsInv(t: Table, step: Step)
    requires Inv(t) && Enabled(t, step)
    ensures Inv(Next(t, step))
  {
    NextKeepsLog(t, step);
    match step {
      case Submit(id, members) =>
        if !Busy(t.jobs) {
          assert id !in t.intents;
          hide LogInv, TableInv;
          SubmitKeepsTable(t, id, members);
        }
      case Record(_, _) =>
      case Mutate(_, _) =>
      case Begin(id) =>
        hide LogInv, TableInv;
        StatusKeepsTable(t, id, Queued, Running);
      case Finish(id, ok) =>
        hide LogInv, TableInv;
        StatusKeepsTable(t, id, Running, if ok then Succeeded else Failed);
    }
  }

  /** States reachable by some interleaving of requests, explicit actions and job threads. */
  ghost predicate IsRun(states: seq<Table>, steps: seq<Step>) {
    && |states| == |steps| + 1
    && states[0] == EMPTY
    && (forall i :: 0 <= i < |steps| ==> Enabled(states[i], steps[i]) && states[i + 1] == Next(states[i], steps[i]))
  }

  lemma {:induction false} RunKeepsInv(states: seq<Table>, steps: seq<Step>, k: nat)
    requires IsRun(states, steps) && k <= |steps|
    ensures Inv(states[k])
  {
    if k > 0 {
      RunKeepsInv(states, steps, k - 1);
      NextKeepsInv(states[k - 1], steps[k - 1]);
    }
  }

  /** In every run at most one job is queued or running, it is the newest one and it is
      still in the table; the table never holds more than fifty. */
  lemma OneActiveJob(states: seq<Table>, steps: seq<Step>, k: nat, a: JobRecord, b: JobRecord)
    requires IsRun(states, steps) && k <= |steps|
    requires a in states[k].jobs && b in states[k].jobs && a.status.Active()
    ensures a == states[k].jobs[|states[k].jobs| - 1]
    ensures b.status.Active() ==> a == b
    ensures |states[k].jobs| <= JOB_LIMIT && a.id in states[k].intents
  {
    RunKeepsInv(states, steps, k);
  }

  /** An explicit action between the submission of a job and a mutation of that job on the
      same service is impossible in every run. */
  lemma ExplicitActionsWin(states: seq<Table>, steps: seq<Step>, k: nat, a: nat, b: nat, m: nat)
    requires IsRun(states, steps) && k <= |steps|
    requires a < b < m < |states[k].log|
    requires states[k].log[m].Mutated? && states[k].log[a] == Submitted(states[k].log[m].job)
    ensures states[k].log[b] != Explicit(states[k].log[m].sid)
  {
    RunKeepsInv(states, steps, k);
  }

  lemma {:induction false} SameCountMeansNone(log: seq<Event>, a: nat, n: nat, sid: Id)
    requires a <= n <= |log| && forall b :: a <= b < n ==> log[b] != Explicit(sid)
    ensures ExplicitCount(log, n, sid) == ExplicitCount(log, a, sid)
    decreases n
  {
    if a < n {
      SameCountMeansNone(log, a, n - 1, sid);
    }
  }

  /** In every run a job mutates a service exactly if no explicit action on it has been
      recorded since the submission of the job. */
  lemma MutationsHappen(states: seq<Table>, steps: seq<Step>, k: nat, a: nat)
    requires IsRun(states, steps) && k < |steps| && steps[k].Mutate?
    requires a < |states[k].log| && states[k].log[a] == Submitted(steps[k].id)
    ensures var log, step := states[k].log, steps[k];
      states[k + 1].log == log + (if forall b :: a < b < |log| ==> log[b] != Explicit(step.sid)
                                  then [Mutated(step.id, step.sid)] else [])
  {
    RunKeepsInv(states, steps, k);
    hide Inv;
    MutationHappens(states[k], steps[k].id, steps[k].sid, a);
  }

  lemma CountsOf(t: Table, id: nat, sid: Id, a: nat)
    requires GenerationsCount(t) && IntentsCount(t) && id in t.intents && sid in t.intents[id]
    requires a < |t.log| && t.log[a] == Submitted(id)
    ensures t.intents[id][sid] == ExplicitCount(t.log, a, sid)
    ensures Generation(t.generations, sid) == ExplicitCount(t.log, |t.log|, sid)
  {
    hide ExplicitCount, Generation;
  }

  lemma MutationHappens(t: Table, id: nat, sid: Id, a: nat)
    requires Inv(t) && Enabled(t, Mutate(id, sid)) && a < |t.log| && t.log[a] == Submitted(id)
    ensures Next(t, Mutate(id, sid)).log ==
      t.log + if forall b :: a < b < |t.log| ==> t.log[b] != Explicit(sid) then [Mutated(id, sid)] else []
  {
    CountsOf(t, id, sid, a);
    assert Next(t, Mutate(id, sid)).log ==
      if t.intents[id][sid] == Generation(t.generations, sid) then t.log + [Mutated(id, sid)] else t.log;
    hide *;
    CountUnchanged(t.log, a, |t.log|, sid);
    if forall b :: a < b < |t.log| ==> t.log[b] != Explicit(sid) {
      SameCountMeansNone(t.log, a, |t.log|, sid);
    }
    assert t.log + [] == t.log;
  }

  lemma {:induction false} EvictKeepsLast(t: Table)
    requires t.jobs != []
    ensures Evict(t).jobs != [] && Evict(t).jobs[|Evict(t).jobs| - 1] == t.jobs[|t.jobs| - 1]
    ensures Evict(t).log == t.log && Evict(t).generations == t.generations
    ensures forall id :: id in Evict(t).intents ==> id in t.intents && Evict(t).intents[id] == t.intents[id]
    decreases |t.jobs|
  {
    if |t.jobs| > JOB_LIMIT {
      EvictKeepsLast(t.(jobs := t.jobs[1..], intents := t.intents - {t.jobs[0].id}));
    }
  }

  /** In every run a submission is accepted exactly if all jobs in the table are finished. The
      job is then the newest one, queued, and bound to the generations of its members. */
  lemma SubmissionsAreAccepted(states: seq<Table>, steps: seq<Step>, k: nat)
    requires IsRun(states, steps) && k < |steps| && steps[k].Submit?
    ensures var t, u, step := states[k], states[k + 1], steps[k];
      if forall j :: j in t.jobs ==> j.status in {Succeeded, Failed} then
        && u.jobs != [] && u.jobs[|u.jobs| - 1] == JobRecord(step.id, Queued)
        && u.log == t.log + [Submitted(step.id)] && step.id in u.intents
        && u.intents[step.id] == (map sid | sid in step.members :: if sid in t.generations then t.generations[sid] else 0)
      else u == t
  {
    RunKeepsInv(states, steps, k + 1);
    assert SameKeys(states[k + 1]) && states[k + 1] == Next(states[k], steps[k]);
    hide Inv, Evict, SameKeys;
    SubmissionIsAccepted(states[k], steps[k].id, steps[k].members);
  }

  lemma IdleMeansFinished(jobs: seq<JobRecord>)
    ensures Busy(jobs) <==> !forall j :: j in jobs ==> j.status in {Succeeded, Failed}
  {
  }

  lemma SubmissionIsAccepted(t: Table, id: nat, members: seq<Id>)
    requires Enabled(t, Submit(id, members)) && SameKeys(Next(t, Submit(id, members)))
    ensures var u := Next(t, Submit(id, members));
      if forall j :: j in t.jobs ==> j.status in {Succeeded, Failed} then
        && u.jobs != [] && u.jobs[|u.jobs| - 1] == JobRecord(id, Queued)
        && u.log == t.log + [Submitted(id)] && id in u.intents
        && u.intents[id] == (map sid | sid in members :: if sid in t.generations then t.generations[sid] else 0)
      else u == t
  {
    IdleMeansFinished(t.jobs);
    hide Busy, Evict, SameKeys;
    if !Busy(t.jobs) {
      var grown := Grown(t, id, members);
      EvictKeepsLast(grown);
      KnownId(Evict(grown), |Evict(grown).jobs| - 1);
      assert Next(t, Submit(id, members)) == Evict(grown);
    }
  }

  /** A finished job keeps its status for as long as it stays in the table. */
  lemma TerminalStaysTerminal(t: Table, step: Step, i: nat)
    requires TableInv(t) && Enabled(t, step) && i < |t.jobs| && !t.jobs[i].status.Active()
    requires step.Submit? ==> step.id !in t.intents
    ensures forall k :: k in Next(t, step).jobs && k.id == t.jobs[i].id ==> k == t.jobs[i]
  {
    var u, j := Next(t, step), t.jobs[i];
    match step {
      case Submit(id, members) =>
        if !Busy(t.jobs) {
          KnownId(t, i);
          EvictedFrom(Grown(t, id, members));
        }
        forall k | k in u.jobs && k.id == j.id ensures k == j {
          SameIdSameJob(t.jobs, i, k);
        }
      case Begin(id) => OtherJobsKept(t.jobs, id, Queued, Running, i);
      case Finish(id, ok) => OtherJobsKept(t.jobs, id, Running, if ok then Succeeded else Failed, i);
      case _ =>
        forall k | k in u.jobs && k.id == j.id ensures k == j {
          SameIdSameJob(t.jobs, i, k);
        }
    }
  }

  lemma SameIdSameJob(jobs: seq<JobRecord>, i: nat, k: JobRecord)
    requires DistinctIds(jobs) && i < |jobs| && k in jobs && k.id == jobs[i].id
    ensures k == jobs[i]
  {
  }

  lemma OtherJobsKept(jobs: seq<JobRecord>, id: nat, from: Status, to: Status, i: nat)
    requires DistinctIds(jobs) && i < |jobs| && Has(jobs, id, from) && jobs[i].status != from
    ensures forall k :: k in SetStatus(jobs, id, to) && k.id == jobs[i].id ==> k == jobs[i]
  {
    SameIdUnlessOther(jobs, id, from, i);
    hide DistinctIds;
    forall k | k in SetStatus(jobs, id, to) && k.id == jobs[i].id ensures k == jobs[i] {
      KeptUnlessMeant(jobs, id, to, k);
      SameIdSameJob(jobs, i, k);
    }
  }

  /** A status change leaves the jobs with other ids as they were. */
  lemma KeptUnlessMeant(jobs: seq<JobRecord>, id: nat, to: Status, k: JobRecord)
    requires k in SetStatus(jobs, id, to) && k.id != id
    ensures k in jobs
  {
    var after := SetStatus(jobs, id, to);
    var m :| 0 <= m < |after| && after[m] == k;
    assert jobs[m] in jobs;
  }

  lemma SameIdUnlessOther(jobs: seq<JobRecord>, id: nat, from: Status, i: nat)
    requires DistinctIds(jobs) && i < |jobs| && Has(jobs, id, from) && jobs[i].status != from
    ensures jobs[i].id != id
  {
    if jobs[i].id == id {
      SameIdSameJob(jobs, i, JobRecord(id, from));
    }
  }

  lemma KnownId(t: Table, i: nat)
    requires SameKeys(t) && i < |t.jobs|
    ensures t.jobs[i].id in t.intents
  {
    assert HasId(t.jobs, t.jobs[i].id);
  }

  lemma {:induction false} LogGrows(t: Table, step: Step)
    requires Enabled(t, step)
    ensures t.log <= Next(t, step).log
  {
    if step.Submit? && !Busy(t.jobs) {
      EvictedFrom(Grown(t, step.id, step.members));
    }
  }

  /** In every run, a job seen finished is never seen with another status afterwards. */
  lemma {:induction false} TerminalForever(states: seq<Table>, steps: seq<Step>, k: nat, l: nat, j: JobRecord)
    requires IsRun(states, steps) && k <= l <= |steps|
    requires j in states[k].jobs && !j.status.Active()
    ensures forall x :: x in states[l].jobs && x.id == j.id ==> x == j
    ensures Submitted(j.id) in states[l].log
    decreases l
  {
    hide Inv, TableInv, LogInv, Next;
    RunKeepsInv(states, steps, l);
    if k == l {
      SeenIsOnlyOne(states[k], j);
    } else {
      TerminalForever(states, steps, k, l - 1, j);
      RunKeepsInv(states, steps, l - 1);
      LogGrows(states[l - 1], steps[l - 1]);
      assert TableInv(states[l - 1]) && IntentsSubmitted(states[l - 1]) by { InvParts(states[l - 1]); }
      TerminalStep(states[l - 1], steps[l - 1], states[l], j);
    }
  }

  lemma InvParts(t: Table)
    requires Inv(t)
    ensures TableInv(t) && IntentsSubmitted(t)
  {
  }

  lemma SeenIsOnlyOne(t: Table, j: JobRecord)
    requires Inv(t) && j in t.jobs
    ensures Submitted(j.id) in t.log
    ensures forall x :: x in t.jobs && x.id == j.id ==> x == j
  {
    var i :| 0 <= i < |t.jobs| && t.jobs[i] == j;
    KnownId(t, i);
  }

  lemma TerminalStep(t: Table, step: Step, u: Table, j: JobRecord)
    requires TableInv(t) && Enabled(t, step) && u == Next(t, step)
    requires Submitted(j.id) in t.log && IntentsSubmitted(t) && !j.status.Active()
    requires forall x :: x in t.jobs && x.id == j.id ==> x == j
    ensures forall x :: x in u.jobs && x.id == j.id ==> x == j
  {
    if i :| 0 <= i < |t.jobs| && t.jobs[i] == j {
      TerminalStaysTerminal(t, step, i);
    } else if step.Submit? && !Busy(t.jobs) {
      EvictedFrom(Grown(t, step.id, step.members));
    } else {
      forall x | x in u.jobs ensures exists y :: y in t.jobs && y.id == x.id {
        var m :| 0 <= m < |u.jobs| && u.jobs[m] == x;
        assert t.jobs[m] in t.jobs;
      }
    }
  }

  lemma {:induction false} EvictedFrom(t: Table)
    ensures forall j :: j in Evict(t).jobs ==> j in t.jobs
    ensures Evict(t).log == t.log
    decreases |t.jobs|
  {
    if |t.jobs| > JOB_LIMIT {
      EvictedFrom(t.(jobs := t.jobs[1..], intents := t.intents - {t.jobs[0].id}));
    }
  }
}
