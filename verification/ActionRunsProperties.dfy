/** Retention and life cycle of action runs over every interleaving. */
module ActionRunsProperties {
  import opened ActionRuns

  /** One turn of the pruning loop appends to `kept` what it keeps. */
  function Head(rest: seq<RunId>, runs: map<RunId, Run>): seq<RunId>
    requires rest != []
  {
    if Ended(runs, rest[0]) then [] else [rest[0]]
  }

  lemma PrunedTurn(kept: seq<RunId>, rest: seq<RunId>, runs: map<RunId, Run>, limit: nat)
    requires rest != [] && |kept| + |rest| > limit
    ensures Pruned(kept, rest, runs, limit) == Pruned(kept + Head(rest, runs), rest[1..], runs, limit)
    ensures forall id :: id in kept + Head(rest, runs) <==> id in kept || (id == rest[0] && !Ended(runs, id))
    ensures forall id :: id in rest <==> id == rest[0] || id in rest[1..]
    ensures !Ended(runs, rest[0]) ==> (kept + Head(rest, runs)) + rest[1..] == kept + rest
  {
    assert kept + [] == kept;
  }

  lemma {:induction false} PrunedMembers(kept: seq<RunId>, rest: seq<RunId>, runs: map<RunId, Run>, limit: nat, id: RunId)
    ensures id in Pruned(kept, rest, runs, limit) ==> id in kept || id in rest
    ensures id in kept ==> id in Pruned(kept, rest, runs, limit)
    ensures id in rest && !Ended(runs, id) ==> id in Pruned(kept, rest, runs, limit)
    decreases |rest|
  {
    if rest != [] && |kept| + |rest| > limit {
      PrunedTurn(kept, rest, runs, limit);
      PrunedMembers(kept + Head(rest, runs), rest[1..], runs, limit, id);
    }
  }

  lemma {:induction false} PrunedDistinct(kept: seq<RunId>, rest: seq<RunId>, runs: map<RunId, Run>, limit: nat)
    requires Distinct(kept + rest)
    ensures Distinct(Pruned(kept, rest, runs, limit))
    decreases |rest|
  {
    if rest != [] && |kept| + |rest| > limit {
      PrunedTurn(kept, rest, runs, limit);
      DropOne(kept, rest);
      assert kept + [] == kept;
      hide Pruned, Distinct;
      PrunedDistinct(kept + Head(rest, runs), rest[1..], runs, limit);
    }
  }

  lemma DropOne(kept: seq<RunId>, rest: seq<RunId>)
    requires rest != [] && Distinct(kept + rest)
    ensures Distinct(kept + rest[1..])
  {
    var n := |kept|;
    assert forall i :: 0 <= i < |kept + rest[1..]| ==>
      (kept + rest[1..])[i] == (kept + rest)[if i < n then i else i + 1];
  }

  /** Either the result fits the limit or nothing finished is left; and a result below the
      limit means that nothing was removed. */
  lemma {:induction false} PrunedFits(kept: seq<RunId>, rest: seq<RunId>, runs: map<RunId, Run>, limit: nat)
    requires forall id :: id in kept ==> !Ended(runs, id)
    ensures |Pruned(kept, rest, runs, limit)| <= limit || forall id :: id in Pruned(kept, rest, runs, limit) ==> !Ended(runs, id)
    ensures |Pruned(kept, rest, runs, limit)| >= limit || Pruned(kept, rest, runs, limit) == kept + rest
    decreases |rest|
  {
    if rest != [] && |kept| + |rest| > limit {
      PrunedTurn(kept, rest, runs, limit);
      PrunedFits(kept + Head(rest, runs), rest[1..], runs, limit);
    }
  }

  /** The oldest finished runs go first. */
  lemma {:induction false} PrunedOldestFirst(kept: seq<RunId>, rest: seq<RunId>, runs: map<RunId, Run>, limit: nat, i: nat, j: nat)
    requires Distinct(kept + rest) && i < j < |rest| && Ended(runs, rest[i])
    requires rest[i] in Pruned(kept, rest, runs, limit)
    ensures rest[j] in Pruned(kept, rest, runs, limit)
    decreases |rest|
  {
    if |kept| + |rest| > limit {
      PrunedTurn(kept, rest, runs, limit);
      DropOne(kept, rest);
      if i == 0 {
        PrunedMembers(kept, rest[1..], runs, limit, rest[0]);
        HeadIsNew(kept, rest);
      } else {
        hide Pruned, Distinct;
        assert kept + [] == kept;
        PrunedOldestFirst(kept + Head(rest, runs), rest[1..], runs, limit, i - 1, j - 1);
      }
    }
  }

  lemma HeadIsNew(kept: seq<RunId>, rest: seq<RunId>)
    requires rest != [] && Distinct(kept + rest)
    ensures rest[0] !in kept && rest[0] !in rest[1..]
  {
    var all := kept + rest;
    assert forall i :: 0 <= i < |kept| ==> all[i] == kept[i];
    assert forall i :: 0 <= i < |rest| ==> all[|kept| + i] == rest[i];
  }

  /** What pruning a queue means: the result has no duplicates and no strangers, an
      unfinished run stays, a finished run stays only if all later finished ones do, the
      result fits the limit unless nothing finished is left, and no more goes than needed. */
  lemma PruningRemovesOldestFinished(queue: seq<RunId>, runs: map<RunId, Run>, limit: nat)
    requires Distinct(queue)
    ensures var left := Pruned([], queue, runs, limit);
      && Distinct(left)
      && (forall id :: id in left ==> id in queue)
      && (forall id :: id in queue && !Ended(runs, id) ==> id in left)
      && (forall i, j :: 0 <= i < j < |queue| && Ended(runs, queue[i]) && queue[i] in left ==> queue[j] in left)
      && (|left| <= limit || forall id :: id in left ==> !Ended(runs, id))
      && (|left| >= limit || left == queue)
  {
    var left := Pruned([], queue, runs, limit);
    assert [] + queue == queue;
    PrunedDistinct([], queue, runs, limit);
    PrunedFits([], queue, runs, limit);
    hide Pruned, Distinct;
    forall id ensures id in left ==> id in queue
              ensures id in queue && !Ended(runs, id) ==> id in left
    {
      PrunedMembers([], queue, runs, limit, id);
    }
    forall i, j | 0 <= i < j < |queue| && Ended(runs, queue[i]) && queue[i] in left
      ensures queue[j] in left
    {
      PrunedOldestFirst([], queue, runs, limit, i, j);
    }
  }

  // ------------------------------------------------------------------ what every step keeps

  /** The run, process and config maps and the queues name the same runs. */
  ghost predicate SameRuns(t: Table) {
    && t.popens == t.runs.Keys && t.configs == t.runs.Keys
    && (forall item :: item in t.queues ==> QueueInv(t, item))
    && (forall id :: id in t.runs ==> t.runs[id].item in t.queues && id in t.queues[t.runs[id].item])
  }

  ghost predicate QueueInv(t: Table, item: Item)
    requires item in t.queues
  {
    Distinct(t.queues[item]) && forall id :: id in t.queues[item] ==> id in t.runs && t.runs[id].item == item
  }

  /** Exactly the runs that still have a waiter are unfinished. */
  ghost predicate WaitersInv(t: Table) {
    && t.waiting <= t.runs.Keys && t.runs.Keys <= t.used
    && (forall id :: id in t.runs ==> (t.runs[id].ended <==> id !in t.waiting))
    && (forall id :: id in t.runs && t.runs[id].ended ==> t.runs[id].status != Running)
  }

  ghost predicate Fits(t: Table, item: Item, limit: nat) {
    |Queue(t.queues, item)| <= limit || forall id :: id in Queue(t.queues, item) ==> !Ended(t.runs, id)
  }

  ghost predicate Inv(t: Table, limit: nat) {
    SameRuns(t) && WaitersInv(t) && forall item :: item in t.queues ==> Fits(t, item, limit)
  }

  lemma PruneKeepsSameRuns(t: Table, item: Item, limit: nat)
    requires SameRuns(t) && item in t.queues
    ensures SameRuns(Prune(t, item, limit))
  {
    var queue := t.queues[item];
    var left := Pruned([], queue, t.runs, limit);
    var u := Prune(t, item, limit);
    assert QueueInv(t, item);
    PruningRemovesOldestFinished(queue, t.runs, limit);
    hide Pruned, Distinct;
    assert forall id :: id in Gone(queue, left) <==> id in queue && id !in left;
    forall other | other in u.queues ensures QueueInv(u, other) {
      assert QueueInv(t, other);
    }
  }

  lemma PruneKeepsWaiters(t: Table, item: Item, limit: nat)
    requires SameRuns(t) && WaitersInv(t) && item in t.queues
    ensures WaitersInv(Prune(t, item, limit))
  {
    assert QueueInv(t, item);
    PruningRemovesOldestFinished(t.queues[item], t.runs, limit);
    hide Pruned, Distinct;
  }

  lemma PruneMakesFit(t: Table, item: Item, limit: nat)
    requires SameRuns(t) && item in t.queues
    requires forall other :: other in t.queues && other != item ==> Fits(t, other, limit)
    ensures forall other :: other in t.queues ==> Fits(Prune(t, item, limit), other, limit)
  {
    var left := Pruned([], t.queues[item], t.runs, limit);
    var gone := Gone(t.queues[item], left);
    assert QueueInv(t, item) && Prune(t, item, limit) == Removed(t, item, left, gone);
    PruningRemovesOldestFinished(t.queues[item], t.runs, limit);
    hide *;
    forall other | other in t.queues ensures Fits(Removed(t, item, left, gone), other, limit) {
      if other == item {
        LeftFits(t, item, left, gone, limit);
      } else {
        OthersFit(t, item, left, gone, other, limit);
      }
    }
  }

  lemma LeftFits(t: Table, item: Item, left: seq<RunId>, gone: set<RunId>, limit: nat)
    requires |left| <= limit || forall id :: id in left ==> !Ended(t.runs, id)
    ensures Fits(Removed(t, item, left, gone), item, limit)
  {
  }

  lemma OthersFit(t: Table, item: Item, left: seq<RunId>, gone: set<RunId>, other: Item, limit: nat)
    requires other != item && Fits(t, other, limit)
    ensures Fits(Removed(t, item, left, gone), other, limit)
  {
    assert Queue(Removed(t, item, left, gone).queues, other) == Queue(t.queues, other);
    forall id | !Ended(t.runs, id) ensures !Ended(Removed(t, item, left, gone).runs, id) {
    }
    hide Queue, Removed, Ended;
  }

  lemma PruneKeepsInv(t: Table, item: Item, limit: nat)
    requires SameRuns(t) && WaitersInv(t) && item in t.queues
    requires forall other :: other in t.queues && other != item ==> Fits(t, other, limit)
    ensures Inv(Prune(t, item, limit), limit)
  {
    PruneKeepsSameRuns(t, item, limit);
    PruneKeepsWaiters(t, item, limit);
    PruneMakesFit(t, item, limit);
    hide SameRuns, WaitersInv, Fits;
  }

  function Registered(t: Table, id: RunId, item: Item): Table {
    t.(runs := t.runs[id := Run(item, Running, false)], popens := t.popens + {id}, configs := t.configs + {id},
       queues := t.queues[item := Queue(t.queues, item) + [id]],
       waiting := t.waiting + {id}, used := t.used + {id})
  }

  lemma RegisterKeepsQueues(t: Table, id: RunId, item: Item)
    requires SameRuns(t) && id !in t.runs
    ensures SameRuns(Registered(t, id, item))
  {
    var u := Registered(t, id, item);
    forall other | other in u.queues ensures QueueInv(u, other) {
      if other in t.queues {
        assert QueueInv(t, other);
      }
    }
  }

  lemma RegisterKeepsFits(t: Table, id: RunId, item: Item, other: Item, limit: nat)
    requires SameRuns(t) && id !in t.runs && other in t.queues && other != item && Fits(t, other, limit)
    ensures Fits(Registered(t, id, item), other, limit)
  {
    assert QueueInv(t, other);
  }

  lemma StartPrepares(t: Table, id: RunId, item: Item, limit: nat)
    requires Inv(t, limit) && id !in t.used
    ensures var u := Registered(t, id, item);
      SameRuns(u) && WaitersInv(u) && forall other :: other in u.queues && other != item ==> Fits(u, other, limit)
  {
    hide SameRuns, Fits;
    RegisterKeepsQueues(t, id, item);
    forall other | other in t.queues && other != item ensures Fits(Registered(t, id, item), other, limit) {
      RegisterKeepsFits(t, id, item, other, limit);
    }
  }

  lemma FinishPrepares(t: Table, id: RunId, run: Run, limit: nat)
    requires Inv(t, limit) && id in t.waiting && run.item == t.runs[id].item && run.ended && run.status != Running
    ensures var u := t.(runs := t.runs[id := run], waiting := t.waiting - {id});
      SameRuns(u) && WaitersInv(u) && run.item in u.queues &&
      forall other :: other in u.queues && other != run.item ==> Fits(u, other, limit)
  {
    var u := t.(runs := t.runs[id := run], waiting := t.waiting - {id});
    forall other | other in u.queues ensures QueueInv(u, other) {
      assert QueueInv(t, other);
    }
    forall other | other in u.queues && other != run.item ensures Fits(u, other, limit) {
      assert Fits(t, other, limit) && QueueInv(t, other);
    }
  }

  lemma CancelKeepsInv(t: Table, id: RunId, limit: nat)
    requires Inv(t, limit) && id in t.runs && t.runs[id].status == Running
    ensures Inv(t.(runs := t.runs[id := t.runs[id].(status := Cancelled)]), limit)
  {
    var u := t.(runs := t.runs[id := t.runs[id].(status := Cancelled)]);
    forall other | other in u.queues ensures QueueInv(u, other) && Fits(u, other, limit) {
      assert QueueInv(t, other) && Fits(t, other, limit);
    }
  }

  lemma NextKeepsInv(t: Table, step: Step, limit: nat)
    requires Inv(t, limit) && Enabled(t, step)
    ensures Inv(Next(t, step, limit), limit)
  {
    match step {
      case Start(id, item) =>
        StartPrepares(t, id, item, limit);
        hide Inv, SameRuns, WaitersInv, Fits, Prune;
        PruneKeepsInv(Registered(t, id, item), item, limit);
      case Finish(id, exitCode) =>
        var run := Run(t.runs[id].item, FinalStatus(t.runs[id].status, exitCode), true);
        FinishPrepares(t, id, run, limit);
        assert id in t.runs;
        hide Inv, SameRuns, WaitersInv, Fits, Prune;
        PruneKeepsInv(t.(runs := t.runs[id := run], waiting := t.waiting - {id}), run.item, limit);
      case Cancel(id) =>
        if Next(t, step, limit) != t {
          hide Inv;
          CancelKeepsInv(t, id, limit);
        }
    }
  }

  // ------------------------------------------------------------------ every run

  ghost predicate IsRun(limit: nat, states: seq<Table>, steps: seq<Step>) {
    && |states| == |steps| + 1
    && states[0] == EMPTY
    && (forall i :: 0 <= i < |steps| ==> Enabled(states[i], steps[i]) && states[i + 1] == Next(states[i], steps[i], limit))
  }

  lemma {:induction false} RunKeepsInv(limit: nat, states: seq<Table>, steps: seq<Step>, k: nat)
    requires IsRun(limit, states, steps) && k <= |steps|
    ensures Inv(states[k], limit)
  {
    if k > 0 {
      RunKeepsInv(limit, states, steps, k - 1);
      hide Inv;
      NextKeepsInv(states[k - 1], steps[k - 1], limit);
    }
  }

  /** A run whose process has not been waited for is never pruned: it stays in all maps and
      in the queue of its item until its waiter has finished it. */
  lemma UnfinishedRunsStay(limit: nat, states: seq<Table>, steps: seq<Step>, k: nat, id: RunId)
    requires IsRun(limit, states, steps) && k <= |steps| && id in states[k].waiting
    ensures var t := states[k];
      && id in t.runs && id in t.popens && id in t.configs && !t.runs[id].ended
      && id in Queue(t.queues, t.runs[id].item)
  {
    RunKeepsInv(limit, states, steps, k);
  }

  /** Finished runs of an item never exceed the limit when the lock is released. */
  lemma FinishedRunsFit(limit: nat, states: seq<Table>, steps: seq<Step>, k: nat, item: Item, finished: set<RunId>)
    requires IsRun(limit, states, steps) && k <= |steps|
    requires forall id :: id in finished ==> Ended(states[k].runs, id) && states[k].runs[id].item == item
    ensures |finished| <= limit
  {
    RunKeepsInv(limit, states, steps, k);
    if finished != {} {
      var some :| some in finished;
      var t := states[k];
      var queue := t.queues[item];
      assert Fits(t, item, limit);
      SetInSeq(finished, queue);
    }
  }

  lemma {:induction false} SetInSeq(ids: set<RunId>, queue: seq<RunId>)
    requires forall id :: id in ids ==> id in queue
    ensures |ids| <= |queue|
  {
    if queue != [] {
      SetInSeq(ids - {queue[0]}, queue[1..]);
      assert |ids - {queue[0]}| >= |ids| - 1;
    }
  }

  /** Once a run has left `running`, a step never changes its status; an ended run stays
      ended. */
  lemma StepKeepsFinal(t: Table, step: Step, limit: nat, id: RunId)
    requires Inv(t, limit) && Enabled(t, step) && id in t.runs && id in Next(t, step, limit).runs
    ensures t.runs[id].status != Running ==> Next(t, step, limit).runs[id].status == t.runs[id].status
    ensures t.runs[id].ended ==> Next(t, step, limit).runs[id] == t.runs[id]
  {
    hide Pruned;
  }

  lemma PruneKeepsWhatStays(t: Table, item: Item, limit: nat, id: RunId)
    requires id in Prune(t, item, limit).runs
    ensures id in t.runs && Prune(t, item, limit).runs[id] == t.runs[id]
  {
    hide Pruned, Gone;
  }

  /** What the steps mean for the run they are about: started as running and unfinished, ended
      as succeeded exactly for exit code zero unless cancelled before, and cancelled exactly
      if it was running. */
  lemma StepsMeanThis(limit: nat, states: seq<Table>, steps: seq<Step>, k: nat)
    requires IsRun(limit, states, steps) && k < |steps|
    ensures var t, u := states[k], states[k + 1];
      match steps[k]
      case Start(id, item) => id in u.runs && u.runs[id] == Run(item, Running, false)
      case Finish(id, exitCode) =>
        id in t.runs && id in u.runs ==>
          u.runs[id] == Run(t.runs[id].item,
                            if t.runs[id].status == Cancelled then Cancelled
                            else if t.runs[id].status != Running then t.runs[id].status
                            else if exitCode == 0 then Succeeded else Failed, true)
      case Cancel(id) =>
        u == if id in t.runs && t.runs[id].status == Running
             then t.(runs := t.runs[id := Run(t.runs[id].item, Cancelled, t.runs[id].ended)]) else t
  {
    RunKeepsInv(limit, states, steps, k);
    RunKeepsInv(limit, states, steps, k + 1);
    var t := states[k];
    match steps[k] {
      case Start(id, item) =>
        hide Prune, Fits;
        PruneKeepsWhatStays(Registered(t, id, item), item, limit, id);
      case Finish(id, exitCode) =>
        hide Prune, Fits, QueueInv;
        if id in t.runs && id in states[k + 1].runs {
          var run := Run(t.runs[id].item, FinalStatus(t.runs[id].status, exitCode), true);
          PruneKeepsWhatStays(t.(runs := t.runs[id := run], waiting := t.waiting - {id}), run.item, limit, id);
        }
      case Cancel(id) =>
        hide Prune, Fits, QueueInv;
    }
  }

  /** Ids are never drawn twice, so a pruned run does not come back. */
  lemma NoReturn(t: Table, step: Step, limit: nat, id: RunId)
    requires Inv(t, limit) && Enabled(t, step) && id in t.used
    ensures id in Next(t, step, limit).used
    ensures id in Next(t, step, limit).runs ==> id in t.runs
  {
    hide Pruned;
  }

  lemma KnownIsUsed(t: Table, limit: nat, id: RunId)
    requires Inv(t, limit) && id in t.runs
    ensures id in t.used
  {
  }

  lemma RunStep(limit: nat, states: seq<Table>, steps: seq<Step>, i: nat)
    requires IsRun(limit, states, steps) && i < |steps|
    ensures |states| == |steps| + 1 && Enabled(states[i], steps[i]) && states[i + 1] == Next(states[i], steps[i], limit)
  {
  }

  lemma {:induction false} StaysUsed(limit: nat, states: seq<Table>, steps: seq<Step>, k: nat, l: nat, id: RunId)
    requires IsRun(limit, states, steps) && k <= l <= |steps| && id in states[k].used
    ensures id in states[l].used
    decreases l
  {
    hide *;
    if k < l {
      RunStep(limit, states, steps, l - 1);
      StaysUsed(limit, states, steps, k, l - 1, id);
      RunKeepsInv(limit, states, steps, l - 1);
      NoReturn(states[l - 1], steps[l - 1], limit, id);
    }
  }

  /** Once a run has left `running`, it is never seen with another status; an ended run is
      never seen changed. */
  lemma {:induction false} StatusIsFinal(limit: nat, states: seq<Table>, steps: seq<Step>, k: nat, l: nat, id: RunId)
    requires IsRun(limit, states, steps) && k <= l <= |steps|
    requires id in states[k].runs && id in states[l].runs
    ensures states[k].runs[id].status != Running ==> states[l].runs[id].status == states[k].runs[id].status
    ensures states[k].runs[id].ended ==> states[l].runs[id] == states[k].runs[id]
    decreases l
  {
    hide *;
    if k < l {
      RunStep(limit, states, steps, l - 1);
      RunKeepsInv(limit, states, steps, k);
      RunKeepsInv(limit, states, steps, l - 1);
      KnownIsUsed(states[k], limit, id);
      StaysUsed(limit, states, steps, k, l - 1, id);
      NoReturn(states[l - 1], steps[l - 1], limit, id);
      StatusIsFinal(limit, states, steps, k, l - 1, id);
      StepKeepsFinal(states[l - 1], steps[l - 1], limit, id);
    }
  }
}
