/** One-off action runs: their life cycle, and the pruning of finished runs per item. */
module ActionRuns {
  type RunId = nat
  type Item = nat

  datatype Status = Running | Succeeded | Failed | Cancelled

  datatype Run = Run(item: Item, status: Status, ended: bool)

  /** `waiting` are the runs whose waiter thread has not finished them; `used` all ids
      ever drawn. */
  datatype Table = Table(runs: map<RunId, Run>, popens: set<RunId>, configs: set<RunId>,
                         queues: map<Item, seq<RunId>>, waiting: set<RunId>, used: set<RunId>)

  datatype Step =
    | Start(id: RunId, item: Item)
    | Finish(id: RunId, exitCode: int)
    | Cancel(id: RunId)

  const EMPTY: Table := Table(map[], {}, {}, map[], {}, {})

  function Queue(queues: map<Item, seq<RunId>>, item: Item): seq<RunId> {
    if item in queues then queues[item] else []
  }

  predicate Ended(runs: map<RunId, Run>, id: RunId) {
    id in runs && runs[id].ended
  }

  /** What the pruning loop leaves of `kept + rest` once `kept` has been looked at. */
  function Pruned(kept: seq<RunId>, rest: seq<RunId>, runs: map<RunId, Run>, limit: nat): seq<RunId>
    decreases |rest|
  {
    if rest == [] || |kept| + |rest| <= limit then kept + rest
    else if Ended(runs, rest[0]) then Pruned(kept, rest[1..], runs, limit)
    else Pruned(kept + [rest[0]], rest[1..], runs, limit)
  }

  function Gone(before: seq<RunId>, after: seq<RunId>): set<RunId> {
    set id | id in before && id !in after
  }

  /** Forget the pruned runs everywhere. */
  function Prune(t: Table, item: Item, limit: nat): Table {
    if item !in t.queues then t
    else
      var left := Pruned([], t.queues[item], t.runs, limit);
      Removed(t, item, left, Gone(t.queues[item], left))
  }

  function Removed(t: Table, item: Item, left: seq<RunId>, gone: set<RunId>): Table {
    t.(queues := t.queues[item := left], runs := t.runs - gone, popens := t.popens - gone, configs := t.configs - gone)
  }

  function FinalStatus(status: Status, exitCode: int): Status {
    if status != Running then status else if exitCode == 0 then Succeeded else Failed
  }

  predicate Enabled(t: Table, step: Step) {
    match step
    case Start(id, _) => id !in t.used
    case Finish(id, _) => id in t.waiting
    case Cancel(_) => true
  }

  function Next(t: Table, step: Step, limit: nat): Table
    requires Enabled(t, step)
  {
    match step
    case Start(id, item) =>
      Prune(t.(runs := t.runs[id := Run(item, Running, false)], popens := t.popens + {id}, configs := t.configs + {id},
               queues := t.queues[item := Queue(t.queues, item) + [id]],
               waiting := t.waiting + {id}, used := t.used + {id}), item, limit)
    case Finish(id, exitCode) =>
      if id !in t.runs then t.(waiting := t.waiting - {id})
      else
        var run := t.runs[id];
        Prune(t.(runs := t.runs[id := Run(run.item, FinalStatus(run.status, exitCode), true)],
                 waiting := t.waiting - {id}), run.item, limit)
    case Cancel(id) =>
      if id in t.runs && t.runs[id].status == Running && id in t.popens
      then t.(runs := t.runs[id := t.runs[id].(status := Cancelled)])
      else t
  }

  predicate Distinct(queue: seq<RunId>) {
    forall i, j :: 0 <= i < j < |queue| ==> queue[i] != queue[j]
  }

  function Without(queue: seq<RunId>, id: RunId): seq<RunId> {
    if queue == [] then []
    else if queue[0] == id then queue[1..]
    else [queue[0]] + Without(queue[1..], id)
  }

  lemma {:induction false} WithoutMiddle(kept: seq<RunId>, rest: seq<RunId>)
    requires rest != [] && rest[0] !in kept
    ensures Without(kept + rest, rest[0]) == kept + rest[1..]
  {
    var all := kept + rest;
    if kept == [] {
      assert all == rest;
    } else {
      WithoutMiddle(kept[1..], rest);
      assert all[0] == kept[0] && all[1..] == kept[1..] + rest;
      assert kept + rest[1..] == [kept[0]] + (kept[1..] + rest[1..]);
    }
  }

  lemma RemovedMore(t: Table, item: Item, queue: seq<RunId>, gone: set<RunId>, left: seq<RunId>, id: RunId)
    ensures Removed(Removed(t, item, queue, gone), item, left, {id}) == Removed(t, item, left, gone + {id})
    ensures id !in gone ==> (Ended(Removed(t, item, queue, gone).runs, id) <==> Ended(t.runs, id))
  {
  }

  /** The pruning loop over `queue`: `rest` is still to be looked at, what was looked at is
      either kept or gone. */
  ghost predicate Walk(queue: seq<RunId>, kept: seq<RunId>, rest: seq<RunId>, gone: set<RunId>,
                       runs: map<RunId, Run>, limit: nat)
  {
    && Parts(queue, kept, rest, gone)
    && Pruned(kept, rest, runs, limit) == Pruned([], queue, runs, limit)
  }

  ghost predicate Parts(queue: seq<RunId>, kept: seq<RunId>, rest: seq<RunId>, gone: set<RunId>) {
    && Distinct(rest)
    && (forall id :: id in queue <==> id in kept || id in gone || id in rest)
    && (forall id :: id in gone ==> id !in kept && id !in rest)
    && (forall id :: id in kept ==> id !in rest)
  }

  lemma PartsStep(queue: seq<RunId>, kept: seq<RunId>, rest: seq<RunId>, gone: set<RunId>)
    requires Parts(queue, kept, rest, gone) && rest != []
    ensures rest[0] !in gone && rest[0] !in kept
    ensures Parts(queue, kept, rest[1..], gone + {rest[0]})
    ensures Parts(queue, kept + [rest[0]], rest[1..], gone)
  {
    HeadAndTail(rest);
    hide Distinct;
    assert forall x :: x in kept + [rest[0]] <==> x in kept || x == rest[0];
  }

  lemma WalkStarts(queue: seq<RunId>, runs: map<RunId, Run>, limit: nat)
    requires Distinct(queue)
    ensures Walk(queue, [], queue, {}, runs, limit) && [] + queue == queue
  {
  }

  lemma WalkStep(queue: seq<RunId>, kept: seq<RunId>, rest: seq<RunId>, gone: set<RunId>,
                 runs: map<RunId, Run>, limit: nat)
    requires Walk(queue, kept, rest, gone, runs, limit) && rest != [] && |kept + rest| > limit
    ensures rest[0] !in gone && kept + rest == (kept + [rest[0]]) + rest[1..]
    ensures Without(kept + rest, rest[0]) == kept + rest[1..]
    ensures if Ended(runs, rest[0]) then Walk(queue, kept, rest[1..], gone + {rest[0]}, runs, limit)
            else Walk(queue, kept + [rest[0]], rest[1..], gone, runs, limit)
  {
    hide Parts, Pruned, Ended, Without;
    PartsStep(queue, kept, rest, gone);
    PrunedTurn(kept, rest, runs, limit);
    RemovesHead(kept, rest);
  }

  lemma RemovesHead(kept: seq<RunId>, rest: seq<RunId>)
    requires rest != [] && rest[0] !in kept
    ensures Without(kept + rest, rest[0]) == kept + rest[1..]
  {
    WithoutMiddle(kept, rest);
  }

  lemma PrunedTurn(kept: seq<RunId>, rest: seq<RunId>, runs: map<RunId, Run>, limit: nat)
    requires rest != [] && |kept| + |rest| > limit
    ensures Pruned(kept, rest, runs, limit) ==
      if Ended(runs, rest[0]) then Pruned(kept, rest[1..], runs, limit)
      else Pruned(kept + [rest[0]], rest[1..], runs, limit)
  {
  }

  lemma HeadAndTail(rest: seq<RunId>)
    requires rest != [] && Distinct(rest)
    ensures forall id :: id in rest <==> id == rest[0] || id in rest[1..]
    ensures rest[0] !in rest[1..] && Distinct(rest[1..])
  {
  }

  lemma WalkEnds(t: Table, item: Item, kept: seq<RunId>, rest: seq<RunId>, gone: set<RunId>, limit: nat)
    requires item in t.queues && Walk(t.queues[item], kept, rest, gone, t.runs, limit)
    requires rest == [] || |kept + rest| <= limit
    ensures Prune(t, item, limit) == Removed(t, item, kept + rest, gone)
  {
    assert gone == Gone(t.queues[item], kept + rest);
  }

  class ActionRunner {
    const limit: nat
    var runs: map<RunId, Run>
    var popens: set<RunId>
    var itemCache: set<RunId>
    var byItem: map<Item, seq<RunId>>
    ghost var waiting: set<RunId>
    ghost var used: set<RunId>

    ghost function Abstract(): Table
      reads this
    {
      Table(runs, popens, itemCache, byItem, waiting, used)
    }

    constructor (limit: nat)
      ensures this.limit == limit && Abstract() == EMPTY
    {
      this.limit := limit;
      runs, popens, itemCache, byItem, waiting, used := map[], {}, {}, map[], {}, {};
    }

    /** The removals of one pruned run. */
    method Drop(item: Item, left: seq<RunId>, id: RunId)
      modifies this`runs, this`popens, this`itemCache, this`byItem
      ensures Abstract() == Removed(old(Abstract()), item, left, {id})
    {
      byItem := byItem[item := left];
      runs, popens, itemCache := runs - {id}, popens - {id}, itemCache - {id};
    }

    /** `_prune_completed_locked`: a walk over a copy of the queue that removes from the
        queue itself. */
    method PruneCompleted(item: Item)
      requires Distinct(Queue(byItem, item))
      modifies this`runs, this`popens, this`itemCache, this`byItem
      ensures Abstract() == Prune(old(Abstract()), item, limit)
    {
      if item !in byItem {
        return;
      }
      ghost var before := Abstract();
      var queue := byItem[item];
      var rest := queue;
      ghost var kept: seq<RunId> := [];
      ghost var gone: set<RunId> := {};
      WalkStarts(queue, runs, limit);
      assert before == Removed(before, item, queue, gone);
      hide Walk, Removed, Without, Prune, Ended, Distinct;
      while rest != [] && |queue| > limit
        invariant queue == kept + rest
        invariant Walk(before.queues[item], kept, rest, gone, before.runs, limit)
        invariant Abstract() == Removed(before, item, queue, gone)
        decreases |rest|
      {
        var id := rest[0];
        WalkStep(before.queues[item], kept, rest, gone, before.runs, limit);
        RemovedMore(before, item, queue, gone, Without(queue, id), id);
        if Ended(runs, id) {
          queue := Without(queue, id);
          Drop(item, queue, id);
          gone := gone + {id};
        } else {
          kept := kept + [id];
        }
        rest := rest[1..];
      }
      WalkEnds(before, item, kept, rest, gone, limit);
    }

    /** The locked part of `start`. */
    method Register(id: RunId, item: Item)
      requires Enabled(Abstract(), Start(id, item))
      requires Distinct(Queue(byItem, item)) && id !in Queue(byItem, item)
      modifies this
      ensures Abstract() == Next(old(Abstract()), Start(id, item), limit)
    {
      runs := runs[id := Run(item, Running, false)];
      popens := popens + {id};
      itemCache := itemCache + {id};
      byItem := byItem[item := Queue(byItem, item) + [id]];
      waiting, used := waiting + {id}, used + {id};
      PruneCompleted(item);
    }

    /** The locked end of `_wait_loop`. */
    method FinishRun(id: RunId, exitCode: int)
      requires Enabled(Abstract(), Finish(id, exitCode))
      requires id in runs ==> Distinct(Queue(byItem, runs[id].item))
      modifies this
      ensures Abstract() == Next(old(Abstract()), Finish(id, exitCode), limit)
    {
      waiting := waiting - {id};
      if id !in runs {
        return;
      }
      var run := runs[id];
      var status := run.status;
      if status == Running {
        status := if exitCode == 0 then Succeeded else Failed;
      }
      runs := runs[id := Run(run.item, status, true)];
      PruneCompleted(run.item);
    }

    /** The locked beginning of `cancel`. */
    method CancelRun(id: RunId) returns (signalled: bool)
      modifies this`runs
      ensures Abstract() == Next(old(Abstract()), Cancel(id), limit)
      ensures signalled <==> id in old(runs) && old(runs)[id].status == Running && id in popens
    {
      signalled := id in runs && runs[id].status == Running && id in popens;
      if signalled {
        runs := runs[id := runs[id].(status := Cancelled)];
      }
    }
  }
}
