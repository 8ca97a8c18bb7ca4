/** The dependency check of the config loader and the group order of the operations
    layer. Both are depth-first walks that update `visiting` and `visited` in place. */
module DependencyGraph {
  import opened Services

  /** A walk along dependency edges that stays inside the indexed definitions. */
  ghost predicate IsWalk(index: map<Id, Service>, p: seq<Id>) {
    && (forall k :: 0 <= k < |p| ==> p[k] in index)
    && (forall i, j :: 0 <= i < j < |p| && j == i + 1 ==> p[j] in index[p[i]].dependsOn)
  }

  ghost predicate IsCycle(index: map<Id, Service>, p: seq<Id>) {
    IsWalk(index, p) && |p| >= 2 && p[0] == p[|p| - 1]
  }

  ghost predicate Cyclic(index: map<Id, Service>) {
    exists p :: IsCycle(index, p)
  }

  /** Each dependency that is itself in the list stands before its dependent. */
  ghost predicate DependenciesFirst(order: seq<Service>, index: map<Id, Service>) {
    forall k, d :: 0 <= k < |order| && d in order[k].dependsOn && d in index ==> Among(order, k, d)
  }

  /** `id` is one of the first `k` ids of the list. */
  ghost predicate Among(order: seq<Service>, k: nat, id: Id)
    requires k <= |order|
  {
    exists j :: 0 <= j < k && order[j].id == id
  }

  ghost predicate IsOrderOf(order: seq<Service>, index: map<Id, Service>) {
    && UniqueIds(order)
    && Ids(order) == index.Keys
    && (forall s :: s in order ==> s.id in index && index[s.id] == s)
    && DependenciesFirst(order, index)
  }

  predicate DependsOnOthers(s: Service, known: set<Id>) {
    forall d :: d in s.dependsOn ==> d in known && d != s.id
  }

  /** What the loader promises of the service list it accepts. */
  ghost predicate Accepts(services: seq<Service>) {
    && UniqueIds(services)
    && (forall s :: s in services ==> DependsOnOthers(s, Ids(services)))
    && !Cyclic(Index(services))
  }

  function Position(order: seq<Service>, id: Id): (k: nat)
    requires id in Ids(order)
    ensures k < |order| && order[k].id == id
  {
    if order[0].id == id then 0 else
      assert id in Ids(order[1..]) by {
        var s :| s in order && s.id == id;
        assert s in order[1..];
      }
      1 + Position(order[1..], id)
  }

  lemma {:induction false} WalkDescends(index: map<Id, Service>, order: seq<Service>, p: seq<Id>)
    requires IsOrderOf(order, index) && IsWalk(index, p) && |p| >= 2
    ensures Position(order, p[|p| - 1]) < Position(order, p[0])
  {
    var k := Position(order, p[0]);
    assert order[k] == index[p[0]];
    assert Among(order, k, p[1]);
    var j :| 0 <= j < k && order[j].id == p[1];
    assert Position(order, p[1]) == j;
    if |p| > 2 {
      WalkDescends(index, order, p[1..]);
    }
  }

  /** A list with dependencies first is a certificate that there is no cycle. */
  lemma OrderMeansAcyclic(index: map<Id, Service>, order: seq<Service>)
    requires IsOrderOf(order, index)
    ensures !Cyclic(index)
  {
    if p :| IsCycle(index, p) {
      WalkDescends(index, order, p);
    }
  }

  /** Selecting part of an acyclic list cannot create a cycle. */
  lemma SelectionAcyclic(all: seq<Service>, selected: seq<Service>)
    requires UniqueIds(all) && UniqueIds(selected)
    requires forall s :: s in selected ==> s in all
    requires !Cyclic(Index(all))
    ensures !Cyclic(Index(selected))
  {
    var big, small := Index(all), Index(selected);
    forall id | id in small ensures id in big && big[id] == small[id] {
      IndexOfMember(all, small[id]);
    }
    if p :| IsCycle(small, p) {
      assert IsCycle(big, p);
    }
  }

  datatype Verdict = Accepted | DuplicateId | SelfDependency | UnknownDependency | Cycle

  datatype OrderResult = Ordered(order: seq<Service>) | DependencyCycle

  /** `stack` is the chain of active `visit` calls, outermost first. */
  ghost predicate StackState(index: map<Id, Service>, visiting: set<Id>, stack: seq<Id>) {
    && visiting <= index.Keys
    && IsWalk(index, stack)
    && (forall id :: id in visiting <==> id in stack)
    && (forall i, j :: 0 <= i < j < |stack| ==> stack[i] != stack[j])
  }

  ghost predicate OrderState(index: map<Id, Service>, visited: set<Id>, ordered: seq<Service>) {
    && UniqueIds(ordered)
    && Ids(ordered) == visited
    && (forall s :: s in ordered ==> s.id in index && index[s.id] == s)
    && DependenciesFirst(ordered, index)
  }

  lemma Enter(index: map<Id, Service>, visiting: set<Id>, stack: seq<Id>, sid: Id)
    requires StackState(index, visiting, stack) && sid in index && sid !in visiting
    requires stack != [] ==> sid in index[stack[|stack| - 1]].dependsOn
    ensures StackState(index, visiting + {sid}, stack + [sid])
  {
    assert forall id :: id in stack + [sid] <==> id in stack || id == sid;
  }

  lemma EnterShrinks(index: map<Id, Service>, visiting: set<Id>, sid: Id)
    requires sid in index && sid !in visiting
    ensures |index.Keys - (visiting + {sid})| < |index.Keys - visiting|
  {
    assert index.Keys - visiting == (index.Keys - (visiting + {sid})) + {sid};
  }

  lemma Leave(index: map<Id, Service>, visiting: set<Id>, stack: seq<Id>, sid: Id)
    requires StackState(index, visiting, stack + [sid])
    ensures StackState(index, visiting - {sid}, stack)
  {
    var chain := stack + [sid];
    assert chain[|stack|] == sid && chain[..|stack|] == stack;
    assert forall k :: 0 <= k < |stack| ==> chain[k] == stack[k];
    assert forall id :: id in chain <==> id in stack || id == sid;
  }

  ghost predicate WellIndexed(index: map<Id, Service>) {
    forall id :: id in index ==> index[id].id == id
  }

  lemma Append(index: map<Id, Service>, visited: set<Id>, ordered: seq<Service>, sid: Id)
    requires WellIndexed(index) && OrderState(index, visited, ordered) && sid in index && sid !in visited
    requires forall d :: d in index[sid].dependsOn && d in index ==> d in visited
    ensures OrderState(index, visited + {sid}, ordered + [index[sid]])
  {
    var s := index[sid];
    var after := ordered + [s];
    var n := |ordered|;
    forall k | 0 <= k < n ensures ordered[k].id in Ids(ordered) { assert ordered[k] in ordered; }
    forall k, d | 0 <= k < |after| && d in after[k].dependsOn && d in index ensures Among(after, k, d) {
      if k < n {
        assert Among(ordered, k, d);
        var j :| 0 <= j < k && ordered[j].id == d;
        assert after[j].id == d;
      } else {
        var x :| x in ordered && x.id == d;
        var j :| 0 <= j < n && ordered[j] == x;
        assert after[j].id == d;
      }
    }
  }

  lemma RevisitClosesCycle(index: map<Id, Service>, visiting: set<Id>, stack: seq<Id>, sid: Id)
    requires StackState(index, visiting, stack) && sid in visiting
    requires stack != [] ==> sid in index[stack[|stack| - 1]].dependsOn
    ensures Cyclic(index)
  {
    var k :| 0 <= k < |stack| && stack[k] == sid;
    var p := stack[k..] + [sid];
    assert forall i :: 0 <= i < |stack| - k ==> p[i] == stack[k + i];
    assert IsCycle(index, p);
  }

  /** The state the nested `visit` functions share, in the loader's check and in
      `dependency_order`. */
  class DependencyWalk {
    const index: map<Id, Service>
    var visiting: set<Id>
    var visited: set<Id>
    var ordered: seq<Service>
    ghost var stack: seq<Id>

    ghost predicate Valid()
      reads this
    {
      && WellIndexed(index)
      && StackState(index, visiting, stack)
      && OrderState(index, visited, ordered)
    }

    constructor (index: map<Id, Service>)
      requires WellIndexed(index)
      ensures Valid() && this.index == index && stack == [] && ordered == []
    {
      this.index := index;
      visiting, visited, ordered, stack := {}, {}, [], [];
    }

    /** One `visit(sid)` of either walk; `ok` is false where the loader raises its config error
        and `dependency_order` raises `dependency_cycle`. */
    method Visit(sid: Id) returns (ok: bool)
      requires Valid() && sid in index
      requires stack != [] ==> sid in index[stack[|stack| - 1]].dependsOn
      modifies this
      ensures !ok ==> Cyclic(index)
      ensures ok ==> Valid() && stack == old(stack) && visiting == old(visiting)
      ensures ok ==> sid in visited && old(visited) <= visited
      ensures ok ==> forall id :: id in old(visiting) && id !in old(visited) ==> id !in visited
      decreases |index.Keys - visiting|
    {
      hide StackState, OrderState, Cyclic, WellIndexed;
      if sid in visiting {
        RevisitClosesCycle(index, visiting, stack, sid);
        return false;
      }
      if sid in visited {
        return true;
      }
      Enter(index, visiting, stack, sid);
      EnterShrinks(index, visiting, sid);
      visiting, stack := visiting + {sid}, stack + [sid];
      ghost var inside := visiting;
      var deps := index[sid].dependsOn;
      var i := 0;
      while i < |deps|
        invariant 0 <= i <= |deps|
        invariant Valid() && stack == old(stack) + [sid] && visiting == inside
        invariant old(visited) <= visited
        invariant forall id :: id in inside && id !in old(visited) ==> id !in visited
        invariant forall j :: 0 <= j < i && deps[j] in index ==> deps[j] in visited
      {
        if deps[i] in index {
          ok := Visit(deps[i]);
          if !ok {
            return;
          }
        }
        i := i + 1;
      }
      Append(index, visited, ordered, sid);
      ordered, visited := ordered + [index[sid]], visited + {sid};
      Leave(index, visiting, old(stack), sid);
      stack, visiting := old(stack), visiting - {sid};
      ok := true;
    }
  }

  /** `_parse_services`: ids are unique, then every dependency is another listed
      service, then the walk finds no cycle. */
  method Validate(services: seq<Service>) returns (verdict: Verdict)
    ensures verdict == Accepted <==> Accepts(services)
    ensures verdict == DuplicateId <==> !UniqueIds(services)
    ensures verdict == SelfDependency ==> exists s :: s in services && s.id in s.dependsOn
    ensures verdict == UnknownDependency ==>
      exists s, d :: s in services && d in s.dependsOn && d !in Ids(services)
    ensures verdict == Cycle ==> Cyclic(Index(services))
  {
    var seen := {};
    for i := 0 to |services|
      invariant seen == Ids(services[..i])
      invariant UniqueIds(services[..i])
    {
      assert services[..i + 1] == services[..i] + [services[i]];
      if services[i].id in seen {
        return DuplicateId;
      }
      seen := seen + {services[i].id};
    }
    assert services[..|services|] == services;
    for i := 0 to |services|
      invariant forall j :: 0 <= j < i ==> DependsOnOthers(services[j], seen)
    {
      var deps := services[i].dependsOn;
      for k := 0 to |deps|
        invariant forall j :: 0 <= j < k ==> deps[j] in seen && deps[j] != services[i].id
      {
        if deps[k] == services[i].id {
          ghost var s := services[i];
          assert deps[k] in deps;
          assert s in services && !DependsOnOthers(s, seen);
          return SelfDependency;
        }
        if deps[k] !in seen {
          ghost var s := services[i];
          assert s in services && !DependsOnOthers(s, seen);
          return UnknownDependency;
        }
      }
    }
    var order := DependencyOrder(services);
    return if order.DependencyCycle? then Cycle else Accepted;
  }

  /** `dependency_order`: only the selected definitions are ordered; dependencies
      outside the selection are neither added nor a reason to fail. */
  method DependencyOrder(selected: seq<Service>) returns (r: OrderResult)
    requires UniqueIds(selected)
    ensures r.DependencyCycle? <==> Cyclic(Index(selected))
    ensures r.Ordered? ==> IsOrderOf(r.order, Index(selected)) && |r.order| == |selected|
    ensures r.Ordered? ==> multiset(r.order) == multiset(selected)
  {
    hide StackState, DependenciesFirst, IsCycle, UniqueIds;
    var index := Index(selected);
    var walk := new DependencyWalk(index);
    for i := 0 to |selected|
      invariant walk.Valid() && walk.index == index && walk.stack == [] && fresh(walk)
      invariant forall j :: 0 <= j < i ==> selected[j].id in walk.visited
    {
      var ok := walk.Visit(selected[i].id);
      if !ok {
        return DependencyCycle;
      }
    }
    assert walk.visited == index.Keys;
    OrderMeansAcyclic(index, walk.ordered);
    OrderIsPermutation(selected, walk.ordered);
    r := Ordered(walk.ordered);
  }

  lemma OrderIsPermutation(selected: seq<Service>, order: seq<Service>)
    requires UniqueIds(selected) && IsOrderOf(order, Index(selected))
    ensures multiset(order) == multiset(selected) && |order| == |selected|
  {
    assert UniqueIds(order);
    hide *;
    forall s ensures multiset(selected)[s] == multiset(order)[s] {
      InOrder(selected, order, s);
      Once(selected, s);
      Once(order, s);
    }
    SameCounts(selected, order);
  }

  lemma Once(services: seq<Service>, s: Service)
    requires UniqueIds(services)
    ensures multiset(services)[s] == if s in services then 1 else 0
  {
    UniqueMeansOnce(services);
  }

  lemma SameCounts(a: seq<Service>, b: seq<Service>)
    requires forall s :: multiset(a)[s] == multiset(b)[s]
    ensures multiset(b) == multiset(a) && |b| == |a|
  {
    assert multiset(a) == multiset(b);
    assert |multiset(a)| == |a| && |multiset(b)| == |b|;
  }

  lemma InOrder(selected: seq<Service>, order: seq<Service>, s: Service)
    requires UniqueIds(selected) && IsOrderOf(order, Index(selected))
    ensures s in selected <==> s in order
  {
    hide DependenciesFirst, UniqueIds;
    if s in selected {
      IndexOfMember(selected, s);
    }
  }

  lemma {:induction false} UniqueMeansOnce(services: seq<Service>)
    requires UniqueIds(services)
    ensures forall s :: multiset(services)[s] == if s in services then 1 else 0
  {
    if services != [] {
      var n := |services| - 1;
      assert services == services[..n] + [services[n]];
      UniqueMeansOnce(services[..n]);
    }
  }

  /** A group of an accepted registry always has an order: a submitted group job never
      ends in `dependency_cycle`. */
  method OrderGroup(registry: seq<Service>, group: nat) returns (order: seq<Service>)
    requires Accepts(registry)
    ensures multiset(order) == multiset(InGroup(registry, group))
    ensures IsOrderOf(order, Index(InGroup(registry, group)))
  {
    var selected := InGroup(registry, group);
    SelectionAcyclic(registry, selected);
    var r := DependencyOrder(selected);
    order := r.order;
  }

  function InGroup(registry: seq<Service>, group: nat): (selected: seq<Service>)
    ensures forall s :: s in selected <==> s in registry && s.group == group
    ensures UniqueIds(registry) ==> UniqueIds(selected)
  {
    if registry == [] then []
    else
      var n := |registry| - 1;
      assert registry == registry[..n] + [registry[n]];
      InGroup(registry[..n], group) + if registry[n].group == group then [registry[n]] else []
  }
}
