/** The PM2 adapter: the definitions PM2 keeps with its entries against the active ones. */
module Pm2Definitions {
  import opened Services

  /** PM2 keeps the runtime fields an entry was created from. */
  datatype Entry = Entry(runtime: nat, alive: bool)

  datatype State = State(entries: map<Id, Entry>, active: map<Id, Service>, retired: set<Id>)

  datatype Result = Done | Refused | Escaped

  /** One deletion of a stopped entry during a reload: it may raise the adapter's own error
      with or without effect, or another error of the file system that nobody catches. */
  datatype Deletion = Deleted | Raised(gone: bool) | FileError(gone: bool)

  /** How PM2 answers a start: whether it took the entry, whether that came online, and
      whether one of the state checks afterwards was answered. */
  datatype Launch = Launch(taken: bool, online: bool, confirmed: bool)

  predicate Alive(entries: map<Id, Entry>, id: Id) {
    id in entries && entries[id].alive
  }

  function Removed(s: State, incoming: map<Id, Service>): set<Id> {
    s.active.Keys - incoming.Keys
  }

  function RuntimeChanged(s: State, incoming: map<Id, Service>): set<Id> {
    set id | id in s.active && id in incoming && s.active[id].runtime != incoming[id].runtime
  }

  /** The definitions whose entries a reload has to delete. */
  function Doomed(s: State, incoming: map<Id, Service>): set<Id> {
    Removed(s, incoming) + RuntimeChanged(s, incoming)
  }

  /** `_assert_service_current`. */
  predicate Stale(s: State, service: Service) {
    service.id in s.retired || (service.id in s.active && s.active[service.id] != service)
  }

  // ------------------------------------------------------------------ the effect of each operation

  predicate SameDefinitions(s: State, u: State) {
    u.active == s.active && u.retired == s.retired
  }

  /** The same entries with the same definitions; which are alive may differ. */
  ghost predicate SameEntries(before: map<Id, Entry>, after: map<Id, Entry>) {
    after.Keys == before.Keys && forall id :: id in before ==> after[id].runtime == before[id].runtime
  }

  /** A start creates a missing entry from the given definition and revives a stopped one
      as PM2 still knows it. */
  ghost predicate StartEffect(s: State, u: State, service: Service, launch: Launch) {
    && SameDefinitions(s, u)
    && (Stale(s, service) || Alive(s.entries, service.id) || !launch.taken ==> u.entries == s.entries)
    && (!Stale(s, service) && !Alive(s.entries, service.id) && launch.taken ==>
          u.entries == s.entries[service.id := Entry(
            if service.id in s.entries then s.entries[service.id].runtime else service.runtime, launch.online)])
  }

  ghost predicate StopEffect(s: State, u: State) {
    SameDefinitions(s, u) && SameEntries(s.entries, u.entries)
  }

  ghost predicate DeleteEffect(s: State, u: State, id: Id) {
    SameDefinitions(s, u) && (u.entries == s.entries || u.entries == s.entries - {id})
  }

  ghost predicate ForgetEffect(s: State, u: State, id: Id, forgotten: bool) {
    && (u.entries == s.entries || u.entries == s.entries - {id})
    && (Alive(s.entries, id) ==> u == s && !forgotten)
    && (forgotten ==> id !in u.entries && u.active == s.active - {id} && u.retired == s.retired + {id})
    && (!forgotten ==> SameDefinitions(s, u))
  }

  /** A reload deletes stopped entries of removed or changed definitions only. Done: all of
      them are gone and the incoming definitions are the active ones. Otherwise the
      definitions are as before. */
  ghost predicate ReconcileEffect(s: State, u: State, incoming: map<Id, Service>, result: Result) {
    && u.entries.Keys <= s.entries.Keys
    && (forall id :: id in u.entries ==> u.entries[id] == s.entries[id])
    && (forall id :: id in s.entries && id !in u.entries ==> id in Doomed(s, incoming) && !s.entries[id].alive)
    && (result != Done ==> SameDefinitions(s, u))
    && (result == Done ==>
          && (forall id :: id in Doomed(s, incoming) ==> id !in u.entries)
          && u.active == incoming
          && u.retired == (s.retired + Removed(s, incoming)) - incoming.Keys)
  }

  /** Which reloads are accepted: no entry of a removed or changed definition is alive. */
  ghost predicate Acceptable(s: State, incoming: map<Id, Service>) {
    forall id :: id in Doomed(s, incoming) ==> !Alive(s.entries, id)
  }

  /** The reload keeps this service with the same runtime fields. */
  predicate Stays(active: map<Id, Service>, incoming: map<Id, Service>, id: Id) {
    id in active && id in incoming && incoming[id].runtime == active[id].runtime
  }

  /** Whatever runs under an active definition stays. */
  ghost predicate RunningStay(s: State, incoming: map<Id, Service>) {
    forall id :: id in s.active && id in s.entries && s.entries[id].alive ==> Stays(s.active, incoming, id)
  }

  /** The deletion of this id ends the cleanup: a foreign error always does, an error of PM2
      only if there is an entry to delete. */
  predicate Interrupts(entries: map<Id, Entry>, answers: Id -> Deletion, id: Id) {
    answers(id).FileError? || (answers(id).Raised? && id in entries)
  }

  /** The first id, in rising order, at which the cleanup of `ids` ends meets a foreign error. */
  ghost predicate ForeignFirst(entries: map<Id, Entry>, answers: Id -> Deletion, ids: set<Id>) {
    exists id :: id in ids && answers(id).FileError? &&
                 forall x :: x in ids && x < id ==> !Interrupts(entries, answers, x)
  }

  ghost predicate Clean(entries: map<Id, Entry>, answers: Id -> Deletion, ids: set<Id>) {
    forall id :: id in ids ==> !Interrupts(entries, answers, id)
  }

  /** A reload ends in a foreign error: among the removed ids, or among the changed ones once
      the removed ones are cleaned up. */
  ghost predicate Escapes(s: State, incoming: map<Id, Service>, answers: Id -> Deletion) {
    || ForeignFirst(s.entries, answers, Removed(s, incoming))
    || (Clean(s.entries, answers, Removed(s, incoming)) &&
        ForeignFirst(s.entries, answers, RuntimeChanged(s, incoming)))
  }

  class Pm2Manager {
    var entries: map<Id, Entry>
    var activeServices: map<Id, Service>
    var retiredServices: set<Id>

    ghost function Abstract(): State
      reads this
    {
      State(entries, activeServices, retiredServices)
    }

    /** PM2 outlives the supervisor, so it may hold entries already. */
    constructor (services: map<Id, Service>, entries: map<Id, Entry>)
      ensures Abstract() == State(entries, services, {})
    {
      this.entries, activeServices, retiredServices := entries, services, {};
    }

    method Start(service: Service, launch: Launch) returns (online: bool)
      modifies this`entries
      ensures StartEffect(old(Abstract()), Abstract(), service, launch)
      ensures online <==>
        && service.id !in retiredServices
        && (service.id in activeServices ==> activeServices[service.id] == service)
        && !(service.id in old(entries) && old(entries)[service.id].alive)
        && launch == Launch(true, true, true)
      ensures online ==> service.id in entries && entries[service.id].alive
    {
      if service.id in retiredServices {
        return false;
      }
      if service.id in activeServices && activeServices[service.id] != service {
        return false;
      }
      if Alive(entries, service.id) {
        return false;
      }
      if launch.taken {
        var runtime := if service.id in entries then entries[service.id].runtime else service.runtime;
        entries := entries[service.id := Entry(runtime, launch.online)];
      }
      online := Alive(entries, service.id) && launch.confirmed;
    }

    /** `confirmed` is whether the last state check is answered. */
    method Stop(id: Id, stopped: bool, confirmed: bool) returns (offline: bool)
      modifies this`entries
      ensures StopEffect(old(Abstract()), Abstract())
      ensures entries == if id in old(entries) && stopped
                         then old(entries)[id := Entry(old(entries)[id].runtime, false)] else old(entries)
      ensures offline <==> id !in entries || (!entries[id].alive && confirmed)
    {
      if id !in entries {
        return true;
      }
      if stopped {
        entries := entries[id := entries[id].(alive := false)];
      }
      offline := !Alive(entries, id) && confirmed;
    }

    method Delete(id: Id, answer: Deletion) returns (deleted: bool)
      modifies this`entries
      ensures DeleteEffect(old(Abstract()), Abstract(), id)
      ensures entries == if answer.Deleted? || answer.gone then old(entries) - {id} else old(entries)
      ensures deleted <==> answer.Deleted? || (answer.Raised? && id !in old(entries))
    {
      if id in entries {
        if answer.Deleted? || answer.gone {
          entries := entries - {id};
        }
        if answer.Raised? {
          return false;
        }
      }
      deleted := !answer.FileError?;
    }

    method ForgetService(id: Id, answer: Deletion) returns (forgotten: bool)
      modifies this
      ensures ForgetEffect(old(Abstract()), Abstract(), id, forgotten)
      ensures forgotten <==> !Alive(old(entries), id) &&
                             (answer.Deleted? || (answer.Raised? && id !in old(entries)))
    {
      if Alive(entries, id) {
        return false;
      }
      forgotten := Delete(id, answer);
      if forgotten {
        activeServices := activeServices - {id};
        retiredServices := retiredServices + {id};
      }
    }

    /** The loop that cleans the entries of `ids`; it stops at the first error. */
    method DeleteStopped(ids: seq<Id>, answers: Id -> Deletion) returns (result: Result)
      requires forall id :: id in ids ==> !Alive(entries, id)
      requires forall i, j :: 0 <= i < j < |ids| ==> ids[i] < ids[j]
      modifies this`entries
      ensures entries.Keys <= old(entries).Keys
      ensures forall id :: id in entries ==> entries[id] == old(entries)[id]
      ensures forall id :: id in old(entries) && id !in entries ==> id in ids
      ensures result == Done ==> forall id :: id in ids ==> id !in entries
      ensures result == Done <==> CleanList(old(entries), answers, ids)
      ensures result == Escaped <==> exists i :: 0 <= i < |ids| && ForeignAt(old(entries), answers, ids, i)
    {
      for i := 0 to |ids|
        invariant entries.Keys <= old(entries).Keys
        invariant forall id :: id in entries ==> entries[id] == old(entries)[id]
        invariant forall id :: id in old(entries) && id !in entries ==> id in ids[..i]
        invariant forall j :: 0 <= j < i ==> ids[j] !in entries
        invariant forall j :: 0 <= j < i ==> !Interrupts(old(entries), answers, ids[j])
      {
        var answer := answers(ids[i]);
        assert ids[i] in entries <==> ids[i] in old(entries);
        if ids[i] in entries {
          if answer.Deleted? || answer.gone {
            entries := entries - {ids[i]};
          }
          if answer.Raised? {
            FirstInterruption(old(entries), answers, ids, i);
            return Refused;
          }
        }
        if answer.FileError? {
          FirstInterruption(old(entries), answers, ids, i);
          return Escaped;
        }
      }
      NoInterruption(old(entries), answers, ids);
      return Done;
    }

    /** Cleans up a set of ids in rising order. */
    method CleanUpSet(ids: set<Id>, answers: Id -> Deletion) returns (result: Result)
      requires forall id :: id in ids ==> !Alive(entries, id)
      modifies this`entries
      ensures entries.Keys <= old(entries).Keys
      ensures forall id :: id in entries ==> entries[id] == old(entries)[id]
      ensures forall id :: id in old(entries) && id !in entries ==> id in ids
      ensures result == Done ==> forall id :: id in ids ==> id !in entries
      ensures result == Done <==> Clean(old(entries), answers, ids)
      ensures result == Escaped <==> ForeignFirst(old(entries), answers, ids)
    {
      var sorted := SortedIds(ids);
      assert SortedListOf(sorted, ids);
      hide Clean, ForeignFirst, CleanList, ForeignAt, Interrupts;
      result := DeleteStopped(sorted, answers);
      CleanAsList(old(entries), answers, ids, sorted);
      if result == Escaped {
        ghost var i :| 0 <= i < |sorted| && ForeignAt(old(entries), answers, sorted, i);
        ForeignFromList(old(entries), answers, ids, sorted, i);
      }
      if ForeignFirst(old(entries), answers, ids) {
        ForeignAsList(old(entries), answers, ids, sorted);
      }
    }

    /** Entries of both kinds of doomed definitions, removed ones first. */
    method CleanUp(removed: set<Id>, changed: set<Id>, answers: Id -> Deletion) returns (result: Result)
      requires forall id :: id in removed + changed ==> !Alive(entries, id)
      requires removed !! changed
      modifies this`entries
      ensures entries.Keys <= old(entries).Keys
      ensures forall id :: id in entries ==> entries[id] == old(entries)[id]
      ensures forall id :: id in old(entries) && id !in entries ==> id in removed + changed
      ensures result == Done ==> forall id :: id in removed + changed ==> id !in entries
      ensures result == Done <==> Clean(old(entries), answers, removed) && Clean(old(entries), answers, changed)
      ensures result == Escaped <==>
        ForeignFirst(old(entries), answers, removed) ||
        (Clean(old(entries), answers, removed) && ForeignFirst(old(entries), answers, changed))
    {
      hide Clean, ForeignFirst;
      result := CleanUpSet(removed, answers);
      if result == Done {
        CleanExcludesForeign(old(entries), answers, removed);
        SameAnswers(old(entries), entries, answers, changed);
        forall id | id in changed ensures !Alive(entries, id) {
          assert !Alive(old(entries), id);
        }
        result := CleanUpSet(changed, answers);
      }
    }

    /** `reconcile_service_definitions`; `readable` is whether the manifests can be built
        and PM2 answers the forced snapshot. */
    method Reconcile(incoming: map<Id, Service>, readable: bool, answers: Id -> Deletion) returns (result: Result)
      modifies this
      ensures ReconcileEffect(old(Abstract()), Abstract(), incoming, result)
      ensures result == Done ==> Acceptable(old(Abstract()), incoming)
      ensures !Acceptable(old(Abstract()), incoming) ==> result == Refused && Abstract() == old(Abstract())
      ensures result == Done <==> readable && Acceptable(old(Abstract()), incoming) &&
                                  Clean(old(entries), answers, Doomed(old(Abstract()), incoming))
      ensures result == Escaped <==> readable && Acceptable(old(Abstract()), incoming) &&
                                     Escapes(old(Abstract()), incoming, answers)
      ensures readable && (forall id :: answers(id).Deleted?) && RunningStay(old(Abstract()), incoming) ==> result == Done
      ensures !RunningStay(old(Abstract()), incoming) ==> result == Refused
      ensures forall id :: id in old(entries) && Stays(old(activeServices), incoming, id) ==>
                id in entries && entries[id] == old(entries)[id]
      ensures result == Done ==>
        && activeServices == incoming
        && retiredServices == (old(retiredServices) + (old(activeServices).Keys - incoming.Keys)) - incoming.Keys
        && forall id :: id in old(activeServices) && !Stays(old(activeServices), incoming, id) ==> id !in entries
      ensures result != Done ==> activeServices == old(activeServices) && retiredServices == old(retiredServices)
    {
      result := Decide(incoming, readable, answers);
      ghost var before := old(Abstract());
      hide *;
      ReconcileMeans(before, Abstract(), incoming, readable, answers, result);
    }

    /** The preflight, the cleanup and the new definitions. */
    method Decide(incoming: map<Id, Service>, readable: bool, answers: Id -> Deletion) returns (result: Result)
      modifies this
      ensures ReconcileEffect(old(Abstract()), Abstract(), incoming, result)
      ensures result == Done <==> readable && Acceptable(old(Abstract()), incoming) &&
                                  Clean(old(entries), answers, Doomed(old(Abstract()), incoming))
      ensures result == Escaped <==> readable && Acceptable(old(Abstract()), incoming) &&
                                     Escapes(old(Abstract()), incoming, answers)
      ensures !Acceptable(old(Abstract()), incoming) ==> result == Refused && Abstract() == old(Abstract())
    {
      hide *;
      if !readable {
        RefusalEffect(Abstract(), incoming);
        return Refused;
      }
      var removed, changed, running := Preflight(incoming);
      if running {
        RefusalEffect(Abstract(), incoming);
        return Refused;
      }
      result := TakeOver(incoming, removed, changed, answers);
    }

    /** The cleanup and, if it gets through, the new definitions. */
    method TakeOver(incoming: map<Id, Service>, removed: set<Id>, changed: set<Id>, answers: Id -> Deletion)
      returns (result: Result)
      requires removed == Removed(Abstract(), incoming) && changed == RuntimeChanged(Abstract(), incoming)
      requires removed == activeServices.Keys - incoming.Keys && Acceptable(Abstract(), incoming)
      modifies this
      ensures ReconcileEffect(old(Abstract()), Abstract(), incoming, result)
      ensures result == Done <==> Clean(old(entries), answers, Doomed(old(Abstract()), incoming))
      ensures result == Escaped <==> Escapes(old(Abstract()), incoming, answers)
    {
      ghost var before := Abstract();
      assert Escapes(before, incoming, answers) <==>
        ForeignFirst(before.entries, answers, removed) ||
        (Clean(before.entries, answers, removed) && ForeignFirst(before.entries, answers, changed));
      assert Doomed(before, incoming) == removed + changed;
      hide *;
      SplitDoomed(before, incoming, answers);
      result := CleanUp(removed, changed, answers);
      CleanupEffect(before, entries, incoming, result);
      if result == Done {
        Publish(incoming, removed);
      }
    }

    /** What a reload would delete, and whether any of it is running. */
    method Preflight(incoming: map<Id, Service>) returns (removed: set<Id>, changed: set<Id>, running: bool)
      ensures removed == Removed(Abstract(), incoming) && changed == RuntimeChanged(Abstract(), incoming)
      ensures removed == activeServices.Keys - incoming.Keys
      ensures running <==> !Acceptable(Abstract(), incoming)
    {
      removed := activeServices.Keys - incoming.Keys;
      changed := set id | id in activeServices && id in incoming && activeServices[id].runtime != incoming[id].runtime;
      assert removed == Removed(Abstract(), incoming) && changed == RuntimeChanged(Abstract(), incoming);
      hide Removed, RuntimeChanged;
      running := (exists id :: id in removed && Alive(entries, id)) || (exists id :: id in changed && Alive(entries, id));
    }

    /** The incoming definitions become the active ones. */
    method Publish(incoming: map<Id, Service>, removed: set<Id>)
      requires removed == activeServices.Keys - incoming.Keys
      modifies this`activeServices, this`retiredServices
      ensures Abstract() == Published(old(Abstract()), incoming)
    {
      OnlyIncoming(Abstract(), incoming);
      activeServices := (activeServices - removed) + incoming;
      retiredServices := (retiredServices + removed) - incoming.Keys;
    }
  }

  function Published(s: State, incoming: map<Id, Service>): State {
    State(s.entries, incoming, (s.retired + Removed(s, incoming)) - incoming.Keys)
  }

  lemma CleanupEffect(s: State, entries: map<Id, Entry>, incoming: map<Id, Service>, result: Result)
    requires entries.Keys <= s.entries.Keys
    requires forall id :: id in entries ==> entries[id] == s.entries[id]
    requires forall id :: id in s.entries && id !in entries ==> id in Doomed(s, incoming)
    requires forall id :: id in Doomed(s, incoming) ==> !Alive(s.entries, id)
    requires result == Done ==> forall id :: id in Doomed(s, incoming) ==> id !in entries
    ensures var u := s.(entries := entries);
      ReconcileEffect(s, if result == Done then Published(u, incoming) else u, incoming, result)
  {
    hide Doomed;
  }

  /** The doomed definitions are the removed and, apart from them, the changed ones. */
  lemma SplitDoomed(s: State, incoming: map<Id, Service>, answers: Id -> Deletion)
    ensures Removed(s, incoming) !! RuntimeChanged(s, incoming)
    ensures Acceptable(s, incoming) <==>
      (forall id :: id in Removed(s, incoming) ==> !Alive(s.entries, id)) &&
      (forall id :: id in RuntimeChanged(s, incoming) ==> !Alive(s.entries, id))
    ensures Clean(s.entries, answers, Doomed(s, incoming)) <==>
      Clean(s.entries, answers, Removed(s, incoming)) && Clean(s.entries, answers, RuntimeChanged(s, incoming))
  {
    hide Interrupts, Alive;
    assert forall id :: id in Doomed(s, incoming) <==> id in Removed(s, incoming) || id in RuntimeChanged(s, incoming);
  }

  /** The reload told by entries, active and incoming definitions alone: it is accepted if no
      entry of a service that goes or changes its runtime fields is alive and no deletion fails;
      it is refused if one is; every other entry stays as it is, under any result. */
  lemma ReconcileMeans(s: State, u: State, incoming: map<Id, Service>, readable: bool, answers: Id -> Deletion, result: Result)
    requires ReconcileEffect(s, u, incoming, result)
    requires result == Done <==> readable && Acceptable(s, incoming) && Clean(s.entries, answers, Doomed(s, incoming))
    requires !Acceptable(s, incoming) ==> result == Refused
    ensures readable && (forall id :: answers(id).Deleted?) && RunningStay(s, incoming) ==> result == Done
    ensures !RunningStay(s, incoming) ==> result == Refused
    ensures forall id :: id in s.entries && Stays(s.active, incoming, id) ==>
              id in u.entries && u.entries[id] == s.entries[id]
    ensures result == Done ==>
      && u.active == incoming && u.retired == (s.retired + (s.active.Keys - incoming.Keys)) - incoming.Keys
      && forall id :: id in s.active && !Stays(s.active, incoming, id) ==> id !in u.entries
    ensures result != Done ==> u.active == s.active && u.retired == s.retired
  {
    forall id ensures id in Doomed(s, incoming) <==> id in s.active && !Stays(s.active, incoming, id) {
    }
    assert forall id :: answers(id).Deleted? ==> !Interrupts(s.entries, answers, id);
    assert Removed(s, incoming) == s.active.Keys - incoming.Keys;
    hide Doomed, Removed, RuntimeChanged, Interrupts, Stays;
  }

  lemma RefusalEffect(s: State, incoming: map<Id, Service>)
    ensures ReconcileEffect(s, s, incoming, Refused)
  {
  }

  lemma OnlyIncoming(s: State, incoming: map<Id, Service>)
    ensures (s.active - Removed(s, incoming)) + incoming == incoming
  {
  }

  ghost predicate SortedListOf(sorted: seq<Id>, ids: set<Id>) {
    && (forall id :: id in sorted <==> id in ids)
    && (forall i, j :: 0 <= i < j < |sorted| ==> sorted[i] < sorted[j])
  }

  ghost predicate CleanList(entries: map<Id, Entry>, answers: Id -> Deletion, sorted: seq<Id>) {
    forall i :: 0 <= i < |sorted| ==> !Interrupts(entries, answers, sorted[i])
  }

  /** A foreign error at place `i` is the first interruption. */
  ghost predicate ForeignAt(entries: map<Id, Entry>, answers: Id -> Deletion, sorted: seq<Id>, i: nat)
    requires i < |sorted|
  {
    answers(sorted[i]).FileError? && forall j :: 0 <= j < i ==> !Interrupts(entries, answers, sorted[j])
  }

  lemma FirstInterruption(entries: map<Id, Entry>, answers: Id -> Deletion, sorted: seq<Id>, i: nat)
    requires i < |sorted| && Interrupts(entries, answers, sorted[i])
    requires forall j :: 0 <= j < i ==> !Interrupts(entries, answers, sorted[j])
    ensures !CleanList(entries, answers, sorted)
    ensures (exists k :: 0 <= k < |sorted| && ForeignAt(entries, answers, sorted, k)) <==> answers(sorted[i]).FileError?
  {
    if answers(sorted[i]).FileError? {
      assert ForeignAt(entries, answers, sorted, i);
    } else {
      forall k | 0 <= k < |sorted| ensures !ForeignAt(entries, answers, sorted, k) {
        assert k < i ==> !Interrupts(entries, answers, sorted[k]);
      }
    }
  }

  lemma NoInterruption(entries: map<Id, Entry>, answers: Id -> Deletion, sorted: seq<Id>)
    requires forall j :: 0 <= j < |sorted| ==> !Interrupts(entries, answers, sorted[j])
    ensures CleanList(entries, answers, sorted)
    ensures forall k :: 0 <= k < |sorted| ==> !ForeignAt(entries, answers, sorted, k)
  {
    forall k | 0 <= k < |sorted| ensures !ForeignAt(entries, answers, sorted, k) {
      assert !Interrupts(entries, answers, sorted[k]);
    }
  }

  /** Whether the cleanup of a set ends early can be read off its sorted list. */
  lemma CleanAsList(entries: map<Id, Entry>, answers: Id -> Deletion, ids: set<Id>, sorted: seq<Id>)
    requires SortedListOf(sorted, ids)
    ensures Clean(entries, answers, ids) <==> CleanList(entries, answers, sorted)
  {
    hide Interrupts;
    forall id | id in ids ensures exists i :: 0 <= i < |sorted| && sorted[i] == id {
      assert id in sorted;
    }
    forall i | 0 <= i < |sorted| ensures sorted[i] in ids {
      assert sorted[i] in sorted;
    }
  }

  lemma ForeignAsList(entries: map<Id, Entry>, answers: Id -> Deletion, ids: set<Id>, sorted: seq<Id>)
    requires SortedListOf(sorted, ids) && ForeignFirst(entries, answers, ids)
    ensures exists i :: 0 <= i < |sorted| && ForeignAt(entries, answers, sorted, i)
  {
    hide Interrupts;
    var id :| id in ids && answers(id).FileError? &&
              forall x :: x in ids && x < id ==> !Interrupts(entries, answers, x);
    var i :| 0 <= i < |sorted| && sorted[i] == id;
    assert forall j :: 0 <= j < i ==> sorted[j] in sorted;
    assert ForeignAt(entries, answers, sorted, i);
  }

  lemma ForeignFromList(entries: map<Id, Entry>, answers: Id -> Deletion, ids: set<Id>, sorted: seq<Id>, i: nat)
    requires SortedListOf(sorted, ids) && i < |sorted| && ForeignAt(entries, answers, sorted, i)
    ensures ForeignFirst(entries, answers, ids)
  {
    hide Interrupts;
    assert sorted[i] in sorted;
    forall x | x in ids && x < sorted[i] ensures !Interrupts(entries, answers, x) {
      var j :| 0 <= j < |sorted| && sorted[j] == x;
    }
  }

  lemma CleanExcludesForeign(entries: map<Id, Entry>, answers: Id -> Deletion, ids: set<Id>)
    requires Clean(entries, answers, ids)
    ensures !ForeignFirst(entries, answers, ids)
  {
    forall id | id in ids ensures !answers(id).FileError? {
      assert !Interrupts(entries, answers, id);
    }
  }

  lemma SameAnswers(before: map<Id, Entry>, after: map<Id, Entry>, answers: Id -> Deletion, ids: set<Id>)
    requires forall id :: id in ids ==> (id in before <==> id in after)
    ensures Clean(before, answers, ids) <==> Clean(after, answers, ids)
    ensures ForeignFirst(before, answers, ids) <==> ForeignFirst(after, answers, ids)
  {
    assert forall id :: id in ids ==> (Interrupts(before, answers, id) <==> Interrupts(after, answers, id));
  }

  /** `sorted(ids)`. */
  method SortedIds(ids: set<Id>) returns (sorted: seq<Id>)
    ensures forall id :: id in sorted <==> id in ids
    ensures forall i, j :: 0 <= i < j < |sorted| ==> sorted[i] < sorted[j]
  {
    sorted := [];
    var rest := ids;
    while rest != {}
      invariant forall id :: id in ids <==> id in sorted || id in rest
      invariant forall i, j :: 0 <= i < j < |sorted| ==> sorted[i] < sorted[j]
      invariant forall i, id :: 0 <= i < |sorted| && id in rest ==> sorted[i] < id
      decreases |rest|
    {
      ghost var least := Smallest(rest);
      var id :| id in rest && forall x :: x in rest ==> id <= x;
      sorted := sorted + [id];
      rest := rest - {id};
    }
  }

  lemma {:induction false} Smallest(ids: set<Id>) returns (least: Id)
    requires ids != {}
    ensures least in ids && forall x :: x in ids ==> least <= x
    decreases |ids|
  {
    least :| least in ids;
    var rest := ids - {least};
    assert ids == rest + {least};
    if rest != {} {
      var other := Smallest(rest);
      least := if least < other then least else other;
    }
  }

  // ------------------------------------------------------------------ what every operation keeps

  /** Every entry PM2 holds, online or stopped, was made from the active definition. */
  ghost predicate EntriesMatch(s: State) {
    forall id :: id in s.entries ==> id in s.active && s.entries[id].runtime == s.active[id].runtime
  }

  datatype Operation =
    | StartOp(service: Service, launch: Launch)
    | StopOp
    | DeleteOp(id: Id)
    | ForgetOp(id: Id, forgotten: bool)
    | ReconcileOp(incoming: map<Id, Service>, result: Result)

  /** Also the reason for a change PM2 makes on its own: it revives and buries processes. */
  ghost predicate Step(s: State, u: State, op: Operation) {
    match op
    case StartOp(service, launch) => StartEffect(s, u, service, launch)
    case StopOp => StopEffect(s, u)
    case DeleteOp(id) => DeleteEffect(s, u, id)
    case ForgetOp(id, forgotten) => ForgetEffect(s, u, id, forgotten)
    case ReconcileOp(incoming, result) => ReconcileEffect(s, u, incoming, result)
  }

  /** A definition handed to `start` came from the registry, so its id was active once: it
      still is, or it has been retired. */
  predicate Registered(s: State, op: Operation) {
    op.StartOp? ==> op.service.id in s.active || op.service.id in s.retired
  }

  lemma StepKeepsEntries(s: State, u: State, op: Operation)
    requires EntriesMatch(s) && Step(s, u, op) && Registered(s, op)
    ensures EntriesMatch(u)
  {
    match op {
      case ReconcileOp(incoming, result) =>
        forall id | id in u.entries
          ensures id in u.active && u.entries[id].runtime == u.active[id].runtime
        {
          assert id in s.entries;
          assert result == Done ==> id !in Removed(s, incoming) && id !in RuntimeChanged(s, incoming);
        }
      case _ =>
    }
  }

  /** A start breaks the agreement exactly when PM2 takes an entry for an id that is
      neither active nor retired. */
  lemma StartKeepsEntriesIff(s: State, u: State, service: Service, launch: Launch)
    requires EntriesMatch(s) && StartEffect(s, u, service, launch)
    ensures EntriesMatch(u) <==> service.id in s.active || service.id in s.retired || !launch.taken
  {
    if service.id !in s.active && service.id !in s.retired && launch.taken {
      assert service.id in u.entries;
    }
  }

  /** At the manager's own interface, a start of a definition it never saw leaves an entry
      without one. No route of the supervisor passes such a definition. */
  lemma UnknownStartBreaks(service: Service) returns (s: State, u: State, launch: Launch)
    ensures EntriesMatch(s) && StartEffect(s, u, service, launch) && !EntriesMatch(u)
  {
    s, launch := State(map[], map[], {}), Launch(true, true, true);
    u := s.(entries := map[service.id := Entry(service.runtime, true)]);
    assert s.entries[service.id := Entry(service.runtime, true)] == u.entries;
    assert service.id in u.entries;
  }

  /** Runs of operations, in any order and with any failures, from entries that match. */
  ghost predicate IsRun(states: seq<State>, ops: seq<Operation>) {
    && |states| == |ops| + 1
    && EntriesMatch(states[0])
    && (forall i :: 0 <= i < |ops| ==> Step(states[i], states[i + 1], ops[i]) && Registered(states[i], ops[i]))
  }

  lemma {:induction false} RunKeepsEntries(states: seq<State>, ops: seq<Operation>, k: nat)
    requires IsRun(states, ops) && k <= |ops|
    ensures EntriesMatch(states[k])
  {
    if k > 0 {
      RunKeepsEntries(states, ops, k - 1);
      StepKeepsEntries(states[k - 1], states[k], ops[k - 1]);
    }
  }

  /** No reload, accepted or not, touches an online entry, and an accepted one leaves its
      definition with the same runtime fields. */
  lemma OnlineServicesSurvive(s: State, u: State, incoming: map<Id, Service>, result: Result, id: Id)
    requires EntriesMatch(s) && ReconcileEffect(s, u, incoming, result) && Alive(s.entries, id)
    requires result == Done ==> Acceptable(s, incoming)
    ensures id in u.entries && u.entries[id] == s.entries[id]
    ensures result == Done ==> id in incoming && incoming[id].runtime == s.active[id].runtime
  {
    if result == Done {
      assert id !in Doomed(s, incoming);
    }
  }

  /** An id that was active stays known: it is active or retired after any operation. */
  lemma ActiveStaysRegistered(s: State, u: State, op: Operation, id: Id)
    requires Step(s, u, op) && (id in s.active || id in s.retired)
    ensures id in u.active || id in u.retired
  {
  }
}
