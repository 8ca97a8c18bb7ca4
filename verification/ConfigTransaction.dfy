/** Config edits under the reconcile lock: the file on disk, the last-good checkpoint, the
    registry and the active definitions of the process manager. */
module ConfigTransaction {
  import opened Wrappers
  import opened Services
  import opened DependencyGraph
  import opened Pm2Definitions

  /** A config file: its service list and whether all its other fields are valid. */
  datatype Config = Config(services: seq<Service>, wellFormed: bool)

  /** `load_config` accepts it. */
  ghost predicate Loads(c: Config) {
    c.wellFormed && Accepts(c.services)
  }

  datatype Edit =
    | Upsert(service: Service, createIfMissing: bool)
    | DeleteService(id: Id)
    | Reorder(order: seq<Id>)

  datatype Answer = Committed | Invalid | NotApplicable | Blocked | CheckpointFailed | Crashed

  /** How the disk and the process manager behave during one transaction. `wellFormed` is
      the verdict on the other fields of the edited config. */
  datatype Weather = Weather(wellFormed: bool, readable: bool, answers: Id -> Deletion, restores: bool, saves: bool)

  /** Checkpoint reads and writes succeed and the cleanup raises no foreign error; PM2 may
      still refuse or fail anything. */
  ghost predicate Fair(w: Weather) {
    w.restores && w.saves && forall id :: !w.answers(id).FileError?
  }

  // ------------------------------------------------------------------ edits of the raw list

  /** The first entry with this id is replaced, otherwise the service is appended. */
  function Upserted(services: seq<Service>, s: Service, create: bool): Option<seq<Service>> {
    if services == [] then if create then Some([s]) else None
    else if services[0].id == s.id then Some([s] + services[1..])
    else
      match Upserted(services[1..], s, create)
      case None => None
      case Some(rest) => Some([services[0]] + rest)
  }

  function Without(services: seq<Service>, id: Id): seq<Service> {
    if services == [] then []
    else if services[0].id == id then Without(services[1..], id)
    else [services[0]] + Without(services[1..], id)
  }

  /** `_reorder_list`: the order must name every id exactly once. */
  function Reordered(services: seq<Service>, order: seq<Id>): Option<seq<Service>> {
    if (exists i, j :: 0 <= i < j < |order| && order[i] == order[j]) ||
       (set id | id in order) != Ids(services)
    then None
    else Some(Pick(Index(services), order))
  }

  function Pick(index: map<Id, Service>, order: seq<Id>): (r: seq<Service>)
    requires forall id :: id in order ==> id in index
    ensures |r| == |order|
    ensures forall i :: 0 <= i < |order| ==> r[i] == index[order[i]]
  {
    if order == [] then [] else [index[order[0]]] + Pick(index, order[1..])
  }

  function Edited(services: seq<Service>, edit: Edit): Option<seq<Service>> {
    match edit
    case Upsert(s, create) => Upserted(services, s, create)
    case DeleteService(id) =>
      if |Without(services, id)| == |services| then None else Some(Without(services, id))
    case Reorder(order) => Reordered(services, order)
  }

  // ------------------------------------------------------------------ how a transaction ends

  /** The process manager takes over the incoming definitions. */
  ghost predicate Completes(s: State, incoming: map<Id, Service>, w: Weather) {
    w.readable && Acceptable(s, incoming) && Clean(s.entries, w.answers, Doomed(s, incoming))
  }

  /** Its cleanup ends in an error that the transaction does not catch. */
  ghost predicate Crashes(s: State, incoming: map<Id, Service>, w: Weather) {
    w.readable && Acceptable(s, incoming) && Escapes(s, incoming, w.answers)
  }

  /** The edits after which the four stores agree, by what holds before the edit. One that
      does not apply or is invalid leaves everything as it is; the file may hold a manual or
      stranded edit already. */
  ghost predicate Settles(disk: Config, registry: Config, s: State, edit: Edit, w: Weather) {
    match Edited(disk.services, edit)
    case None => disk == registry && s.active == Index(registry.services)
    case Some(services) =>
      var next := Config(services, w.wellFormed);
      if Loads(next) then SettlesOn(next, registry, s, w)
      else disk == registry && s.active == Index(registry.services)
  }

  /** A valid edit settles if it is taken over and checkpointed, or refused and rolled back, or
      leads back to what the registry holds. */
  ghost predicate SettlesOn(next: Config, registry: Config, s: State, w: Weather) {
    if Completes(s, Index(next.services), w) then w.saves || next == registry
    else
      && s.active == Index(registry.services)
      && (next == registry || (!Crashes(s, Index(next.services), w) && w.restores))
  }

  /** With checkpoint I/O working and no foreign error, the next valid edit also brings a file
      that was edited by hand, or left behind by a crash, back into step. */
  lemma NextEditRepairs(disk: Config, registry: Config, s: State, edit: Edit, w: Weather, services: seq<Service>)
    requires Fair(w) && s.active == Index(registry.services)
    requires Edited(disk.services, edit) == Some(services) && Loads(Config(services, w.wellFormed))
    ensures Settles(disk, registry, s, edit, w)
  {
    hide Accepts, Edited;
  }

  /** One request to the supervisor, or a change of the file by hand. */
  datatype Request =
    | FileEdit(disk: Config)
    | EditRequest(edit: Edit, w: Weather)
    | RemoveRequest(id: Id, w: Weather, forget: Deletion)
    | ReloadRequest(w: Weather)
    | StartRequest(id: Id, launch: Launch)
    | StopRequest(id: Id, stopped: bool, confirmed: bool)

  ghost predicate FairRequest(request: Request) {
    request.EditRequest? || request.RemoveRequest? || request.ReloadRequest? ==> Fair(request.w)
  }

  // ------------------------------------------------------------------ the transaction

  class ConfigApi {
    const pm: Pm2Manager
    var disk: Config
    var checkpoint: Config
    var registry: Config

    /** All four stores hold the same config. */
    ghost predicate Agree()
      reads this, pm
    {
      disk == checkpoint == registry && pm.activeServices == Index(registry.services)
    }

    /** The manager's active definitions are those of the registry. */
    ghost predicate InStep()
      reads this, pm
    {
      pm.activeServices == Index(registry.services)
    }

    /** What no transaction can break: the checkpoint loads and is what the registry holds, and
        the manager knows every registered id. The file may hold anything. */
    ghost predicate Valid()
      reads this, pm
    {
      && Loads(checkpoint) && checkpoint == registry
      && forall id :: id in Index(registry.services) ==> id in pm.activeServices || id in pm.retiredServices
    }

    /** The config was loaded, checkpointed, registered and activated. */
    constructor (config: Config, entries: map<Id, Entry>)
      requires Loads(config)
      ensures Valid() && Agree() && registry == config && fresh(pm)
      ensures pm.entries == entries
    {
      pm := new Pm2Manager(Index(config.services), entries);
      disk, checkpoint, registry := config, config, config;
    }

    /** `create_app`: an earlier checkpoint wins over the file, invalid or not; null stands
        for a startup that raises. */
    static method Startup(disk: Config, saved: Option<Config>, entries: map<Id, Entry>, w: Weather)
      returns (api: ConfigApi?)
      ensures api != null <==>
        w.saves && match saved
                   case None => Loads(disk)
                   case Some(config) => Loads(config) && (w.restores || disk == config)
      ensures api != null ==>
        && fresh(api) && fresh(api.pm) && api.Valid() && api.Agree() && api.pm.entries == entries
        && api.registry == if saved.Some? then saved.value else disk
    {
      hide Accepts;
      var config := disk;
      var verdict := Validate(config.services);
      if !config.wellFormed || verdict != Verdict.Accepted {
        if saved.None? || !w.restores {
          return null;
        }
        config := saved.value;
      }
      if saved.Some? {
        if config != saved.value && !w.restores {
          return null;
        }
        config := saved.value;
        verdict := Validate(config.services);
        if !config.wellFormed || verdict != Verdict.Accepted {
          return null;
        }
      }
      if !w.saves {
        return null;
      }
      api := new ConfigApi(config, entries);
    }

    method LoadDisk() returns (ok: bool)
      ensures ok <==> Loads(disk)
    {
      var verdict := Validate(disk.services);
      ok := disk.wellFormed && verdict == Verdict.Accepted;
    }

    /** `_reload_registry`. The disk may hold anything, for a manual edit is possible at any
        time. Only a config error or an error of the process manager restores the disk. */
    method ReloadRegistry(w: Weather) returns (answer: Answer)
      requires Valid()
      modifies this, pm
      ensures Valid()
      ensures answer == Committed ==> Agree() && registry == old(disk)
      ensures answer == CheckpointFailed ==> disk == old(disk) && pm.activeServices == Index(disk.services)
      ensures answer != Committed ==> registry == old(registry) && checkpoint == old(checkpoint)
      ensures answer !in {Committed, CheckpointFailed} ==> pm.activeServices == old(pm.activeServices)
      ensures answer in {Invalid, Blocked} ==> disk == if w.restores then registry else old(disk)
      ensures answer == Crashed ==> disk == old(disk)
      ensures answer in {Committed, Invalid, Blocked, CheckpointFailed, Crashed}
      ensures answer == Invalid <==> !Loads(old(disk))
      ensures answer in {Committed, CheckpointFailed} <==>
        Loads(old(disk)) && Completes(old(pm.Abstract()), Index(old(disk).services), w)
      ensures answer == CheckpointFailed ==> !w.saves
      ensures answer == Committed ==> w.saves
      ensures answer == Crashed <==> Loads(old(disk)) && Crashes(old(pm.Abstract()), Index(old(disk).services), w)
      ensures Fair(w) ==> answer !in {CheckpointFailed, Crashed}
      ensures Loads(old(disk)) && !RunningStay(old(pm.Abstract()), Index(old(disk).services)) ==> answer == Blocked
      ensures Loads(old(disk)) && w.readable && w.saves ==>
        RunningStay(old(pm.Abstract()), Index(old(disk).services)) && (forall id :: w.answers(id).Deleted?) ==>
        answer == Committed
      ensures EntriesMatch(old(pm.Abstract())) ==> EntriesMatch(pm.Abstract())
    {
      hide Accepts, EntriesMatch, Clean, Acceptable, Doomed, Index, Interrupts;
      var loaded := LoadDisk();
      if !loaded {
        if w.restores {
          disk := checkpoint;
        }
        return Invalid;
      }
      ghost var before := pm.Abstract();
      var result := pm.Reconcile(Index(disk.services), w.readable, w.answers);
      if EntriesMatch(before) {
        StepKeepsEntries(before, pm.Abstract(), ReconcileOp(Index(disk.services), result));
      }
      forall id | id in before.active || id in before.retired
        ensures id in pm.activeServices || id in pm.retiredServices
      {
        ActiveStaysRegistered(before, pm.Abstract(), ReconcileOp(Index(disk.services), result), id);
      }
      if result == Refused {
        if w.restores {
          disk := checkpoint;
        }
        return Blocked;
      }
      if result == Escaped {
        return Crashed;
      }
      if !w.saves {
        return CheckpointFailed;
      }
      checkpoint := disk;
      registry := disk;
      return Committed;
    }

    /** `_mutate_config`: the edited list is validated before the file is replaced. */
    method WriteEdit(edit: Edit, wellFormed: bool) returns (answer: Answer)
      requires Valid()
      modifies this`disk
      ensures Valid() && answer in {Committed, Invalid, NotApplicable}
      ensures answer == Committed ==>
        Edited(old(disk).services, edit) == Some(disk.services) && disk.wellFormed == wellFormed && Loads(disk)
      ensures answer == Invalid ==>
        Edited(old(disk).services, edit).Some? && !Loads(Config(Edited(old(disk).services, edit).value, wellFormed))
      ensures answer == NotApplicable <==> Edited(old(disk).services, edit) == None
      ensures answer != Committed ==> disk == old(disk)
    {
      var edited := Edited(disk.services, edit);
      if edited.None? {
        return NotApplicable;
      }
      var verdict := Validate(edited.value);
      if !wellFormed || verdict != Verdict.Accepted {
        return Invalid;
      }
      disk := Config(edited.value, wellFormed);
      return Committed;
    }

    /** One create, update, delete or reorder request: write, then reload. Whatever the file
        held before, when the lock is released the four stores agree exactly if the edit
        settles. After a crash or a failed checkpoint the file holds the edit and the registry
        does not. */
    method Transact(edit: Edit, w: Weather) returns (answer: Answer)
      requires Valid()
      modifies this, pm
      ensures Valid()
      ensures Agree() <==> Settles(old(disk), old(registry), old(pm.Abstract()), edit, w)
      ensures answer == Committed ==> Agree() && Edited(old(disk).services, edit) == Some(registry.services)
      ensures answer != Committed ==> registry == old(registry) && checkpoint == old(checkpoint)
      ensures answer in {Invalid, NotApplicable} ==> pm.activeServices == old(pm.activeServices)
      ensures answer == NotApplicable ==> disk == old(disk)
      ensures answer in {CheckpointFailed, Crashed} ==>
        Edited(old(disk).services, edit) == Some(disk.services) && disk.wellFormed == w.wellFormed
      ensures answer == Crashed <==>
        Edited(old(disk).services, edit).Some? &&
        var next := Config(Edited(old(disk).services, edit).value, w.wellFormed);
        Loads(next) && Crashes(old(pm.Abstract()), Index(next.services), w)
      ensures answer == NotApplicable <==> Edited(old(disk).services, edit) == None
      ensures Fair(w) && old(InStep()) ==> InStep() && (disk == registry || disk == old(disk))
      ensures EntriesMatch(old(pm.Abstract())) ==> EntriesMatch(pm.Abstract())
    {
      hide Accepts, Edited, Completes, Crashes, EntriesMatch;
      answer := WriteEdit(edit, w.wellFormed);
      if answer == Committed {
        answer := ReloadRegistry(w);
      }
    }

    /** Serves one request of any kind. */
    method Serve(request: Request)
      requires Valid() && InStep() && FairRequest(request)
      modifies this, pm
      ensures Valid() && InStep()
      ensures disk == registry ||
        (registry == old(registry) && disk == if request.FileEdit? then request.disk else old(disk))
      ensures request.ReloadRequest? ==> disk == registry
      ensures EntriesMatch(old(pm.Abstract())) ==> EntriesMatch(pm.Abstract())
    {
      hide Accepts, EntriesMatch, Edited, Completes, Crashes, Settles;
      match request {
        case FileEdit(edited) =>
          disk := edited;
        case EditRequest(edit, w) =>
          var answer := Transact(edit, w);
        case RemoveRequest(id, w, forget) =>
          var answer := RemoveService(id, w, forget);
        case ReloadRequest(w) =>
          var answer := ReloadRegistry(w);
        case StartRequest(id, launch) =>
          StartKnown(id, launch);
        case StopRequest(id, stopped, confirmed) =>
          StopKnown(id, stopped, confirmed);
      }
    }

    /** A start takes the definition from the registry. */
    method StartKnown(id: Id, launch: Launch)
      requires Valid()
      modifies pm
      ensures pm.activeServices == old(pm.activeServices) && pm.retiredServices == old(pm.retiredServices)
      ensures EntriesMatch(old(pm.Abstract())) ==> EntriesMatch(pm.Abstract())
    {
      var index := Index(registry.services);
      if id in index {
        ghost var before := pm.Abstract();
        var online := pm.Start(index[id], launch);
        if EntriesMatch(before) {
          StepKeepsEntries(before, pm.Abstract(), StartOp(index[id], launch));
        }
      }
    }

    method StopKnown(id: Id, stopped: bool, confirmed: bool)
      modifies pm
      ensures pm.activeServices == old(pm.activeServices) && pm.retiredServices == old(pm.retiredServices)
      ensures EntriesMatch(old(pm.Abstract())) ==> EntriesMatch(pm.Abstract())
    {
      ghost var before := pm.Abstract();
      var offline := pm.Stop(id, stopped, confirmed);
      if EntriesMatch(before) {
        StepKeepsEntries(before, pm.Abstract(), StopOp);
      }
    }

    /** Any sequence of edits, deletions, manual edits, reloads, starts and stops, accepted,
        invalid or refused in any mix, with checkpoint I/O working and no foreign error: at
        every release of the lock the checkpoint, the registry and the manager agree on a
        config that loads, PM2's entries match it, and the file agrees too unless it holds a
        manual edit that no request has taken up. */
    method Session(requests: seq<Request>)
      requires Valid() && InStep()
      requires forall r :: r in requests ==> FairRequest(r)
      modifies this, pm
      ensures Valid() && InStep() && Loads(registry)
      ensures Agree() || disk == old(disk) || exists r :: r in requests && r.FileEdit? && disk == r.disk
      ensures old(Agree()) && (forall r :: r in requests ==> !r.FileEdit?) ==> Agree()
      ensures requests != [] && requests[|requests| - 1].ReloadRequest? ==> Agree()
      ensures EntriesMatch(old(pm.Abstract())) ==> EntriesMatch(pm.Abstract())
    {
      hide EntriesMatch, FairRequest, Accepts;
      for i := 0 to |requests|
        invariant Valid() && InStep()
        invariant disk == registry || disk == old(disk) || exists r :: r in requests && r.FileEdit? && disk == r.disk
        invariant old(Agree()) && (forall r :: r in requests ==> !r.FileEdit?) ==> disk == registry
        invariant i > 0 && requests[i - 1].ReloadRequest? ==> disk == registry
        invariant EntriesMatch(old(pm.Abstract())) ==> EntriesMatch(pm.Abstract())
      {
        var request := requests[i];
        assert request in requests;
        Serve(request);
      }
    }

    /** Forgetting an id that is no longer active leaves the definitions as they are. */
    method ForgetGone(id: Id, forget: Deletion)
      requires id !in pm.activeServices
      modifies pm
      ensures pm.activeServices == old(pm.activeServices) && old(pm.retiredServices) <= pm.retiredServices
      ensures EntriesMatch(old(pm.Abstract())) ==> EntriesMatch(pm.Abstract())
    {
      var forgotten := pm.ForgetService(id, forget);
      assert pm.activeServices == old(pm.activeServices);
    }

    /** The delete route: a running service is refused before anything is written, and the
        manager forgets the id after the reload. */
    method RemoveService(id: Id, w: Weather, forget: Deletion) returns (answer: Answer)
      requires Valid()
      modifies this, pm
      ensures Valid()
      ensures Alive(old(pm.entries), id) ==>
        answer == Blocked && pm.Abstract() == old(pm.Abstract()) &&
        disk == old(disk) && checkpoint == old(checkpoint) && registry == old(registry)
      ensures !Alive(old(pm.entries), id) ==>
        (Agree() <==> Settles(old(disk), old(registry), old(pm.Abstract()), DeleteService(id), w))
      ensures answer == Committed ==> Agree() && registry.services == Without(old(disk).services, id)
      ensures answer != Committed ==> registry == old(registry)
      ensures Fair(w) && old(InStep()) ==> InStep() && (disk == registry || disk == old(disk))
      ensures EntriesMatch(old(pm.Abstract())) ==> EntriesMatch(pm.Abstract())
    {
      if Alive(pm.entries, id) {
        return Blocked;
      }
      answer := Transact(DeleteService(id), w);
      if answer == Committed {
        WithoutAgain(old(disk).services, id);
        hide Accepts, Without;
        ForgetGone(id, forget);
      }
    }

    /** `submit_group` on the registry: the order exists for every group, in every state
        the transactions can reach. */
    method GroupOrder(group: nat) returns (order: seq<Service>)
      requires Valid()
      ensures multiset(order) == multiset(InGroup(registry.services, group))
      ensures IsOrderOf(order, Index(InGroup(registry.services, group)))
    {
      order := OrderGroup(registry.services, group);
    }
  }

  // ------------------------------------------------------------------ an edit left on disk

  lemma LoneServiceLoads(s: Service)
    requires s.dependsOn == []
    ensures Loads(Config([s], true))
  {
    var index := Index([s]);
    IndexOfMember([s], s);
    assert forall x :: x in [s] ==> x == s;
    assert DependenciesFirst([s], index);
    assert Ids([s]) == {s.id};
    OrderMeansAcyclic(index, [s]);
  }

  lemma EditCrashes(before: Service, after: Service, w: Weather, s: State)
    requires before.id == after.id && before.runtime != after.runtime && before.dependsOn == after.dependsOn == []
    requires s.active == Index([before]) && s.entries == map[]
    requires w.readable && w.answers(before.id).FileError?
    ensures Upserted([before], after, false) == Some([after])
    ensures Crashes(s, Index([after]), w)
  {
    var incoming := Index([after]);
    IndexOfMember([before], before);
    IndexOfMember([after], after);
    assert [before][1..] == [] && [after] + [] == [after];
    assert Ids([before]) == {before.id} == Ids([after]);
    assert Removed(s, incoming) == {} && RuntimeChanged(s, incoming) == {before.id};
  }

  /** The manifest of a changed service cannot be unlinked: the edit stays on disk and in no
      other store, although the checkpoint could be read and written. */
  method StrandedEdit() returns (api: ConfigApi, answer: Answer)
    ensures answer == Crashed && !api.Agree() && api.disk != api.registry
    ensures api.checkpoint == api.registry && Loads(api.disk)
  {
    var before := Service(1, 0, [], 0, 0);
    var after := Service(1, 0, [], 1, 0);
    LoneServiceLoads(before);
    LoneServiceLoads(after);
    api := new ConfigApi(Config([before], true), map[]);
    var w := Weather(true, true, _ => FileError(false), true, true);
    EditCrashes(before, after, w, api.pm.Abstract());
    answer := api.Transact(Upsert(after, false), w);
  }

  /** A manual edit is on disk, and a request that does not apply comes next: with all I/O
      working the stores stay apart. */
  method PendingEditStays() returns (api: ConfigApi, answer: Answer)
    ensures answer == NotApplicable && !api.Agree() && api.Valid() && api.InStep() && Loads(api.disk)
  {
    var before, after := Service(1, 0, [], 0, 0), Service(1, 0, [], 1, 0);
    LoneServiceLoads(before);
    LoneServiceLoads(after);
    api := new ConfigApi(Config([before], true), map[]);
    api.disk := Config([after], true);
    assert Without([after], 2) == [after] by { WithoutRemoves([after], 2); }
    answer := api.Transact(DeleteService(2), Weather(true, true, _ => Deleted, true, true));
  }

  // ------------------------------------------------------------------ what the edits mean

  lemma {:induction false} WithoutRemoves(services: seq<Service>, id: Id)
    ensures forall s :: s in Without(services, id) <==> s in services && s.id != id
    ensures |Without(services, id)| == |services| <==> id !in Ids(services)
    ensures |Without(services, id)| <= |services|
    ensures id !in Ids(services) ==> Without(services, id) == services
  {
    if services != [] {
      WithoutRemoves(services[1..], id);
      assert services == [services[0]] + services[1..];
      assert Ids(services) == {services[0].id} + Ids(services[1..]);
      hide Ids;
    }
  }

  lemma WithoutAgain(services: seq<Service>, id: Id)
    ensures id !in Ids(Without(services, id))
  {
    WithoutRemoves(services, id);
  }

  /** An update replaces the first service of that id and moves nothing; a creation appends. */
  lemma {:induction false} UpsertReplacesOrAppends(services: seq<Service>, s: Service, create: bool)
    ensures Upserted(services, s, create) == None <==> !create && s.id !in Ids(services)
    ensures Upserted(services, s, create).Some? ==>
      var r := Upserted(services, s, create).value;
      if s.id in Ids(services)
      then |r| == |services| && exists k :: 0 <= k < |r| && services[k].id == s.id && r == services[k := s]
      else r == services + [s]
  {
    if services != [] && services[0].id != s.id {
      UpsertReplacesOrAppends(services[1..], s, create);
      assert services == [services[0]] + services[1..];
      assert Ids(services) == {services[0].id} + Ids(services[1..]);
      if s.id in Ids(services) {
        var r := Upserted(services[1..], s, create).value;
        var k :| 0 <= k < |r| && services[1..][k].id == s.id && r == services[1..][k := s];
        assert services[k + 1].id == s.id && [services[0]] + r == services[k + 1 := s];
      }
    } else if services != [] {
      assert services[0] in services && services[0 := s] == [s] + services[1..];
    }
  }

  /** A reorder is accepted exactly for a permutation of the ids, and permutes the list. */
  lemma ReorderPermutes(services: seq<Service>, order: seq<Id>)
    requires UniqueIds(services)
    ensures Reordered(services, order).Some? <==>
      (forall i, j :: 0 <= i < j < |order| ==> order[i] != order[j]) && (set id | id in order) == Ids(services)
    ensures Reordered(services, order).Some? ==>
      var r := Reordered(services, order).value;
      && |r| == |order| && (forall i :: 0 <= i < |order| ==> r[i].id == order[i])
      && UniqueIds(r) && (forall s :: s in r <==> s in services)
  {
    if Reordered(services, order).Some? {
      var r := Reordered(services, order).value;
      forall s | s in services ensures s in r {
        IndexOfMember(services, s);
        assert s.id in Ids(services) && s.id in order;
        var i :| 0 <= i < |order| && order[i] == s.id;
        assert r[i] == s;
      }
    }
  }

  /** Reordering never turns an accepted list into a rejected one. */
  lemma ReorderKeepsAccepted(services: seq<Service>, order: seq<Id>)
    requires Accepts(services) && Reordered(services, order).Some?
    ensures Accepts(Reordered(services, order).value)
  {
    ReorderPermutes(services, order);
    var r := Reordered(services, order).value;
    assert Ids(r) == Ids(services);
    SelectionAcyclic(services, r);
  }

  /** A service that another one depends on cannot be deleted from the config. */
  lemma NeededServiceStays(services: seq<Service>, id: Id, dependent: Service)
    requires Accepts(services) && dependent in services && id in dependent.dependsOn
    ensures !Accepts(Without(services, id))
  {
    WithoutRemoves(services, id);
    WithoutAgain(services, id);
    assert DependsOnOthers(dependent, Ids(services));
    assert dependent in Without(services, id);
    assert !DependsOnOthers(dependent, Ids(Without(services, id)));
  }
}
