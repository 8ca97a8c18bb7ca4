/** The service definitions every part of the supervisor works on. */
module Services {
  /** Service ids are only ever compared for equality, so a number stands for a name. */
  type Id = nat

  /** One entry of the `services` section. `runtime` stands for the fields PM2 keeps
      with an entry (command, cwd, env, stop and restart settings); `display` for all
      other fields that take part in the equality of two definitions. */
  datatype Service = Service(id: Id, group: nat, dependsOn: seq<Id>, runtime: nat, display: nat)

  function Ids(services: seq<Service>): set<Id> {
    set s | s in services :: s.id
  }

  predicate UniqueIds(services: seq<Service>) {
    forall i, j :: 0 <= i < j < |services| ==> services[i].id != services[j].id
  }

  /** The `{s.id: s}` dictionary; for a repeated id the last definition wins. */
  function Index(services: seq<Service>): (index: map<Id, Service>)
    ensures index.Keys == Ids(services)
    ensures forall id :: id in index ==> index[id] in services && index[id].id == id
  {
    if services == [] then map[]
    else
      var n := |services| - 1;
      assert services == services[..n] + [services[n]];
      Index(services[..n])[services[n].id := services[n]]
  }

  lemma {:induction false} IndexOfMember(services: seq<Service>, s: Service)
    requires UniqueIds(services) && s in services
    ensures s.id in Index(services) && Index(services)[s.id] == s
  {
    var n := |services| - 1;
    if services[n] != s {
      IndexOfMember(services[..n], s);
    }
  }
}
