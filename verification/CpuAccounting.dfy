/** CPU accounting over the samples of one service: each sample credits every process
    identity with the CPU seconds used since the previous sample. */
module CpuAccounting {
  import opened Wrappers

  /** A process is told apart by its pid and its create time. */
  datatype Identity = Identity(pid: nat, createTime: real)

  /** What reading one process of the tree gives. */
  datatype Reading = Unreadable | Readable(id: Identity, cpu: real)

  datatype Counter = Counter(id: Identity, cpu: real)

  datatype Signature = Signature(pid: nat, createTime: Option<real>, children: bool)

  datatype Entry = Entry(signature: Signature, monotonic: real, counters: seq<Counter>, available: bool, sampledAt: real)

  /** One call of `sample` for a running service. `rootFails` covers every early return
      before the process tree is read; the root stands first among the readings. */
  datatype Request = Request(signature: Signature, wall: real, monotonic: real, rootFails: bool, readings: seq<Reading>)

  /** `totals` are the CPU seconds credited so far, `latest` the last counter seen. */
  datatype State = State(cache: Option<Entry>, totals: map<Identity, real>, latest: map<Identity, real>)

  const EMPTY: State := State(None, map[], map[])

  function Max0(x: real): real {
    if x > 0.0 then x else 0.0
  }

  /** Assignment to the dictionary of counters. */
  function Put(counters: seq<Counter>, id: Identity, cpu: real): seq<Counter> {
    if counters == [] then [Counter(id, cpu)]
    else if counters[0].id == id then [Counter(id, cpu)] + counters[1..]
    else [counters[0]] + Put(counters[1..], id, cpu)
  }

  function Lookup(counters: seq<Counter>, id: Identity): (r: Option<real>)
    ensures r.Some? ==> Counter(id, r.value) in counters
    ensures r.None? ==> forall c :: c in counters ==> c.id != id
  {
    if counters == [] then None
    else if counters[0].id == id then Some(counters[0].cpu)
    else Lookup(counters[1..], id)
  }

  function Collect(readings: seq<Reading>): seq<Counter> {
    if readings == [] then []
    else
      var n := |readings| - 1;
      match readings[n]
      case Unreadable => Collect(readings[..n])
      case Readable(id, cpu) => Put(Collect(readings[..n]), id, cpu)
  }

  predicate Failed(q: Request) {
    q.rootFails || q.readings == [] || q.readings[0].Unreadable?
  }

  /** Within the time to live a cached sample is returned as it is. */
  predicate Reused(cache: Option<Entry>, q: Request, ttl: real) {
    cache.Some? && cache.value.signature == q.signature && q.monotonic - cache.value.monotonic < ttl
  }

  /** Whether this sample can be compared with the cached one. */
  predicate Comparable(cache: Option<Entry>, q: Request) {
    cache.Some? && cache.value.available && cache.value.signature == q.signature &&
    q.monotonic - cache.value.monotonic > 0.0
  }

  /** The part of one process: its growth, or all of it if it was created since. */
  function Share(previous: Entry, c: Counter): real {
    match Lookup(previous.counters, c.id)
    case Some(cpu) => Max0(c.cpu - cpu)
    case None => if c.id.createTime >= previous.sampledAt then Max0(c.cpu) else 0.0
  }

  function SumShares(previous: Entry, counters: seq<Counter>): real {
    if counters == [] then 0.0
    else SumShares(previous, counters[..|counters| - 1]) + Share(previous, counters[|counters| - 1])
  }

  function Total(totals: map<Identity, real>, id: Identity): real {
    if id in totals then totals[id] else 0.0
  }

  function Credit(totals: map<Identity, real>, previous: Entry, counters: seq<Counter>): map<Identity, real> {
    if counters == [] then totals
    else
      var c := counters[|counters| - 1];
      var before := Credit(totals, previous, counters[..|counters| - 1]);
      before[c.id := Total(before, c.id) + Share(previous, c)]
  }

  function Note(latest: map<Identity, real>, counters: seq<Counter>): map<Identity, real> {
    if counters == [] then latest
    else Note(latest, counters[..|counters| - 1])[counters[|counters| - 1].id := counters[|counters| - 1].cpu]
  }

  /** The CPU time a sample reports, if it can be compared with the cached one. */
  function DeltaOf(cache: Option<Entry>, q: Request, ttl: real): Option<real> {
    if Reused(cache, q, ttl) || Failed(q) || !Comparable(cache, q) then None
    else Some(SumShares(cache.value, Collect(q.readings)))
  }

  function AfterSample(s: State, q: Request, ttl: real): State {
    if Reused(s.cache, q, ttl) then s
    else if Failed(q) then s.(cache := Some(Entry(q.signature, q.monotonic, [], false, q.wall)))
    else
      var counters := Collect(q.readings);
      State(Some(Entry(q.signature, q.monotonic, counters, true, q.wall)),
            if Comparable(s.cache, q) then Credit(s.totals, s.cache.value, counters) else s.totals,
            Note(s.latest, counters))
  }

  class ResourceSampler {
    const ttl: real
    var cache: Option<Entry>
    ghost var totals: map<Identity, real>
    ghost var latest: map<Identity, real>

    ghost function Abstract(): State
      reads this
    {
      State(cache, totals, latest)
    }

    constructor (ttl: real)
      ensures Abstract() == EMPTY && this.ttl == if ttl < 1.0 then 1.0 else ttl
    {
      this.ttl := if ttl < 1.0 then 1.0 else ttl;
      cache, totals, latest := None, map[], map[];
    }

    method Forget()
      modifies this`cache
      ensures Abstract() == old(Abstract()).(cache := None)
    {
      cache := None;
    }

    /** `sample` with `_sample_uncached`; `delta` is the CPU time the percentage is made
        from, if there is one. */
    method Sample(q: Request) returns (delta: Option<real>)
      modifies this
      ensures Abstract() == AfterSample(old(Abstract()), q, ttl)
      ensures delta == DeltaOf(old(cache), q, ttl)
      ensures delta.Some? <==>
        && old(cache).Some? && old(cache).value.available && old(cache).value.signature == q.signature
        && q.monotonic - old(cache).value.monotonic >= ttl && q.monotonic > old(cache).value.monotonic
        && !q.rootFails && q.readings != [] && q.readings[0].Readable?
      ensures if old(cache).Some? && old(cache).value.signature == q.signature &&
                 q.monotonic - old(cache).value.monotonic < ttl
              then cache == old(cache)
              else
                && cache.Some? && cache.value.signature == q.signature
                && cache.value.monotonic == q.monotonic && cache.value.sampledAt == q.wall
                && (cache.value.available <==> !q.rootFails && q.readings != [] && q.readings[0].Readable?)
    {
      if Reused(cache, q, ttl) {
        return None;
      }
      if q.rootFails || q.readings == [] {
        cache := Some(Entry(q.signature, q.monotonic, [], false, q.wall));
        return None;
      }
      var counters: seq<Counter> := [];
      for i := 0 to |q.readings|
        invariant cache == old(cache) && totals == old(totals) && latest == old(latest)
        invariant counters == Collect(q.readings[..i])
        invariant i > 0 ==> q.readings[0].Readable?
      {
        assert q.readings[..i + 1][..i] == q.readings[..i];
        match q.readings[i] {
          case Unreadable =>
            if i == 0 {
              cache := Some(Entry(q.signature, q.monotonic, [], false, q.wall));
              return None;
            }
          case Readable(id, cpu) =>
            counters := Put(counters, id, cpu);
        }
      }
      assert q.readings[..|q.readings|] == q.readings;
      delta := None;
      if Comparable(cache, q) {
        var sum := 0.0;
        for i := 0 to |counters|
          invariant sum == SumShares(cache.value, counters[..i])
        {
          assert counters[..i + 1][..i] == counters[..i];
          var previous := Lookup(cache.value.counters, counters[i].id);
          if previous.Some? {
            sum := sum + Max0(counters[i].cpu - previous.value);
          } else if counters[i].id.createTime >= cache.value.sampledAt {
            sum := sum + Max0(counters[i].cpu);
          }
        }
        assert counters[..|counters|] == counters;
        delta := Some(sum);
        totals := Credit(totals, cache.value, counters);
      }
      latest := Note(latest, counters);
      cache := Some(Entry(q.signature, q.monotonic, counters, true, q.wall));
    }
  }

  // ------------------------------------------------------------------ the telescoping argument

  predicate OneEach(counters: seq<Counter>) {
    forall i, j :: 0 <= i < j < |counters| ==> counters[i].id != counters[j].id
  }

  lemma {:induction false} PutKeepsOneEach(counters: seq<Counter>, id: Identity, cpu: real)
    requires OneEach(counters)
    ensures OneEach(Put(counters, id, cpu))
    ensures forall c :: c in Put(counters, id, cpu) ==> c == Counter(id, cpu) || (c in counters && c.id != id)
  {
    if counters != [] {
      if counters[0].id != id {
        PutKeepsOneEach(counters[1..], id, cpu);
      }
    }
  }

  lemma {:induction false} CollectIsOneEach(readings: seq<Reading>)
    ensures OneEach(Collect(readings))
    ensures forall c :: c in Collect(readings) ==> Readable(c.id, c.cpu) in readings
  {
    if readings != [] {
      var n := |readings| - 1;
      CollectIsOneEach(readings[..n]);
      if readings[n].Readable? {
        PutKeepsOneEach(Collect(readings[..n]), readings[n].id, readings[n].cpu);
      }
    }
  }

  lemma {:induction false} PutLookup(counters: seq<Counter>, id: Identity, cpu: real, x: Identity)
    ensures Lookup(Put(counters, id, cpu), x) == if x == id then Some(cpu) else Lookup(counters, x)
  {
    if counters != [] && counters[0].id != id {
      PutLookup(counters[1..], id, cpu, x);
    }
  }

  /** Every process that could be read has a counter, that of its last reading, and no other
      process has one. */
  lemma {:induction false} CollectTakesAll(readings: seq<Reading>, id: Identity)
    ensures match Lookup(Collect(readings), id)
      case Some(cpu) => exists i :: 0 <= i < |readings| && readings[i] == Readable(id, cpu) &&
                          forall j :: i < j < |readings| ==> !(readings[j].Readable? && readings[j].id == id)
      case None => forall i :: 0 <= i < |readings| ==> !(readings[i].Readable? && readings[i].id == id)
  {
    if readings != [] {
      var n := |readings| - 1;
      CollectTakesAll(readings[..n], id);
      if readings[n].Readable? {
        PutLookup(Collect(readings[..n]), readings[n].id, readings[n].cpu, id);
      }
      var found := Lookup(Collect(readings[..n]), id);
      if found.Some? && !(readings[n].Readable? && readings[n].id == id) {
        var i :| 0 <= i < n && readings[..n][i] == Readable(id, found.value) &&
                 forall j :: i < j < n ==> !(readings[..n][j].Readable? && readings[..n][j].id == id);
        assert readings[i] == Readable(id, found.value);
        assert forall j :: i < j < n ==> readings[..n][j] == readings[j];
      } else if readings[n].Readable? && readings[n].id == id {
        assert readings[n] == Readable(id, readings[n].cpu);
      } else {
        assert forall i :: 0 <= i < n ==> readings[..n][i] == readings[i];
      }
      hide Collect, Lookup, Put;
    }
  }

  lemma {:induction false} CreditOf(totals: map<Identity, real>, previous: Entry, counters: seq<Counter>, id: Identity)
    requires OneEach(counters)
    ensures Total(Credit(totals, previous, counters), id) == Total(totals, id) +
      match Lookup(counters, id) case Some(cpu) => Share(previous, Counter(id, cpu)) case None => 0.0
    ensures id in Credit(totals, previous, counters) <==> id in totals || Lookup(counters, id).Some?
  {
    if counters != [] {
      var n := |counters| - 1;
      CreditOf(totals, previous, counters[..n], id);
      LookupLast(counters, id);
    }
  }

  lemma {:induction false} LookupLast(counters: seq<Counter>, id: Identity)
    requires OneEach(counters) && counters != []
    ensures var n := |counters| - 1;
      Lookup(counters, id) == if counters[n].id == id then Some(counters[n].cpu) else Lookup(counters[..n], id)
    ensures counters[|counters| - 1].id == id ==> Lookup(counters[..|counters| - 1], id) == None
  {
    if |counters| > 1 && counters[0].id != id {
      LookupLast(counters[1..], id);
      assert counters[1..][..|counters| - 2] == counters[..|counters| - 1][1..];
    }
  }

  lemma {:induction false} NoteOf(latest: map<Identity, real>, counters: seq<Counter>, id: Identity)
    requires OneEach(counters)
    ensures var after := Note(latest, counters);
      match Lookup(counters, id)
      case Some(cpu) => id in after && after[id] == cpu
      case None => (id in after <==> id in latest) && (id in latest ==> after[id] == latest[id])
  {
    if counters != [] {
      NoteOf(latest, counters[..|counters| - 1], id);
      LookupLast(counters, id);
    }
  }

  /** What the operating system guarantees of a request: counters never fall, and every
      process seen in an earlier sample was created before this one was taken. */
  predicate Honest(s: State, q: Request) {
    && (forall r :: r in q.readings && r.Readable? ==> r.cpu >= 0.0 && (r.id in s.latest ==> s.latest[r.id] <= r.cpu))
    && (forall id :: id in s.latest ==> id.createTime < q.wall)
  }

  /** No identity is credited with more than its counter; the cached counters are the
      latest ones, and whoever is missing there is older than the cached sample. */
  ghost predicate Inv(s: State) {
    CreditsFit(s.totals, s.latest) && (s.cache.Some? ==> CacheFits(s.cache.value, s.latest))
  }

  ghost predicate CreditsFit(totals: map<Identity, real>, latest: map<Identity, real>) {
    && (forall id :: Total(totals, id) <= Total(latest, id))
    && (forall id :: id !in latest ==> id !in totals)
    && (forall id :: id in latest ==> latest[id] >= 0.0)
  }

  ghost predicate CacheFits(cache: Entry, latest: map<Identity, real>) {
    && OneEach(cache.counters)
    && (forall c :: c in cache.counters ==> c.id in latest && latest[c.id] == c.cpu)
    && (forall id :: id in latest && Lookup(cache.counters, id) == None ==> id.createTime < cache.sampledAt)
  }

  lemma ShareFits(s: State, q: Request, id: Identity, cpu: real)
    requires Inv(s) && Honest(s, q) && s.cache.Some? && Readable(id, cpu) in q.readings
    ensures Total(s.totals, id) + Share(s.cache.value, Counter(id, cpu)) <= cpu
  {
    var r := Readable(id, cpu);
    assert r in q.readings;
    match Lookup(s.cache.value.counters, id) {
      case Some(previous) =>
        assert Counter(id, previous) in s.cache.value.counters;
      case None =>
        if id in s.latest {
          assert Total(s.totals, id) <= s.latest[id];
        }
    }
  }

  lemma TotalsFit(s: State, q: Request, id: Identity)
    requires Inv(s) && Honest(s, q)
    ensures var counters := Collect(q.readings);
      var totals := if s.cache.Some? then Credit(s.totals, s.cache.value, counters) else s.totals;
      var after := Note(s.latest, counters);
      && Total(totals, id) <= Total(after, id) && Total(s.totals, id) <= Total(after, id)
      && (id !in after ==> id !in totals && id !in s.totals)
      && (id in after ==> after[id] >= 0.0)
  {
    var counters := Collect(q.readings);
    CollectIsOneEach(q.readings);
    NoteOf(s.latest, counters, id);
    if s.cache.Some? {
      CreditOf(s.totals, s.cache.value, counters, id);
    }
    match Lookup(counters, id) {
      case Some(cpu) =>
        var r := Readable(id, cpu);
        assert r in q.readings;
        if s.cache.Some? {
          ShareFits(s, q, id, cpu);
        }
      case None =>
    }
  }

  lemma CreditsStayFit(s: State, q: Request)
    requires Inv(s) && Honest(s, q)
    ensures var counters := Collect(q.readings);
      && CreditsFit(s.totals, Note(s.latest, counters))
      && (s.cache.Some? ==> CreditsFit(Credit(s.totals, s.cache.value, counters), Note(s.latest, counters)))
  {
    hide Collect, Credit, Note, Inv, Honest;
    forall id
      ensures var counters := Collect(q.readings);
        var after := Note(s.latest, counters);
        var totals := if s.cache.Some? then Credit(s.totals, s.cache.value, counters) else s.totals;
        && Total(totals, id) <= Total(after, id) && Total(s.totals, id) <= Total(after, id)
        && (id !in after ==> id !in totals && id !in s.totals)
        && (id in after ==> after[id] >= 0.0)
    {
      TotalsFit(s, q, id);
    }
  }

  lemma NewCacheFits(s: State, q: Request)
    requires Honest(s, q)
    ensures var counters := Collect(q.readings);
      CacheFits(Entry(q.signature, q.monotonic, counters, true, q.wall), Note(s.latest, counters))
  {
    var counters := Collect(q.readings);
    var after := Note(s.latest, counters);
    CollectIsOneEach(q.readings);
    assert forall id :: id in s.latest ==> id.createTime < q.wall;
    hide Collect, Note, Honest;
    forall c | c in counters ensures c.id in after && after[c.id] == c.cpu {
      NoteOf(s.latest, counters, c.id);
      LookupOf(counters, c);
    }
    forall id | id in after && Lookup(counters, id) == None ensures id.createTime < q.wall {
      NoteOf(s.latest, counters, id);
    }
  }

  lemma EmptyCacheFits(s: State, q: Request)
    requires Honest(s, q)
    ensures CacheFits(Entry(q.signature, q.monotonic, [], false, q.wall), s.latest)
  {
  }

  lemma SampleKeepsInv(s: State, q: Request, ttl: real)
    requires Inv(s) && Honest(s, q)
    ensures Inv(AfterSample(s, q, ttl))
  {
    CreditsStayFit(s, q);
    NewCacheFits(s, q);
    EmptyCacheFits(s, q);
    hide Collect, Credit, Note, Honest, CreditsFit, CacheFits, Reused, Failed, Comparable;
  }

  lemma {:induction false} LookupOf(counters: seq<Counter>, c: Counter)
    requires OneEach(counters) && c in counters
    ensures Lookup(counters, c.id) == Some(c.cpu)
  {
    if counters[0] != c {
      var k :| 0 <= k < |counters| && counters[k] == c;
      assert counters[0].id != c.id;
      LookupOf(counters[1..], c);
    }
  }

  /** Nothing is lost either: between two comparable samples a process that both saw is
      credited with exactly the growth of its counter, and one created in between with all
      of it. */
  lemma CreditIsExact(s: State, q: Request, ttl: real, id: Identity, cpu: real)
    requires Inv(s) && Honest(s, q) && !Reused(s.cache, q, ttl) && !Failed(q) && Comparable(s.cache, q)
    requires Lookup(Collect(q.readings), id) == Some(cpu)
    ensures var u := AfterSample(s, q, ttl);
      && Total(u.latest, id) == cpu
      && (Lookup(s.cache.value.counters, id).Some? ==>
            Total(u.totals, id) - Total(s.totals, id) == Total(u.latest, id) - Total(s.latest, id))
      && (id !in s.latest && id.createTime >= s.cache.value.sampledAt ==> Total(u.totals, id) == cpu)
      && (Lookup(s.cache.value.counters, id) == None && id.createTime < s.cache.value.sampledAt ==>
            Total(u.totals, id) == Total(s.totals, id))
  {
    var counters := Collect(q.readings);
    CollectIsOneEach(q.readings);
    NoteOf(s.latest, counters, id);
    CreditOf(s.totals, s.cache.value, counters, id);
    var r := Readable(id, cpu);
    assert r in q.readings;
    if previous :| Lookup(s.cache.value.counters, id) == Some(previous) {
      assert Counter(id, previous) in s.cache.value.counters;
    }
  }

  // ------------------------------------------------------------------ every run

  datatype Step = Sample(q: Request) | Forget

  function Next(s: State, step: Step, ttl: real): State {
    match step
    case Sample(q) => AfterSample(s, q, ttl)
    case Forget => s.(cache := None)
  }

  ghost predicate IsRun(ttl: real, states: seq<State>, steps: seq<Step>) {
    && |states| == |steps| + 1
    && states[0] == EMPTY
    && (forall i :: 0 <= i < |steps| ==>
          (steps[i].Sample? ==> Honest(states[i], steps[i].q)) && states[i + 1] == Next(states[i], steps[i], ttl))
  }

  lemma {:induction false} RunKeepsInv(ttl: real, states: seq<State>, steps: seq<Step>, k: nat)
    requires IsRun(ttl, states, steps) && k <= |steps|
    ensures Inv(states[k])
  {
    if k > 0 {
      RunKeepsInv(ttl, states, steps, k - 1);
      if steps[k - 1].Sample? {
        hide Inv, Honest, AfterSample;
        SampleKeepsInv(states[k - 1], steps[k - 1].q, ttl);
      }
    }
  }

  /** Over any run of samples and forgets, the CPU seconds credited to a process never
      exceed its own latest counter, however often it is skipped, reappears or is first
      seen late. */
  lemma NeverOvercounted(ttl: real, states: seq<State>, steps: seq<Step>, k: nat, id: Identity)
    requires IsRun(ttl, states, steps) && k <= |steps|
    ensures Total(states[k].totals, id) <= Total(states[k].latest, id)
    ensures id !in states[k].latest ==> Total(states[k].totals, id) == 0.0
  {
    RunKeepsInv(ttl, states, steps, k);
  }

  // ------------------------------------------------------------------ what the samples report

  ghost function Sum(m: map<Identity, real>): real {
    if m == map[] then 0.0
    else
      var id :| id in m;
      m[id] + Sum(m - {id})
  }

  lemma {:induction false} SumWithout(m: map<Identity, real>, id: Identity)
    requires id in m
    ensures Sum(m) == m[id] + Sum(m - {id})
    decreases |m|
  {
    var other :| other in m && Sum(m) == m[other] + Sum(m - {other});
    if other != id {
      SumWithout(m - {other}, id);
      SumWithout(m - {id}, other);
      assert (m - {other}) - {id} == (m - {id}) - {other};
    }
  }

  lemma SumUpdate(m: map<Identity, real>, id: Identity, v: real)
    ensures Sum(m[id := v]) == Sum(m) - Total(m, id) + v
  {
    var after := m[id := v];
    SumWithout(after, id);
    if id in m {
      SumWithout(m, id);
      assert after - {id} == m - {id};
    } else {
      assert after - {id} == m;
    }
  }

  lemma {:induction false} SumBelow(a: map<Identity, real>, b: map<Identity, real>)
    requires forall id :: id in a ==> id in b && a[id] <= b[id]
    requires forall id :: id in b ==> b[id] >= 0.0
    ensures Sum(a) <= Sum(b)
    decreases |b|
  {
    if b == map[] {
      assert a == map[];
    } else {
      var id :| id in b;
      SumWithout(b, id);
      SumBelow(a - {id}, b - {id});
      if id in a {
        SumWithout(a, id);
      } else {
        assert a - {id} == a;
      }
    }
  }

  lemma {:induction false} CreditSum(totals: map<Identity, real>, previous: Entry, counters: seq<Counter>)
    ensures Sum(Credit(totals, previous, counters)) == Sum(totals) + SumShares(previous, counters)
  {
    if counters != [] {
      var n := |counters| - 1;
      CreditSum(totals, previous, counters[..n]);
      var before := Credit(totals, previous, counters[..n]);
      hide Sum;
      SumUpdate(before, counters[n].id, Total(before, counters[n].id) + Share(previous, counters[n]));
    }
  }

  /** The growth of what these processes are credited with. */
  function SumGrowth(before: map<Identity, real>, after: map<Identity, real>, counters: seq<Counter>): real {
    if counters == [] then 0.0
    else
      var n := |counters| - 1;
      SumGrowth(before, after, counters[..n]) + Total(after, counters[n].id) - Total(before, counters[n].id)
  }

  lemma {:induction false} SharesAreGrowth(s: State, previous: Entry, counters: seq<Counter>, k: nat)
    requires OneEach(counters) && k <= |counters|
    ensures SumShares(previous, counters[..k]) ==
            SumGrowth(s.totals, Credit(s.totals, previous, counters), counters[..k])
  {
    if k > 0 {
      SharesAreGrowth(s, previous, counters, k - 1);
      var c := counters[k - 1];
      assert counters[..k][..k - 1] == counters[..k - 1];
      LookupOf(counters, c);
      CreditOf(s.totals, previous, counters, c.id);
    }
  }

  /** The CPU time a sample reports is the growth of the credits: of the processes it read,
      and of all together. Without a report nothing is credited. */
  lemma DeltaIsGrowth(s: State, q: Request, ttl: real)
    ensures var u := AfterSample(s, q, ttl);
      match DeltaOf(s.cache, q, ttl)
      case None => u.totals == s.totals
      case Some(delta) =>
        delta == SumGrowth(s.totals, u.totals, Collect(q.readings)) && delta == Sum(u.totals) - Sum(s.totals)
  {
    if DeltaOf(s.cache, q, ttl).Some? {
      var counters := Collect(q.readings);
      CollectIsOneEach(q.readings);
      CreditSum(s.totals, s.cache.value, counters);
      SharesAreGrowth(s, s.cache.value, counters, |counters|);
      assert counters[..|counters|] == counters;
    }
  }

  /** All CPU time reported by the first `k` steps of a run. */
  function Reported(ttl: real, states: seq<State>, steps: seq<Step>, k: nat): real
    requires |states| == |steps| + 1 && k <= |steps|
  {
    if k == 0 then 0.0
    else
      Reported(ttl, states, steps, k - 1) +
      match steps[k - 1]
      case Forget => 0.0
      case Sample(q) =>
        match DeltaOf(states[k - 1].cache, q, ttl)
        case None => 0.0
        case Some(delta) => delta
  }

  lemma {:induction false} ReportedIsCredited(ttl: real, states: seq<State>, steps: seq<Step>, k: nat)
    requires IsRun(ttl, states, steps) && k <= |steps|
    ensures Reported(ttl, states, steps, k) == Sum(states[k].totals)
  {
    hide AfterSample, DeltaOf, Sum;
    if k > 0 {
      ReportedIsCredited(ttl, states, steps, k - 1);
      if steps[k - 1].Sample? {
        DeltaIsGrowth(states[k - 1], steps[k - 1].q, ttl);
      }
    } else {
      NothingCredited();
    }
  }

  lemma NothingCredited()
    ensures Sum(map[]) == 0.0
  {
  }

  /** Over any run, all CPU time reported together never exceeds the sum of the latest
      counters of all processes ever seen. */
  lemma ReportsNeverExceedCounters(ttl: real, states: seq<State>, steps: seq<Step>, k: nat)
    requires IsRun(ttl, states, steps) && k <= |steps|
    ensures Reported(ttl, states, steps, k) <= Sum(states[k].latest)
  {
    RunKeepsInv(ttl, states, steps, k);
    ReportedIsCredited(ttl, states, steps, k);
    var s := states[k];
    forall id | id in s.totals ensures id in s.latest && s.totals[id] <= s.latest[id] {
      assert Total(s.totals, id) <= Total(s.latest, id);
    }
    SumBelow(s.totals, s.latest);
  }
}
