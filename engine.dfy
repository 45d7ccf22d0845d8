/** The deployer as it runs: the configuration's services, whose
    environments are annotated in place, and the connection to the runtime
    are the fields of an `Engine`; the helpers of `main`
    (docker-services-deployer.js:11-189) are its methods. Each method is
    proved to leave the engine exactly as the functions of `Pulling` and
    `Lifecycle` say, so everything proved about those functions holds of a
    run. */
module Deployer {
  import opened Values
  import opened Docker
  import opened ContainerOptions
  import opened Pulling
  import opened Lifecycle

  /** The results gathered so far followed by those of the rest of a
      fail-fast series: the first error wins. */
  function Then<T>(done: seq<T>, rest: Result<seq<T>>): Result<seq<T>>
  {
    if rest.Err? then rest else Ok(done + rest.value)
  }

  lemma ThenAppend<T>(done: seq<T>, v: T, rest: Result<seq<T>>)
    ensures Then(done, Then([v], rest)) == Then(done + [v], rest)
  {
    if rest.Ok? {
      assert done + ([v] + rest.value) == done + [v] + rest.value;
    }
  }

  lemma ThenNothing<T>(rest: Result<seq<T>>)
    ensures Then([], rest) == rest
  {
    if rest.Ok? {
      assert [] + rest.value == rest.value;
    }
  }

  /** One step of the pull phase, from service `k` on. */
  lemma PullAllStep(o: Oracle, w: World, services: seq<Service>, k: nat)
    requires k < |services|
    ensures
      var (v, w1) := Pulling.PullImage(o, w, services[k]);
      var rest := PullAll(o, w1, services[k + 1..]);
      PullAll(o, w, services[k..]) == if v.Err? then (Err(v.error), w1) else (Then([v.value], rest.0), rest.1)
  {
    assert services[k..][0] == services[k] && services[k..][1..] == services[k + 1..];
  }

  /** One step of the recreate phase, from position `k` of `idx` on. */
  lemma ReCreateAllStep(o: Oracle, st: St, idx: seq<nat>, k: nat)
    requires k < |idx| && forall j :: 0 <= j < |idx| ==> idx[j] < |st.services|
    ensures
      var (v, st1) := Lifecycle.ReCreateContainer(o, st, idx[k]);
      var rest := ReCreateAll(o, st1, idx[k + 1..]);
      ReCreateAll(o, st, idx[k..]) == if v.Err? then (Err(v.error), st1) else (Then([v.value], rest.0), rest.1)
  {
    assert idx[k..][0] == idx[k] && idx[k..][1..] == idx[k + 1..];
  }

  /** One step of the resolving pass, from position `k` of `idx` on. */
  lemma ResolveAllStep(o: Oracle, st: St, idx: seq<nat>, k: nat)
    requires k < |idx| && forall j :: 0 <= j < |idx| ==> idx[j] < |st.services|
    ensures
      var (v, st1) := Lifecycle.CheckContainer(o, st, idx[k]);
      var rest := ResolveAll(o, st1, idx[k + 1..]);
      ResolveAll(o, st, idx[k..]) == if v.Err? then (Err(v.error), st1) else (Then([v.value], rest.0), rest.1)
  {
    assert idx[k..][0] == idx[k] && idx[k..][1..] == idx[k + 1..];
  }

  /** One step of the starting pass, from position `k` of `ids` on. */
  lemma StartAllStep(o: Oracle, w: World, ids: seq<nat>, k: nat)
    requires k < |ids|
    ensures
      var (a, w1) := StartStep(o.faults, w, ids[k]);
      StartAll(o, w, ids[k..]) ==
        if !Settled(a) then (Err(ApiFailure(StartCall(ids[k]), a.statusCode)), w1) else StartAll(o, w1, ids[k + 1..])
  {
    assert ids[k..][0] == ids[k] && ids[k..][1..] == ids[k + 1..];
  }

  class Engine {
    var services: seq<Service>
    var world: World
    const oracle: Oracle

    function State(): St
      reads this
    {
      St(services, world)
    }

    constructor (services: seq<Service>, world: World, oracle: Oracle)
      ensures this.services == services && this.world == world && this.oracle == oracle
    {
      this.services := services;
      this.world := world;
      this.oracle := oracle;
    }

    /** `pullImage`. */
    method PullImage(s: Service) returns (r: Result<bool>)
      modifies this
      ensures services == old(services)
      ensures (r, world) == Pulling.PullImage(oracle, old(world), s)
    {
      if !Truthy(s.tag) {
        return Err(MissingTag(s.name));
      }
      if !Truthy(s.registry) {
        return Err(MissingRegistry(s.name));
      }
      var image := ImageRef(s);
      var (reply, w') := PullStep(oracle.pulls, world, image);
      world := w';
      match reply
      case PullRejected(code) =>
        r := Err(PullRefused(image, code));
      case StreamError(reason) =>
        r := Err(StreamFailed(image, reason));
      case Output(entries) =>
        r := PullStatus(image, entries);
    }

    /** `pullImages`: `pullImage` on each service in turn, stopping at the
        first error. */
    method PullImages() returns (r: Result<seq<bool>>)
      modifies this
      ensures services == old(services)
      ensures (r, world) == PullAll(oracle, old(world), services)
    {
      var results: seq<bool> := [];
      var k := 0;
      assert services[k..] == services;
      ThenNothing(PullAll(oracle, world, services).0);
      while k < |services|
        invariant k <= |services| && services == old(services)
        invariant
          var rest := PullAll(oracle, world, services[k..]);
          PullAll(oracle, old(world), services) == (Then(results, rest.0), rest.1)
      {
        PullAllStep(oracle, world, services, k);
        var v := PullImage(services[k]);
        if v.Err? {
          return Err(v.error);
        }
        ThenAppend(results, v.value, PullAll(oracle, world, services[k + 1..]).0);
        results := results + [v.value];
        k := k + 1;
      }
      assert services[k..] == [];
      assert results + [] == results;
      return Ok(results);
    }

    /** `getContainer`. */
    method GetContainer(name: string) returns (r: Result<Option<nat>>)
      modifies this
      ensures services == old(services)
      ensures (r, world) == Lifecycle.GetContainer(oracle, old(world), name)
    {
      var (listed, w') := ListStep(oracle.faults, world);
      world := w';
      match listed
      case Rejected(code) =>
        r := Err(ApiFailure(ListCall, code));
      case Answered(cs) =>
        r := Ok(NamedId(cs, name));
    }

    /** `addHostIp` on the environment of service `i`: append the host's
        address when it has one; pushing onto a missing environment
        crashes. */
    method AddHostIp(i: nat) returns (r: Result<()>)
      requires i < |services|
      modifies this
      ensures world == old(world)
      ensures
        var s := old(services[i]);
        var annotated := WithHostIp(s.name, s.env, oracle.interfaces);
        && (annotated.Err? ==> r == Err(annotated.error) && services == old(services))
        && (annotated.Ok? ==> r == Ok(()) && services == old(services)[i := s.(env := annotated.value)])
    {
      var hostIp := HostIp(oracle.interfaces);
      if hostIp.Some? {
        var s := services[i];
        if s.env.None? {
          return Err(EnvMissing(s.name));
        }
        services := services[i := s.(env := Some(s.env.value + [HostIpVariable + hostIp.value]))];
      }
      return Ok(());
    }

    /** `createContainer`. */
    method CreateContainer(i: nat) returns (r: Result<nat>)
      requires i < |services|
      modifies this
      ensures (r, State()) == Lifecycle.CreateContainer(oracle, old(State()), i)
    {
      var annotated := AddHostIp(i);
      if annotated.Err? {
        return Err(annotated.error);
      }
      var opts := BuildOptions(services[i]);
      var (created, w') := CreateStep(oracle.faults, world, opts);
      world := w';
      match created
      case Rejected(code) =>
        r := Err(ApiFailure(CreateCall(opts), code));
      case Answered(id) =>
        r := Ok(id);
    }
  
    /** `reCreateContainer`: look the service's container up; if there is
        one, stop it (a 304 counts as success) and remove it; then create a
        new one. */
    method ReCreateContainer(i: nat) returns (r: Result<nat>)
      requires i < |services|
      modifies this
      ensures (r, State()) == Lifecycle.ReCreateContainer(oracle, old(State()), i)
    {
      var found := GetContainer(services[i].name);
      if found.Err? {
        return Err(found.error);
      }
      ghost var st1 := State();
      if found.value.Some? {
        var id := found.value.value;
        var (stopped, w1) := StopStep(oracle.faults, world, id);
        world := w1;
        if !Settled(stopped) {
          return Err(ApiFailure(StopCall(id), stopped.statusCode));
        }
        var (removed, w2) := RemoveStep(oracle.faults, world, id);
        world := w2;
        if removed.Rejected? {
          return Err(ApiFailure(RemoveCall(id), removed.statusCode));
        }
      }
      r := CreateContainer(i);
    }

    /** `reCreateContainers`: `reCreateContainer` on each given service in
        turn, stopping at the first error. */
    method ReCreateContainers(idx: seq<nat>) returns (r: Result<seq<nat>>)
      requires forall j :: 0 <= j < |idx| ==> idx[j] < |services|
      modifies this
      ensures (r, State()) == ReCreateAll(oracle, old(State()), idx)
    {
      var ids: seq<nat> := [];
      var k := 0;
      assert idx[k..] == idx;
      ThenNothing(ReCreateAll(oracle, State(), idx).0);
      while k < |idx|
        invariant k <= |idx| && |services| == old(|services|)
        invariant
          var rest := ReCreateAll(oracle, State(), idx[k..]);
          ReCreateAll(oracle, old(State()), idx) == (Then(ids, rest.0), rest.1)
      {
        ReCreateAllStep(oracle, State(), idx, k);
        var v := ReCreateContainer(idx[k]);
        if v.Err? {
          return Err(v.error);
        }
        ThenAppend(ids, v.value, ReCreateAll(oracle, State(), idx[k + 1..]).0);
        ids := ids + [v.value];
        k := k + 1;
      }
      assert idx[k..] == [];
      assert ids + [] == ids;
      return Ok(ids);
    }

    /** `checkContainer`: the service's container, created if there is
        none. */
    method CheckContainer(i: nat) returns (r: Result<nat>)
      requires i < |services|
      modifies this
      ensures (r, State()) == Lifecycle.CheckContainer(oracle, old(State()), i)
    {
      var found := GetContainer(services[i].name);
      if found.Err? {
        return Err(found.error);
      }
      if found.value.None? {
        r := CreateContainer(i);
      } else {
        r := Ok(found.value.value);
      }
    }

    /** `checkRunning`: start the container; a 304 answer (already
        running) counts as success. */
    method CheckRunning(id: nat) returns (r: Result<()>)
      modifies this
      ensures services == old(services)
      ensures
        var (a, w') := StartStep(oracle.faults, old(world), id);
        && world == w'
        && (r.Ok? <==> Settled(a))
        && (r.Err? ==> r.error == ApiFailure(StartCall(id), a.statusCode))
    {
      var (started, w') := StartStep(oracle.faults, world, id);
      world := w';
      if !Settled(started) {
        return Err(ApiFailure(StartCall(id), started.statusCode));
      }
      return Ok(());
    }

    /** The first series of `checkContainers`: `checkContainer` on every
        service in turn, stopping at the first error. */
    method ResolveContainers() returns (r: Result<seq<nat>>)
      modifies this
      ensures (r, State()) == ResolveAll(oracle, old(State()), Indices(old(|services|)))
    {
      ghost var idx := Indices(|services|);
      var ids: seq<nat> := [];
      var k := 0;
      assert idx[k..] == idx;
      ThenNothing(ResolveAll(oracle, State(), idx).0);
      while k < |services|
        invariant k <= |services| == |idx|
        invariant
          var rest := ResolveAll(oracle, State(), idx[k..]);
          ResolveAll(oracle, old(State()), idx) == (Then(ids, rest.0), rest.1)
      {
        ResolveAllStep(oracle, State(), idx, k);
        var v := CheckContainer(k);
        if v.Err? {
          return Err(v.error);
        }
        ThenAppend(ids, v.value, ResolveAll(oracle, State(), idx[k + 1..]).0);
        ids := ids + [v.value];
        k := k + 1;
      }
      assert idx[k..] == [];
      assert ids + [] == ids;
      return Ok(ids);
    }

    /** The second series of `checkContainers`: `checkRunning` on every
        container in turn, stopping at the first error. */
    method StartContainers(ids: seq<nat>) returns (r: Result<()>)
      modifies this
      ensures services == old(services)
      ensures (r, world) == StartAll(oracle, old(world), ids)
    {
      var j := 0;
      assert ids[j..] == ids;
      while j < |ids|
        invariant j <= |ids| && services == old(services)
        invariant StartAll(oracle, old(world), ids) == StartAll(oracle, world, ids[j..])
      {
        StartAllStep(oracle, world, ids, j);
        var started := CheckRunning(ids[j]);
        if started.Err? {
          return started;
        }
        j := j + 1;
      }
      return Ok(());
    }

    /** `checkContainers`: find or create every service's container, then
        make sure each of them runs. */
    method CheckContainers() returns (r: Result<()>)
      modifies this
      ensures (r, State()) == Lifecycle.CheckContainers(oracle, old(State()))
    {
      var ids := ResolveContainers();
      if ids.Err? {
        return Err(ids.error);
      }
      r := StartContainers(ids.value);
    }

    /** `main`'s waterfall: pull every image, recreate the services whose
        image changed, then make sure every service's container runs. */
    method Reconcile() returns (r: Result<()>)
      modifies this
      ensures (r, State()) == Lifecycle.Reconcile(oracle, old(State()))
    {
      var pulled := PullImages();
      if pulled.Err? {
        return Err(pulled.error);
      }
      var recreated := ReCreateContainers(Fetched(pulled.value));
      if recreated.Err? {
        return Err(recreated.error);
      }
      r := CheckContainers();
    }
  }
}
