/** The container resolver and the lifecycle orchestrator: the recreate
    phase, the ensure-running phase and the three-phase reconciliation run
    (docker-services-deployer.js:47-119, 121-149, 151-171), as functions of
    the run's state. A run's state is the declared services, whose
    environments `createContainer` annotates in place, and the runtime. */
module Lifecycle {
  import opened Values
  import opened Docker
  import opened ContainerOptions
  import opened Pulling

  datatype St = St(services: seq<Service>, world: World)

  /** `b` declares the same services as `a`, up to their environments. */
  predicate SameDeclarations(a: seq<Service>, b: seq<Service>)
  {
    |a| == |b| && forall j :: 0 <= j < |a| ==> b[j] == a[j].(env := b[j].env)
  }

  /** The requests the runtime received between two of its states. */
  function Added(before: World, after: World): seq<Call>
  {
    if |before.trace| <= |after.trace| then after.trace[|before.trace|..] else []
  }

  predicate Grows(before: World, after: World)
  {
    before.trace <= after.trace
  }

  /** A runtime that received the requests `s` received exactly `s`. */
  lemma AddedOf(before: World, after: World, s: seq<Call>)
    requires after.trace == before.trace + s
    ensures Grows(before, after) && Added(before, after) == s
  {
  }

  predicate NoPulls(t: seq<Call>)
  {
    forall k :: 0 <= k < |t| ==> !t[k].PullCall?
  }

  predicate NoStarts(t: seq<Call>)
  {
    forall k :: 0 <= k < |t| ==> !t[k].StartCall?
  }

  /** Neither a stop nor a remove. */
  predicate NoTeardown(t: seq<Call>)
  {
    forall k :: 0 <= k < |t| ==> !t[k].StopCall? && !t[k].RemoveCall?
  }

  /** Only lists and creates. */
  predicate ResolveOnly(t: seq<Call>)
  {
    forall k :: 0 <= k < |t| ==> t[k] == ListCall || t[k].CreateCall?
  }

  predicate OnlyStarts(t: seq<Call>)
  {
    forall k :: 0 <= k < |t| ==> t[k].StartCall?
  }

  /** Once a start has been issued, only starts follow. */
  predicate StartsLast(t: seq<Call>)
  {
    forall a, b :: 0 <= a < b < |t| && t[a].StartCall? ==> t[b].StartCall?
  }

  /** Once anything but a pull has been issued, no pull follows. */
  predicate PullsFirst(t: seq<Call>)
  {
    forall a, b :: 0 <= a < b < |t| && t[b].PullCall? ==> t[a].PullCall?
  }

  /** The position of the first container listing `/<name>` among its
      names (`_.find` with `_.contains`). */
  function FindByName(cs: seq<Container>, name: string): (r: Option<nat>)
    ensures r.None? <==> forall k :: 0 <= k < |cs| ==> "/" + name !in cs[k].names
    ensures r.Some? ==> r.value < |cs| && "/" + name in cs[r.value].names
    ensures r.Some? ==> forall k :: 0 <= k < r.value ==> "/" + name !in cs[k].names
  {
    if |cs| == 0 then None
    else
      var n := |cs| - 1;
      var earlier := FindByName(cs[..n], name);
      assert forall k :: 0 <= k < n ==> cs[..n][k] == cs[k];
      if earlier.Some? then earlier
      else if "/" + name in cs[n].names then Some(n)
      else None
  }

  /** The id of the container a service name resolves to. */
  function NamedId(cs: seq<Container>, name: string): (r: Option<nat>)
    ensures r.None? <==> forall k :: 0 <= k < |cs| ==> "/" + name !in cs[k].names
    ensures r.Some? ==>
      exists k :: 0 <= k < |cs| && "/" + name in cs[k].names && r.value == cs[k].id
        && forall j :: 0 <= j < k ==> "/" + name !in cs[j].names
  {
    match FindByName(cs, name)
    case None => None
    case Some(k) => Some(cs[k].id)
  }

  /** The container `id` is the only one named `/<name>`, and it has no
      other name: what a container created for the service looks like when
      the create succeeded. */
  predicate SoleHolder(cs: seq<Container>, name: string, id: nat)
  {
    && FindByName(cs, name).Some?
    && cs[FindByName(cs, name).value].id == id
    && cs[FindByName(cs, name).value].names == ["/" + name]
    && forall j :: 0 <= j < |cs| && "/" + name in cs[j].names ==> j == FindByName(cs, name).value
  }

  /** A container appended under a name nobody uses is that name's sole
      holder. */
  lemma SoleHolderAppended(cs: seq<Container>, name: string, id: nat)
    requires !NameInUse(cs, "/" + name)
    ensures SoleHolder(cs + [Container(id, ["/" + name], false)], name, id)
    ensures NamedId(cs + [Container(id, ["/" + name], false)], name) == Some(id)
  {
    var cs' := cs + [Container(id, ["/" + name], false)];
    assert "/" + name in cs'[|cs|].names;
    assert forall k :: 0 <= k < |cs| ==> cs'[k] == cs[k];
  }

  /** Appending containers does not change what a name already resolves to. */
  lemma FindByNameExtend(cs: seq<Container>, cs': seq<Container>, name: string)
    requires |cs| <= |cs'| && cs'[..|cs|] == cs
    requires FindByName(cs, name).Some?
    ensures FindByName(cs', name) == FindByName(cs, name)
  {
    var k := FindByName(cs, name).value;
    assert cs'[k] == cs[k];
    assert forall j :: 0 <= j < k ==> cs'[j] == cs[j];
  }

  /** Resolution depends on the names only. */
  lemma FindByNameSameNames(cs: seq<Container>, cs': seq<Container>, name: string)
    requires |cs| == |cs'| && forall k :: 0 <= k < |cs| ==> cs'[k].names == cs[k].names
    ensures FindByName(cs', name) == FindByName(cs, name)
  {
    if FindByName(cs', name).Some? {
      assert "/" + name in cs[FindByName(cs', name).value].names;
    }
    if FindByName(cs, name).Some? {
      assert "/" + name in cs'[FindByName(cs, name).value].names;
    }
  }

  /** `getContainer`: one list request, which changes nothing; the result
      is the id of the first container named `/<name>`, if any. */
  function GetContainer(o: Oracle, w: World, name: string): (r: (Result<Option<nat>>, World))
    ensures r.1 == Record(w, ListCall)
    ensures r.0.Ok? <==> FaultAt(o.faults, w).None?
    ensures r.0.Ok? ==> r.0.value == NamedId(w.containers, name)
    ensures r.0.Err? ==> r.0.error == ApiFailure(ListCall, o.faults[|w.trace|])
  {
    var (listed, w') := ListStep(o.faults, w);
    match listed
    case Rejected(code) => (Err(ApiFailure(ListCall, code)), w')
    case Answered(cs) => (Ok(NamedId(cs, name)), w')
  }

  /** `createContainer`: annotate the service's environment in place, then
      ask the runtime for a container built from the annotated service. */
  function CreateContainer(o: Oracle, st: St, i: nat): (r: (Result<nat>, St))
    requires i < |st.services|
    ensures SameDeclarations(st.services, r.1.services)
    ensures forall j :: 0 <= j < |st.services| && j != i ==> r.1.services[j] == st.services[j]
    ensures
      var s := st.services[i];
      var annotated := WithHostIp(s.name, s.env, o.interfaces);
      && (annotated.Err? ==> r == (Err(annotated.error), st))
      && (annotated.Ok? ==> r.1.services[i] == s.(env := annotated.value))
    ensures r.1.world.trace == st.world.trace
         || r.1.world.trace == st.world.trace + [CreateCall(BuildOptions(r.1.services[i]))]
    ensures r.0.Ok? ==>
      && r.1.world.trace == st.world.trace + [CreateCall(BuildOptions(r.1.services[i]))]
      && r.0.value == st.world.nextId
      && r.1.world.containers == st.world.containers + [Container(r.0.value, ["/" + st.services[i].name], false)]
    ensures r.0.Err? ==> r.1.world.containers == st.world.containers
    ensures r.0.Err? ==> r.0.error.EnvMissing? || (r.0.error.ApiFailure? && r.0.error.call.CreateCall?)
    // the outcome is the runtime's answer to the create request
    ensures
      var s := st.services[i];
      var annotated := WithHostIp(s.name, s.env, o.interfaces);
      annotated.Ok? ==>
        var opts := BuildOptions(s.(env := annotated.value));
        var created := CreateStep(o.faults, st.world, opts);
        && r.1.world == created.1
        && (r.0.Ok? <==> created.0.Answered?)
        && (r.0.Err? ==> r.0.error == ApiFailure(CreateCall(opts), created.0.statusCode))
    ensures r.0.Ok? ==> SoleHolder(r.1.world.containers, st.services[i].name, r.0.value)
    ensures r.1.world.nextId == if r.0.Ok? then st.world.nextId + 1 else st.world.nextId
    ensures WellFormed(st.world) ==> WellFormed(r.1.world)
  {
    var s := st.services[i];
    var annotated := WithHostIp(s.name, s.env, o.interfaces);
    if annotated.Err? then (Err(annotated.error), st)
    else
      var s' := s.(env := annotated.value);
      var opts := BuildOptions(s');
      var created := CreateStep(o.faults, st.world, opts);
      var st' := St(st.services[i := s'], created.1);
      match created.0
      case Rejected(code) => (Err(ApiFailure(CreateCall(opts), code)), st')
      case Answered(id) =>
        SoleHolderAppended(st.world.containers, s.name, id);
        (Ok(id), st')
  }

  /** The remove-then-create tail of `reCreateContainer`: a remove error
      aborts before the create. */
  function RemoveThenCreate(o: Oracle, st: St, i: nat, id: nat): (r: (Result<nat>, St))
    requires i < |st.services|
    ensures SameDeclarations(st.services, r.1.services)
    ensures r.1.world.trace == st.world.trace + [RemoveCall(id)]
         || r.1.world.trace == st.world.trace + [RemoveCall(id), CreateCall(BuildOptions(r.1.services[i]))]
    ensures r.0.Ok? ==> r.1.world.trace == st.world.trace + [RemoveCall(id), CreateCall(BuildOptions(r.1.services[i]))]
    ensures r.0.Err? && r.0.error.ApiFailure? && r.0.error.call == RemoveCall(id) ==>
      r.1.world.trace == st.world.trace + [RemoveCall(id)]
    // a refused remove ends with its error and nothing is created; an
    // accepted one is followed by `createContainer`
    ensures
      var removed := RemoveStep(o.faults, st.world, id);
      && (removed.0.Rejected? ==>
            r == (Err(ApiFailure(RemoveCall(id), removed.0.statusCode)), St(st.services, removed.1)))
      && (removed.0.Answered? ==> r == CreateContainer(o, St(st.services, removed.1), i))
    ensures r.0.Ok? ==>
      && SoleHolder(r.1.world.containers, st.services[i].name, r.0.value)
      && st.world.nextId <= r.0.value < r.1.world.nextId
    ensures r.1.world.nextId >= st.world.nextId
    ensures WellFormed(st.world) ==> WellFormed(r.1.world)
  {
    var (removed, w') := RemoveStep(o.faults, st.world, id);
    if removed.Rejected? then (Err(ApiFailure(RemoveCall(id), removed.statusCode)), St(st.services, w'))
    else CreateContainer(o, St(st.services, w'), i)
  }

  /** The stop-remove-create part of `reCreateContainer` for an existing
      container: a stop answered with 304 counts as success, any other stop
      error aborts before the remove. */
  function Replace(o: Oracle, st: St, i: nat, id: nat): (r: (Result<nat>, St))
    requires i < |st.services|
    ensures SameDeclarations(st.services, r.1.services)
    ensures r.1.world.trace == st.world.trace + [StopCall(id)]
         || r.1.world.trace == st.world.trace + [StopCall(id), RemoveCall(id)]
         || r.1.world.trace == st.world.trace + [StopCall(id), RemoveCall(id), CreateCall(BuildOptions(r.1.services[i]))]
    ensures r.1.world.trace == st.world.trace + [StopCall(id)] ==>
      r.0.Err? && r.0.error.ApiFailure? && r.0.error.call == StopCall(id) && r.0.error.statusCode != NotModified
    ensures r.0.Err? && r.0.error.ApiFailure? && r.0.error.call == RemoveCall(id) ==>
      r.1.world.trace == st.world.trace + [StopCall(id), RemoveCall(id)]
    ensures r.0.Ok? ==>
      r.1.world.trace == st.world.trace + [StopCall(id), RemoveCall(id), CreateCall(BuildOptions(r.1.services[i]))]
    // a stop refused with any status but 304 ends with its error; a stop
    // that succeeds or answers 304 is followed by the remove
    ensures
      var stop := StopStep(o.faults, st.world, id);
      && (!Settled(stop.0) ==>
            r == (Err(ApiFailure(StopCall(id), stop.0.statusCode)), St(st.services, stop.1)))
      && (Settled(stop.0) ==> r == RemoveThenCreate(o, St(st.services, stop.1), i, id))
    ensures r.0.Ok? ==>
      && SoleHolder(r.1.world.containers, st.services[i].name, r.0.value)
      && st.world.nextId <= r.0.value < r.1.world.nextId
    ensures r.1.world.nextId >= st.world.nextId
    ensures WellFormed(st.world) ==> WellFormed(r.1.world)
  {
    var stop := StopStep(o.faults, st.world, id);
    if !Settled(stop.0) then (Err(ApiFailure(StopCall(id), stop.0.statusCode)), St(st.services, stop.1))
    else
      var rest := RemoveThenCreate(o, St(st.services, stop.1), i, id);
      StopThen(st.world.trace, id, CreateCall(BuildOptions(rest.1.services[i])));
      rest
  }

  /** A stop, then a remove and possibly a create. */
  lemma StopThen(a: seq<Call>, id: nat, c: Call)
    ensures a + [StopCall(id)] + [RemoveCall(id)] == a + [StopCall(id), RemoveCall(id)]
    ensures a + [StopCall(id)] + [RemoveCall(id), c] == a + [StopCall(id), RemoveCall(id), c]
  {
  }

  /** `reCreateContainer`: resolve the service's container; if there is
      one, stop, remove and replace it, otherwise create one. It never
      starts a container. */
  function ReCreateContainer(o: Oracle, st: St, i: nat): (r: (Result<nat>, St))
    requires i < |st.services|
    ensures SameDeclarations(st.services, r.1.services)
    ensures Grows(st.world, r.1.world)
    ensures
      var name := st.services[i].name;
      var listed := St(st.services, Record(st.world, ListCall));
      && (FaultAt(o.faults, st.world).Some? ==>
            r == (Err(ApiFailure(ListCall, FaultAt(o.faults, st.world).value)), listed))
      && (FaultAt(o.faults, st.world).None? && NamedId(st.world.containers, name).None? ==>
            r == CreateContainer(o, listed, i))
      && (FaultAt(o.faults, st.world).None? && NamedId(st.world.containers, name).Some? ==>
            r == Replace(o, listed, i, NamedId(st.world.containers, name).value))
    // on success the service's name resolves to a new container, and to
    // that container only
    ensures r.0.Ok? ==>
      && SoleHolder(r.1.world.containers, st.services[i].name, r.0.value)
      && st.world.nextId <= r.0.value < r.1.world.nextId
    ensures r.1.world.nextId >= st.world.nextId
    ensures WellFormed(st.world) ==> WellFormed(r.1.world)
  {
    var found := GetContainer(o, st.world, st.services[i].name);
    var w1 := found.1;
    var r :=
      if found.0.Err? then (Err(found.0.error), St(st.services, w1))
      else if found.0.value.None? then CreateContainer(o, St(st.services, w1), i)
      else Replace(o, St(st.services, w1), i, found.0.value.value);
    ListedKeeps(st.world, w1, r.1.world);
    r
  }

  /** A list request followed by more requests grew the runtime's trace,
      and it keeps the runtime well formed when what follows does. */
  lemma ListedKeeps(w: World, w1: World, w2: World)
    requires w1 == Record(w, ListCall) && Grows(w1, w2)
    requires WellFormed(w1) ==> WellFormed(w2)
    ensures Grows(w, w2)
    ensures WellFormed(w) ==> WellFormed(w2)
  {
  }

  /** Recreating a service that has no container lists, then creates one,
      and never stops or removes anything; the create is skipped only when
      annotating the environment crashes. */
  lemma ReCreateAbsent(o: Oracle, st: St, i: nat)
    requires i < |st.services|
    requires FaultAt(o.faults, st.world).None?
    requires NamedId(st.world.containers, st.services[i].name).None?
    ensures
      var r := ReCreateContainer(o, st, i);
      var t := Added(st.world, r.1.world);
      && 1 <= |t| <= 2 && ResolveOnly(t)
      && (t == [ListCall, CreateCall(BuildOptions(r.1.services[i]))]
          || (t == [ListCall] && r.0 == Err(EnvMissing(st.services[i].name))))
      && (r.0.Err? && |t| == 2 ==> r.0.error == ApiFailure(t[1], r.0.error.statusCode))
  {
    var st1 := St(st.services, Record(st.world, ListCall));
    var r := ReCreateContainer(o, st, i);
    assert r == CreateContainer(o, st1, i);
    if r.1.world.trace == st1.world.trace {
      AddedOf(st.world, r.1.world, [ListCall]);
    } else {
      ListThenCreate(st.world.trace, CreateCall(BuildOptions(r.1.services[i])));
      AddedOf(st.world, r.1.world, [ListCall, CreateCall(BuildOptions(r.1.services[i]))]);
    }
  }

  /** Recreating a service that has a container stops it, then removes it,
      then creates a new one: a stop error other than 304 aborts before the
      remove, and a remove error aborts before the create. */
  lemma ReCreateExisting(o: Oracle, st: St, i: nat)
    requires i < |st.services|
    requires FaultAt(o.faults, st.world).None?
    requires NamedId(st.world.containers, st.services[i].name).Some?
    ensures
      var r := ReCreateContainer(o, st, i);
      var id := NamedId(st.world.containers, st.services[i].name).value;
      var t := Added(st.world, r.1.world);
      && (t == [ListCall, StopCall(id)] || t == [ListCall, StopCall(id), RemoveCall(id)]
          || t == [ListCall, StopCall(id), RemoveCall(id), CreateCall(BuildOptions(r.1.services[i]))])
      && (t == [ListCall, StopCall(id)] ==>
            r.0.Err? && r.0.error.ApiFailure? && r.0.error.call == StopCall(id) && r.0.error.statusCode != NotModified)
      && (r.0.Err? && r.0.error.ApiFailure? && r.0.error.call == RemoveCall(id) ==>
            t == [ListCall, StopCall(id), RemoveCall(id)])
      // which step ends the replacement is decided by the runtime's answers
      && var stop := StopStep(o.faults, Record(st.world, ListCall), id);
         var removed := RemoveStep(o.faults, stop.1, id);
         && (t == [ListCall, StopCall(id)] <==> !Settled(stop.0))
         && (Settled(stop.0) && removed.0.Rejected? <==>
               r.0.Err? && r.0.error.ApiFailure? && r.0.error.call == RemoveCall(id))
         && (Settled(stop.0) && removed.0.Rejected? ==> r.0.error.statusCode == removed.0.statusCode)
  {
    var name := st.services[i].name;
    var id := NamedId(st.world.containers, name).value;
    var found := GetContainer(o, st.world, name);
    assert found.0 == Ok(Some(id));
    var w1 := found.1;
    var r := Replace(o, St(st.services, w1), i, id);
    assert ReCreateContainer(o, st, i) == r;
    ReplaceAdded(o, St(st.services, w1), i, id);
    var x := Added(w1, r.1.world);
    ListThen(st.world, w1, r.1.world, x);
    ListPrefixed(x, StopCall(id), RemoveCall(id), CreateCall(BuildOptions(r.1.services[i])));
  }

  /** A list request in front of one, two or three requests. */
  lemma ListPrefixed(x: seq<Call>, a: Call, b: Call, c: Call)
    ensures [ListCall] + x == [ListCall, a] <==> x == [a]
    ensures [ListCall] + x == [ListCall, a, b] <==> x == [a, b]
    ensures [ListCall] + x == [ListCall, a, b, c] <==> x == [a, b, c]
  {
    if [ListCall] + x == [ListCall, a] || [ListCall] + x == [ListCall, a, b] || [ListCall] + x == [ListCall, a, b, c] {
      assert x == ([ListCall] + x)[1..];
    }
  }

  /** The requests of replacing a container: a stop, then a remove, then a
      create, cut short by the first error. */
  lemma ReplaceAdded(o: Oracle, st: St, i: nat, id: nat)
    requires i < |st.services|
    ensures
      var r := Replace(o, st, i, id);
      var x := Added(st.world, r.1.world);
      && r.1.world.trace == st.world.trace + x
      && (x == [StopCall(id)] || x == [StopCall(id), RemoveCall(id)]
          || x == [StopCall(id), RemoveCall(id), CreateCall(BuildOptions(r.1.services[i]))])
      && (x == [StopCall(id)] ==>
            r.0.Err? && r.0.error.ApiFailure? && r.0.error.call == StopCall(id) && r.0.error.statusCode != NotModified)
      && (r.0.Err? && r.0.error.ApiFailure? && r.0.error.call == RemoveCall(id) ==>
            x == [StopCall(id), RemoveCall(id)])
  {
    var r := Replace(o, st, i, id);
    if r.1.world.trace == st.world.trace + [StopCall(id)] {
      AddedOf(st.world, r.1.world, [StopCall(id)]);
    } else if r.1.world.trace == st.world.trace + [StopCall(id), RemoveCall(id)] {
      AddedOf(st.world, r.1.world, [StopCall(id), RemoveCall(id)]);
    } else {
      AddedOf(st.world, r.1.world, [StopCall(id), RemoveCall(id), CreateCall(BuildOptions(r.1.services[i]))]);
    }
  }

  /** A list request, then the requests `x`. */
  lemma ListThen(w0: World, w1: World, w2: World, x: seq<Call>)
    requires w1.trace == w0.trace + [ListCall]
    requires w2.trace == w1.trace + x
    ensures Added(w0, w2) == [ListCall] + x
  {
    SeqAssoc(w0.trace, [ListCall], x);
    AddedOf(w0, w2, [ListCall] + x);
  }

  /** Whatever happens, `reCreateContainer` lists first, creates only as
      its last request and only for its own service, and never pulls or
      starts. */
  lemma ReCreateCalls(o: Oracle, st: St, i: nat)
    requires i < |st.services|
    ensures
      var r := ReCreateContainer(o, st, i);
      var t := Added(st.world, r.1.world);
      && |t| >= 1 && t[0] == ListCall
      && NoStarts(t) && NoPulls(t)
      && (forall k :: 0 <= k < |t| && t[k].CreateCall? ==> k == |t| - 1 && t[k].opts.name == st.services[i].name)
  {
    var found := GetContainer(o, st.world, st.services[i].name);
    var st1 := St(st.services, found.1);
    var r := ReCreateContainer(o, st, i);
    var name := st.services[i].name;
    if found.0.Err? {
      assert r.1.world.trace == st1.world.trace + [];
      ListThenTail(st.world, st1.world, r.1.world, [], name);
    } else if found.0.value.None? {
      assert r == CreateContainer(o, st1, i);
      CreateTail(o, st1, i);
      ListThenTail(st.world, st1.world, r.1.world, Added(st1.world, r.1.world), name);
    } else {
      assert r == Replace(o, st1, i, found.0.value.value);
      ReplaceTail(o, st1, i, found.0.value.value);
      ListThenTail(st.world, st1.world, r.1.world, Added(st1.world, r.1.world), name);
    }
  }

  /** Stops and removes, then at most one create, last, for service `name`. */
  predicate TeardownThenCreate(x: seq<Call>, name: string)
  {
    forall k :: 0 <= k < |x| ==>
      || x[k].StopCall? || x[k].RemoveCall?
      || (k == |x| - 1 && x[k].CreateCall? && x[k].opts.name == name)
  }

  /** A list request followed by stops, removes and a last create. */
  lemma ListThenTail(w0: World, w1: World, w2: World, x: seq<Call>, name: string)
    requires w1.trace == w0.trace + [ListCall]
    requires w2.trace == w1.trace + x
    requires TeardownThenCreate(x, name)
    ensures
      var t := Added(w0, w2);
      && |t| >= 1 && t[0] == ListCall
      && NoStarts(t) && NoPulls(t)
      && (forall k :: 0 <= k < |t| && t[k].CreateCall? ==> k == |t| - 1 && t[k].opts.name == name)
  {
    ListThen(w0, w1, w2, x);
    var t := [ListCall] + x;
    assert forall k :: 1 <= k < |t| ==> t[k] == x[k - 1];
  }

  /** The requests of a `createContainer`: at most one create, of its own
      service. */
  lemma CreateTail(o: Oracle, st: St, i: nat)
    requires i < |st.services|
    ensures
      var r := CreateContainer(o, st, i);
      && r.1.world.trace == st.world.trace + Added(st.world, r.1.world)
      && TeardownThenCreate(Added(st.world, r.1.world), st.services[i].name)
  {
    var r := CreateContainer(o, st, i);
    if r.1.world.trace == st.world.trace {
      AddedOf(st.world, r.1.world, []);
    } else {
      AddedOf(st.world, r.1.world, [CreateCall(BuildOptions(r.1.services[i]))]);
    }
  }

  /** The requests of a stop-remove-create: stops and removes, then at
      most one create, of its own service. */
  lemma ReplaceTail(o: Oracle, st: St, i: nat, id: nat)
    requires i < |st.services|
    ensures
      var r := Replace(o, st, i, id);
      && r.1.world.trace == st.world.trace + Added(st.world, r.1.world)
      && TeardownThenCreate(Added(st.world, r.1.world), st.services[i].name)
  {
    var r := Replace(o, st, i, id);
    if r.1.world.trace == st.world.trace + [StopCall(id)] {
      AddedOf(st.world, r.1.world, [StopCall(id)]);
    } else if r.1.world.trace == st.world.trace + [StopCall(id), RemoveCall(id)] {
      AddedOf(st.world, r.1.world, [StopCall(id), RemoveCall(id)]);
    } else {
      AddedOf(st.world, r.1.world, [StopCall(id), RemoveCall(id), CreateCall(BuildOptions(r.1.services[i]))]);
    }
  }

  /** The requests since `w0` split at an intermediate state. */
  lemma AddedSplit(w0: World, w1: World, w2: World)
    requires Grows(w0, w1) && Grows(w1, w2)
    ensures Grows(w0, w2)
    ensures Added(w0, w2) == Added(w0, w1) + Added(w1, w2)
  {
    assert w1.trace == w0.trace + Added(w0, w1);
    assert w2.trace == w1.trace + Added(w1, w2);
    assert w2.trace == w0.trace + (Added(w0, w1) + Added(w1, w2));
  }

  lemma PrefixTrans(a: seq<Container>, b: seq<Container>, c: seq<Container>)
    requires |a| <= |b| && b[..|a|] == a
    requires |b| <= |c| && c[..|b|] == b
    ensures |a| <= |c| && c[..|a|] == a
  {
    assert c[..|a|] == c[..|b|][..|a|];
  }

  /** The names of the services at the given positions. */
  function NamesAt(services: seq<Service>, idx: seq<nat>): set<string>
    requires forall j :: 0 <= j < |idx| ==> idx[j] < |services|
  {
    set j | 0 <= j < |idx| :: services[idx[j]].name
  }

  /** `reCreateContainers`: recreate the given services one after the
      other, stopping at the first error. */
  function ReCreateAll(o: Oracle, st: St, idx: seq<nat>): (r: (Result<seq<nat>>, St))
    requires forall j :: 0 <= j < |idx| ==> idx[j] < |st.services|
    ensures SameDeclarations(st.services, r.1.services)
    ensures Grows(st.world, r.1.world)
    ensures r.0.Ok? ==> |r.0.value| == |idx|
    ensures idx == [] ==> r == (Ok([]), st)
    ensures r.1.world.nextId >= st.world.nextId
    ensures WellFormed(st.world) ==> WellFormed(r.1.world)
    decreases |idx|
  {
    if |idx| == 0 then (Ok([]), st)
    else
      var head := ReCreateContainer(o, st, idx[0]);
      if head.0.Err? then (Err(head.0.error), head.1)
      else
        var tail := ReCreateAll(o, head.1, idx[1..]);
        (if tail.0.Err? then tail.0 else Ok([head.0.value] + tail.0.value), tail.1)
  }

  /** The recreate phase never pulls and never starts, and it creates
      containers only for the services it was given. */
  lemma {:induction false} ReCreateAllCalls(o: Oracle, st: St, idx: seq<nat>)
    requires forall j :: 0 <= j < |idx| ==> idx[j] < |st.services|
    ensures CreatesOnlyFor(Added(st.world, ReCreateAll(o, st, idx).1.world), NamesAt(st.services, idx))
    decreases |idx|
  {
    if |idx| > 0 {
      var head := ReCreateContainer(o, st, idx[0]);
      if head.0.Ok? {
        ReCreateAllCalls(o, head.1, idx[1..]);
      }
      ReCreateAllCallsStep(o, st, idx);
    }
  }

  /** No start, no pull, and creates only for the services named. */
  predicate CreatesOnlyFor(t: seq<Call>, names: set<string>)
  {
    && NoStarts(t) && NoPulls(t)
    && forall k :: 0 <= k < |t| && t[k].CreateCall? ==> t[k].opts.name in names
  }

  lemma CreatesOnlyForConcat(a: seq<Call>, b: seq<Call>, names: set<string>)
    requires CreatesOnlyFor(a, names) && CreatesOnlyFor(b, names)
    ensures CreatesOnlyFor(a + b, names)
  {
    assert forall k :: |a| <= k < |a + b| ==> (a + b)[k] == b[k - |a|];
  }

  /** The requests of the first service's recreation, then the others'. */
  lemma ReCreateAllCallsStep(o: Oracle, st: St, idx: seq<nat>)
    requires 0 < |idx| && forall j :: 0 <= j < |idx| ==> idx[j] < |st.services|
    requires
      var head := ReCreateContainer(o, st, idx[0]);
      head.0.Ok? ==>
        CreatesOnlyFor(Added(head.1.world, ReCreateAll(o, head.1, idx[1..]).1.world), NamesAt(head.1.services, idx[1..]))
    ensures CreatesOnlyFor(Added(st.world, ReCreateAll(o, st, idx).1.world), NamesAt(st.services, idx))
  {
    var head := ReCreateContainer(o, st, idx[0]);
    var st1 := head.1;
    var names := NamesAt(st.services, idx);
    ReCreateCalls(o, st, idx[0]);
    assert st.services[idx[0]].name in names;
    var t1 := Added(st.world, st1.world);
    assert CreatesOnlyFor(t1, names);
    if head.0.Ok? {
      var st2 := ReCreateAll(o, st1, idx[1..]).1;
      assert ReCreateAll(o, st, idx).1 == st2;
      forall j | 0 <= j < |idx| - 1
        ensures st1.services[idx[1..][j]].name in names
      {
        assert st1.services[idx[j + 1]].name == st.services[idx[j + 1]].name;
      }
      AddedSplit(st.world, st1.world, st2.world);
      CreatesOnlyForConcat(t1, Added(st1.world, st2.world), names);
    } else {
      assert ReCreateAll(o, st, idx).1 == st1;
    }
  }

  /** `checkContainer`: resolve the service's container, creating one
      only when none is found. The id returned is the one the service's
      name resolves to afterwards. */
  function CheckContainer(o: Oracle, st: St, i: nat): (r: (Result<nat>, St))
    requires i < |st.services|
    ensures SameDeclarations(st.services, r.1.services)
    ensures r.1.world.trace == st.world.trace + [ListCall]
         || r.1.world.trace == st.world.trace + [ListCall, CreateCall(BuildOptions(r.1.services[i]))]
    ensures r.1.world.nextId >= st.world.nextId
    ensures |st.world.containers| <= |r.1.world.containers|
    ensures r.1.world.containers[..|st.world.containers|] == st.world.containers
    ensures r.0.Ok? ==> NamedId(r.1.world.containers, st.services[i].name) == Some(r.0.value)
    // an existing container is used as it is
    ensures FaultAt(o.faults, st.world).None? && NamedId(st.world.containers, st.services[i].name).Some? ==>
      r == (Ok(NamedId(st.world.containers, st.services[i].name).value), St(st.services, Record(st.world, ListCall)))
    // an absent one is created
    ensures FaultAt(o.faults, st.world).None? && NamedId(st.world.containers, st.services[i].name).None? ==>
      r.0 == Err(EnvMissing(st.services[i].name))
      || r.1.world.trace == st.world.trace + [ListCall, CreateCall(BuildOptions(r.1.services[i]))]
    ensures FaultAt(o.faults, st.world).None? && NamedId(st.world.containers, st.services[i].name).None? ==>
      r == CreateContainer(o, St(st.services, Record(st.world, ListCall)), i)
    // a refused list ends with its error and nothing else is requested
    ensures FaultAt(o.faults, st.world).Some? ==>
      r == (Err(ApiFailure(ListCall, FaultAt(o.faults, st.world).value)), St(st.services, Record(st.world, ListCall)))
    ensures WellFormed(st.world) ==> WellFormed(r.1.world)
  {
    var found := GetContainer(o, st.world, st.services[i].name);
    var st1 := St(st.services, found.1);
    if found.0.Err? then (Err(found.0.error), st1)
    else if found.0.value.None? then
      var created := CreateContainer(o, st1, i);
      ListThenCreate(st.world.trace, CreateCall(BuildOptions(created.1.services[i])));
      created
    else (Ok(found.0.value.value), st1)
  }

  /** A list, then a create. */
  lemma ListThenCreate(a: seq<Call>, c: Call)
    ensures a + [ListCall] + [c] == a + [ListCall, c]
  {
  }

  /** The positions 0 .. n-1. */
  function Indices(n: nat): (idx: seq<nat>)
    ensures |idx| == n && forall k :: 0 <= k < n ==> idx[k] == k
  {
    seq(n, k => k)
  }

  /** The first `mapSeries` of `checkContainers`: resolve or create a
      container for each given service, stopping at the first error. */
  function ResolveAll(o: Oracle, st: St, idx: seq<nat>): (r: (Result<seq<nat>>, St))
    requires forall j :: 0 <= j < |idx| ==> idx[j] < |st.services|
    ensures SameDeclarations(st.services, r.1.services)
    ensures Grows(st.world, r.1.world)
    ensures r.1.world.nextId >= st.world.nextId
    ensures |st.world.containers| <= |r.1.world.containers|
    ensures r.1.world.containers[..|st.world.containers|] == st.world.containers
    ensures r.0.Ok? ==> |r.0.value| == |idx|
    ensures WellFormed(st.world) ==> WellFormed(r.1.world)
    decreases |idx|
  {
    if |idx| == 0 then (Ok([]), st)
    else
      var (first, st1) := CheckContainer(o, st, idx[0]);
      if first.Err? then (Err(first.error), st1)
      else
        var (rest, st2) := ResolveAll(o, st1, idx[1..]);
        PrefixTrans(st.world.containers, st1.world.containers, st2.world.containers);
        SameDeclarationsTrans(st.services, st1.services, st2.services);
        (if rest.Err? then rest else Ok([first.value] + rest.value), st2)
  }

  /** Resolving lists and creates, and does nothing else. */
  lemma {:induction false} ResolveAllCalls(o: Oracle, st: St, idx: seq<nat>)
    requires forall j :: 0 <= j < |idx| ==> idx[j] < |st.services|
    ensures ResolveOnly(Added(st.world, ResolveAll(o, st, idx).1.world))
    decreases |idx|
  {
    if |idx| > 0 {
      var head := CheckContainer(o, st, idx[0]);
      if head.0.Ok? {
        ResolveAllCalls(o, head.1, idx[1..]);
      }
      ResolveCallsStep(o, st, idx);
    }
  }

  /** The requests of the first service's resolution, then the others'. */
  lemma ResolveCallsStep(o: Oracle, st: St, idx: seq<nat>)
    requires 0 < |idx| && forall j :: 0 <= j < |idx| ==> idx[j] < |st.services|
    requires
      var head := CheckContainer(o, st, idx[0]);
      head.0.Ok? ==> ResolveOnly(Added(head.1.world, ResolveAll(o, head.1, idx[1..]).1.world))
    ensures ResolveOnly(Added(st.world, ResolveAll(o, st, idx).1.world))
  {
    var head := CheckContainer(o, st, idx[0]);
    var st1 := head.1;
    var t1 := Added(st.world, st1.world);
    CheckContainerCalls(o, st, idx[0]);
    if head.0.Ok? {
      var st2 := ResolveAll(o, st1, idx[1..]).1;
      assert ResolveAll(o, st, idx).1 == st2;
      AddedSplit(st.world, st1.world, st2.world);
      ResolveOnlyConcat(t1, Added(st1.world, st2.world));
    } else {
      assert ResolveAll(o, st, idx).1 == st1;
    }
  }

  /** Resolving one service lists, and creates at most one container. */
  lemma CheckContainerCalls(o: Oracle, st: St, i: nat)
    requires i < |st.services|
    ensures
      var w1 := CheckContainer(o, st, i).1.world;
      Grows(st.world, w1) && ResolveOnly(Added(st.world, w1))
  {
    var st1 := CheckContainer(o, st, i).1;
    if st1.world.trace == st.world.trace + [ListCall] {
      AddedOf(st.world, st1.world, [ListCall]);
    } else {
      AddedOf(st.world, st1.world, [ListCall, CreateCall(BuildOptions(st1.services[i]))]);
    }
  }

  lemma ResolveOnlyConcat(a: seq<Call>, b: seq<Call>)
    requires ResolveOnly(a) && ResolveOnly(b)
    ensures ResolveOnly(a + b)
  {
    assert forall k :: |a| <= k < |a + b| ==> (a + b)[k] == b[k - |a|];
  }

  /** Every id the resolving pass returns is the one its service's name
      resolves to once the pass is over. */
  lemma {:induction false} ResolveAllIds(o: Oracle, st: St, idx: seq<nat>)
    requires forall j :: 0 <= j < |idx| ==> idx[j] < |st.services|
    requires ResolveAll(o, st, idx).0.Ok?
    ensures
      var r := ResolveAll(o, st, idx);
      forall j :: 0 <= j < |idx| ==> NamedId(r.1.world.containers, st.services[idx[j]].name) == Some(r.0.value[j])
    decreases |idx|
  {
    if |idx| > 0 {
      var head := CheckContainer(o, st, idx[0]);
      assert head.0.Ok?;
      ResolveAllIds(o, head.1, idx[1..]);
      ResolveIdsStep(o, st, idx);
    }
  }

  /** The ids of the first service and of the others, together. */
  lemma ResolveIdsStep(o: Oracle, st: St, idx: seq<nat>)
    requires 0 < |idx| && forall j :: 0 <= j < |idx| ==> idx[j] < |st.services|
    requires CheckContainer(o, st, idx[0]).0.Ok?
    requires
      var head := CheckContainer(o, st, idx[0]);
      var tail := ResolveAll(o, head.1, idx[1..]);
      && tail.0.Ok?
      && forall j :: 0 <= j < |idx[1..]| ==>
           NamedId(tail.1.world.containers, head.1.services[idx[1..][j]].name) == Some(tail.0.value[j])
    ensures
      var r := ResolveAll(o, st, idx);
      && r.0.Ok?
      && forall j :: 0 <= j < |idx| ==> NamedId(r.1.world.containers, st.services[idx[j]].name) == Some(r.0.value[j])
  {
    var head := CheckContainer(o, st, idx[0]);
    var tail := ResolveAll(o, head.1, idx[1..]);
    var cs := tail.1.world.containers;
    assert ResolveAll(o, st, idx) == (Ok([head.0.value] + tail.0.value), tail.1);
    FindByNameExtend(head.1.world.containers, cs, st.services[idx[0]].name);
    NamedIdsCons(cs, st.services, head.1.services, idx, head.0.value, tail.0.value);
  }

  /** Names resolving to the first id and to the other ids resolve to all
      of them; the names are those of services with the same declarations. */
  lemma NamedIdsCons(cs: seq<Container>, services: seq<Service>, services': seq<Service>,
                     idx: seq<nat>, first: nat, rest: seq<nat>)
    requires 0 < |idx| && forall j :: 0 <= j < |idx| ==> idx[j] < |services|
    requires SameDeclarations(services, services')
    requires NamedId(cs, services[idx[0]].name) == Some(first)
    requires |rest| == |idx| - 1
    requires forall j :: 0 <= j < |idx[1..]| ==> NamedId(cs, services'[idx[1..][j]].name) == Some(rest[j])
    ensures forall j :: 0 <= j < |idx| ==> NamedId(cs, services[idx[j]].name) == Some(([first] + rest)[j])
  {
    forall j | 0 <= j < |idx|
      ensures NamedId(cs, services[idx[j]].name) == Some(([first] + rest)[j])
    {
      if j > 0 {
        assert idx[1..][j - 1] == idx[j];
        assert services'[idx[j]].name == services[idx[j]].name;
      }
    }
  }

  /** The start requests for the given ids, in order. */
  function StartCalls(ids: seq<nat>): (calls: seq<Call>)
    ensures |calls| == |ids|
    ensures forall k :: 0 <= k < |ids| ==> calls[k] == StartCall(ids[k])
  {
    if |ids| == 0 then [] else [StartCall(ids[0])] + StartCalls(ids[1..])
  }

  /** The second `mapSeries` of `checkContainers` (`checkRunning` on each
      container): start each container in order; a 304 answer counts as
      success, any other error aborts the remaining starts. Starting only
      ever sets containers running. */
  function StartAll(o: Oracle, w: World, ids: seq<nat>): (r: (Result<()>, World))
    ensures Grows(w, r.1) && r.1.nextId == w.nextId
    ensures StartedFrom(w.containers, r.1.containers)
    ensures r.0.Ok? ==> r.1.trace == w.trace + StartCalls(ids)
    decreases |ids|
  {
    if |ids| == 0 then (Ok(()), w)
    else
      var (started, w1) := StartStep(o.faults, w, ids[0]);
      if !Settled(started) then (Err(ApiFailure(StartCall(ids[0]), started.statusCode)), w1)
      else
        var r := StartAll(o, w1, ids[1..]);
        StartedFromTrans(w.containers, w1.containers, r.1.containers);
        StartTraceStep(w.trace, w1.trace, r.1.trace, ids);
        r
  }

  lemma StartTraceStep(t: seq<Call>, t1: seq<Call>, t2: seq<Call>, ids: seq<nat>)
    requires |ids| > 0 && t1 == t + [StartCall(ids[0])]
    ensures t2 == t1 + StartCalls(ids[1..]) ==> t2 == t + StartCalls(ids)
  {
    var rest := StartCalls(ids[1..]);
    assert StartCalls(ids) == [StartCall(ids[0])] + rest;
    SeqAssoc(t, [StartCall(ids[0])], rest);
  }

  lemma StartedFromTrans(a: seq<Container>, b: seq<Container>, c: seq<Container>)
    requires StartedFrom(a, b) && StartedFrom(b, c)
    ensures StartedFrom(a, c)
  {
    forall k | 0 <= k < |a|
      ensures c[k].id == a[k].id && c[k].names == a[k].names && (a[k].running ==> c[k].running)
    {
      assert b[k].id == a[k].id && b[k].names == a[k].names && (a[k].running ==> b[k].running);
    }
  }

  /** A start error other than 304 aborts the remaining starts: the
      requests are the starts of the first `m` containers, for some `m`,
      and the error is the `m`-th start's. */
  lemma {:induction false} StartAllFailFast(o: Oracle, w: World, ids: seq<nat>)
    requires StartAll(o, w, ids).0.Err?
    ensures
      var r := StartAll(o, w, ids);
      var m := |Added(w, r.1)|;
      && 1 <= m <= |ids|
      && Added(w, r.1) == StartCalls(ids[..m])
      && r.0.error.ApiFailure? && r.0.error.call == StartCall(ids[m - 1])
      && r.0.error.statusCode != NotModified
    decreases |ids|
  {
    var r := StartAll(o, w, ids);
    var (started, w1) := StartStep(o.faults, w, ids[0]);
    if !Settled(started) {
      assert Added(w, r.1) == [StartCall(ids[0])];
      assert StartCalls(ids[..1]) == [StartCall(ids[0])];
    } else {
      StartAllFailFast(o, w1, ids[1..]);
      var m := |Added(w1, r.1)|;
      AddedSplit(w, w1, r.1);
      assert Added(w, w1) == [StartCall(ids[0])];
      assert ids[..m + 1][1..] == ids[1..][..m];
      assert StartCalls(ids[..m + 1]) == [StartCall(ids[0])] + StartCalls(ids[1..][..m]);
    }
  }

  /** `checkContainers`: first resolve or create a container for every
      declared service, then start each of them in order. */
  function CheckContainers(o: Oracle, st: St): (r: (Result<()>, St))
    ensures SameDeclarations(st.services, r.1.services)
    ensures Grows(st.world, r.1.world)
  {
    var (ids, st1) := ResolveAll(o, st, Indices(|st.services|));
    if ids.Err? then (Err(ids.error), st1)
    else
      var (started, w2) := StartAll(o, st1.world, ids.value);
      (started, St(st1.services, w2))
  }

  /** Starting containers does not change what a name resolves to. */
  lemma NamedIdStarted(cs: seq<Container>, cs': seq<Container>, name: string)
    requires StartedFrom(cs, cs')
    ensures NamedId(cs', name) == NamedId(cs, name)
  {
    FindByNameSameNames(cs, cs', name);
  }

  /** Lists and creates followed by starts: no stop, no remove, no pull,
      and nothing but starts after the first start. */
  lemma ResolveThenStart(t1: seq<Call>, t2: seq<Call>)
    requires ResolveOnly(t1) && OnlyStarts(t2)
    ensures NoTeardown(t1 + t2) && NoPulls(t1 + t2) && StartsLast(t1 + t2)
  {
    assert forall k :: 0 <= k < |t1| ==> (t1 + t2)[k] == t1[k];
    assert forall k :: |t1| <= k < |t1 + t2| ==> (t1 + t2)[k] == t2[k - |t1|];
  }

  /** A failed resolve pass ends the ensure-running phase with its error
      where the pass stopped: no container is started. */
  lemma CheckContainersResolveFailure(o: Oracle, st: St)
    requires ResolveAll(o, st, Indices(|st.services|)).0.Err?
    ensures
      var resolved := ResolveAll(o, st, Indices(|st.services|));
      && CheckContainers(o, st) == (Err(resolved.0.error), resolved.1)
      && ResolveOnly(Added(st.world, resolved.1.world))
  {
    ResolveAllCalls(o, st, Indices(|st.services|));
  }

  /** The ensure-running phase never stops, removes or pulls, and issues
      all its starts after all its lists and creates. */
  lemma CheckContainersCalls(o: Oracle, st: St)
    ensures
      var t := Added(st.world, CheckContainers(o, st).1.world);
      NoTeardown(t) && NoPulls(t) && StartsLast(t)
  {
    var idx := Indices(|st.services|);
    var head := ResolveAll(o, st, idx);
    ResolveAllCalls(o, st, idx);
    var t1 := Added(st.world, head.1.world);
    if head.0.Err? {
      assert CheckContainers(o, st).1 == head.1;
      ResolveThenStart(t1, []);
      assert t1 + [] == t1;
    } else {
      assert CheckContainers(o, st).1.world == StartAll(o, head.1.world, head.0.value).1;
      StartPhaseCalls(o, st.world, head.1.world, head.0.value);
    }
  }

  /** Resolving followed by the start phase: the starts come last. */
  lemma StartPhaseCalls(o: Oracle, w0: World, w1: World, ids: seq<nat>)
    requires Grows(w0, w1) && ResolveOnly(Added(w0, w1))
    ensures
      var t := Added(w0, StartAll(o, w1, ids).1);
      NoTeardown(t) && NoPulls(t) && StartsLast(t)
  {
    var r := StartAll(o, w1, ids);
    if r.0.Err? {
      StartAllFailFast(o, w1, ids);
    }
    assert OnlyStarts(Added(w1, r.1));
    AddedSplit(w0, w1, r.1);
    ResolveThenStart(Added(w0, w1), Added(w1, r.1));
  }

  /** `t` ends with one start per service, in declaration order, each of
      the container the service's name resolves to in `cs`. */
  predicate StartedInOrder(t: seq<Call>, cs: seq<Container>, services: seq<Service>)
  {
    && |t| >= |services|
    && forall j :: 0 <= j < |services| ==>
         && NamedId(cs, services[j].name).Some?
         && t[|t| - |services| + j] == StartCall(NamedId(cs, services[j].name).value)
  }

  lemma StartedInOrderPrefixed(a: seq<Call>, t: seq<Call>, cs: seq<Container>, services: seq<Service>)
    requires StartedInOrder(t, cs, services)
    ensures StartedInOrder(a + t, cs, services)
  {
    assert forall k :: |a| <= k < |a + t| ==> (a + t)[k] == t[k - |a|];
  }

  /** Only the names of the services matter. */
  lemma StartedInOrderNames(t: seq<Call>, cs: seq<Container>, services: seq<Service>, services': seq<Service>)
    requires StartedInOrder(t, cs, services)
    requires SameDeclarations(services', services)
    ensures StartedInOrder(t, cs, services')
  {
    assert forall j :: 0 <= j < |services| ==> services[j].name == services'[j].name;
  }

  /** The ensure-running phase when its resolving pass succeeds. */
  lemma CheckContainersResolved(o: Oracle, st: St)
    requires ResolveAll(o, st, Indices(|st.services|)).0.Ok?
    ensures
      var resolved := ResolveAll(o, st, Indices(|st.services|));
      CheckContainers(o, st) == (StartAll(o, resolved.1.world, resolved.0.value).0,
                                 St(resolved.1.services, StartAll(o, resolved.1.world, resolved.0.value).1))
  {
  }

  /** When the ensure-running phase succeeds, every declared service's name
      resolves to a container, and the phase's last requests are one start
      per service, in declaration order, each of the container the
      service's name resolves to. */
  lemma CheckContainersStarts(o: Oracle, st: St)
    requires CheckContainers(o, st).0.Ok?
    ensures
      var r := CheckContainers(o, st);
      StartedInOrder(Added(st.world, r.1.world), r.1.world.containers, st.services)
  {
    var n := |st.services|;
    var idx := Indices(n);
    var resolved := ResolveAll(o, st, idx);
    assert resolved.0.Ok?;
    CheckContainersResolved(o, st);
    var ids := resolved.0.value;
    var w1 := resolved.1.world;
    var w2 := StartAll(o, w1, ids).1;
    assert StartAll(o, w1, ids).0.Ok?;
    ResolveAllIds(o, st, idx);
    forall j | 0 <= j < n
      ensures NamedId(w2.containers, st.services[j].name) == Some(ids[j])
    {
      assert idx[j] == j;
      NamedIdStarted(w1.containers, w2.containers, st.services[j].name);
    }
    StartCallsInOrder(ids, w2.containers, st.services);
    AddedSplit(st.world, w1, w2);
    StartedInOrderPrefixed(Added(st.world, w1), Added(w1, w2), w2.containers, st.services);
  }

  lemma StartCallsInOrder(ids: seq<nat>, cs: seq<Container>, services: seq<Service>)
    requires |ids| == |services|
    requires forall j :: 0 <= j < |services| ==> NamedId(cs, services[j].name) == Some(ids[j])
    ensures StartedInOrder(StartCalls(ids), cs, services)
  {
  }

  lemma SameDeclarationsTrans(a: seq<Service>, b: seq<Service>, c: seq<Service>)
    requires SameDeclarations(a, b) && SameDeclarations(b, c)
    ensures SameDeclarations(a, c)
  {
    forall j | 0 <= j < |a|
      ensures c[j] == a[j].(env := c[j].env)
    {
      assert b[j] == a[j].(env := b[j].env);
      assert c[j] == b[j].(env := c[j].env);
    }
  }

  /** The phases after a successful pull phase: recreate the services
      whose image changed, then ensure every service runs. */
  function Deploy(o: Oracle, st: St, results: seq<bool>): (r: (Result<()>, St))
    requires |results| == |st.services|
    ensures SameDeclarations(st.services, r.1.services)
    ensures Grows(st.world, r.1.world)
  {
    var (recreated, st2) := ReCreateAll(o, st, Fetched(results));
    if recreated.Err? then (Err(recreated.error), st2)
    else
      var r := CheckContainers(o, st2);
      SameDeclarationsTrans(st.services, st2.services, r.1.services);
      r
  }

  /** The reconciliation run (`main`'s waterfall): the pull phase over all
      declared services, then the recreate phase over the services whose
      image changed, then the ensure-running phase over all declared
      services. Each phase runs only if the one before succeeded. */
  function Reconcile(o: Oracle, st: St): (r: (Result<()>, St))
    ensures SameDeclarations(st.services, r.1.services)
    ensures Grows(st.world, r.1.world)
  {
    var (pulled, w1) := PullAll(o, st.world, st.services);
    if pulled.Err? then (Err(pulled.error), St(st.services, w1))
    else Deploy(o, St(st.services, w1), pulled.value)
  }

  /** Requests that are neither pulls nor starts, then requests without
      pulls whose starts come last. */
  lemma StartsAfterTeardown(tr: seq<Call>, tc: seq<Call>)
    requires NoPulls(tr) && NoStarts(tr)
    requires NoPulls(tc) && StartsLast(tc)
    ensures NoPulls(tr + tc) && StartsLast(tr + tc)
  {
    assert forall k :: 0 <= k < |tr| ==> (tr + tc)[k] == tr[k];
    assert forall k :: |tr| <= k < |tr + tc| ==> (tr + tc)[k] == tc[k - |tr|];
  }

  /** Pulls, then requests without pulls whose starts come last. */
  lemma PullsThenRest(tp: seq<Call>, td: seq<Call>)
    requires OnlyPulls(tp)
    requires NoPulls(td) && StartsLast(td)
    ensures PullsFirst(tp + td) && StartsLast(tp + td)
  {
    assert forall k :: 0 <= k < |tp| ==> (tp + td)[k] == tp[k];
    assert forall k :: |tp| <= k < |tp + td| ==> (tp + td)[k] == td[k - |tp|];
  }

  /** After the pull phase: requests that are neither pulls nor starts,
      then nothing but starts. */
  lemma DeployCalls(o: Oracle, st: St, results: seq<bool>)
    requires |results| == |st.services|
    ensures
      var t := Added(st.world, Deploy(o, st, results).1.world);
      NoPulls(t) && StartsLast(t)
  {
    var r := Deploy(o, st, results);
    var fetched := Fetched(results);
    var (recreated, st2) := ReCreateAll(o, st, fetched);
    ReCreateAllCalls(o, st, fetched);
    var tr := Added(st.world, st2.world);
    if recreated.Err? {
      assert r.1 == st2;
      StartsAfterTeardown(tr, []);
      assert tr + [] == tr;
    } else {
      assert r == CheckContainers(o, st2);
      CheckContainersCalls(o, st2);
      var tc := Added(st2.world, r.1.world);
      AddedSplit(st.world, st2.world, r.1.world);
      StartsAfterTeardown(tr, tc);
    }
  }

  /** Phase ordering: in a run, no pull follows any other request, and
      nothing but starts follows a start. */
  lemma ReconcileOrder(o: Oracle, st: St)
    ensures
      var t := Added(st.world, Reconcile(o, st).1.world);
      PullsFirst(t) && StartsLast(t)
  {
    var r := Reconcile(o, st);
    var (pulled, w1) := PullAll(o, st.world, st.services);
    var tp := Added(st.world, w1);
    if pulled.Err? {
      assert r.1.world == w1;
      PullsThenRest(tp, []);
      assert tp + [] == tp;
    } else {
      var st1 := St(st.services, w1);
      assert r == Deploy(o, st1, pulled.value);
      DeployCalls(o, st1, pulled.value);
      var td := Added(w1, r.1.world);
      AddedSplit(st.world, w1, r.1.world);
      PullsThenRest(tp, td);
    }
  }

  /** A failed pull phase ends the run with its error: the runtime
      received only pulls, and no container or environment changed. */
  lemma ReconcilePullFailure(o: Oracle, st: St)
    requires PullAll(o, st.world, st.services).0.Err?
    ensures
      var r := Reconcile(o, st);
      && r.0 == Err(PullAll(o, st.world, st.services).0.error)
      && r.1.services == st.services
      && r.1.world.containers == st.world.containers
      && OnlyPulls(Added(st.world, r.1.world))
  {
  }

  /** A failed recreate phase ends the run with its error: the run stops
      where the recreate phase stopped, so nothing more is requested and no
      container is started. */
  lemma DeployRecreateFailure(o: Oracle, st: St, results: seq<bool>)
    requires |results| == |st.services|
    requires ReCreateAll(o, st, Fetched(results)).0.Err?
    ensures
      var r := Deploy(o, st, results);
      && r.0 == Err(ReCreateAll(o, st, Fetched(results)).0.error)
      && r.1 == ReCreateAll(o, st, Fetched(results)).1
      && NoStarts(Added(st.world, r.1.world))
  {
    ReCreateAllCalls(o, st, Fetched(results));
  }

  /** A run with an invalid service fails in the pull phase: it changes no
      container and annotates no environment. */
  lemma ReconcileRejectsInvalid(o: Oracle, st: St, j: nat)
    requires j < |st.services| && !ValidService(st.services[j])
    ensures
      var r := Reconcile(o, st);
      && r.0.Err?
      && r.1.services == st.services
      && r.1.world.containers == st.world.containers
      && OnlyPulls(Added(st.world, r.1.world))
  {
  }

  /** No pull reported a new image: nothing is fetched. */
  lemma {:induction false} NoneFetched(results: seq<bool>)
    requires forall k :: 0 <= k < |results| ==> !results[k]
    ensures Fetched(results) == []
  {
    if |results| > 0 {
      NoneFetched(results[..|results| - 1]);
    }
  }

  /** With no new image, the deployment only resolves and starts. */
  lemma DeployNothingFetched(o: Oracle, st: St, results: seq<bool>)
    requires |results| == |st.services|
    requires forall k :: 0 <= k < |results| ==> !results[k]
    ensures NoTeardown(Added(st.world, Deploy(o, st, results).1.world))
  {
    var fetched := Fetched(results);
    NoneFetched(results);
    assert ReCreateAll(o, st, fetched) == (Ok([]), st);
    assert Deploy(o, st, results) == CheckContainers(o, st);
    CheckContainersCalls(o, st);
  }

  /** A run whose pull phase succeeds goes on with the deployment. */
  lemma ReconcileAfterPull(o: Oracle, st: St)
    requires PullAll(o, st.world, st.services).0.Ok?
    ensures
      var pulled := PullAll(o, st.world, st.services);
      Reconcile(o, st) == Deploy(o, St(st.services, pulled.1), pulled.0.value)
  {
  }

  /** Recreate only on change: when no service's pull reports a new image,
      a run never stops or removes a container. */
  lemma ReconcileNothingFetched(o: Oracle, st: St)
    requires forall j :: 0 <= j < |st.services| ==> Verdict(o, st.services[j]) != Ok(true)
    ensures NoTeardown(Added(st.world, Reconcile(o, st).1.world))
  {
    var pulled := PullAll(o, st.world, st.services);
    var w1 := pulled.1;
    var tp := Added(st.world, w1);
    assert OnlyPulls(tp);
    if pulled.0.Err? {
      assert Reconcile(o, st).1.world == w1;
    } else {
      var st1 := St(st.services, w1);
      ReconcileAfterPull(o, st);
      PullAllNoneNew(o, st.world, st.services);
      DeployNothingFetched(o, st1, pulled.0.value);
      var w2 := Deploy(o, st1, pulled.0.value).1.world;
      AddedSplit(st.world, w1, w2);
      NoTeardownConcat(tp, Added(w1, w2));
    }
  }

  lemma NoTeardownConcat(a: seq<Call>, b: seq<Call>)
    requires NoTeardown(a) && NoTeardown(b)
    ensures NoTeardown(a + b)
  {
    assert forall k :: |a| <= k < |a + b| ==> (a + b)[k] == b[k - |a|];
  }

  /** A successful deployment ended by starting, in declaration order, the
      container each service's name resolves to. */
  lemma DeployStarts(o: Oracle, st: St, results: seq<bool>)
    requires |results| == |st.services|
    requires Deploy(o, st, results).0.Ok?
    ensures
      var r := Deploy(o, st, results);
      StartedInOrder(Added(st.world, r.1.world), r.1.world.containers, st.services)
  {
    var r := Deploy(o, st, results);
    var (recreated, st2) := ReCreateAll(o, st, Fetched(results));
    assert r == CheckContainers(o, st2);
    CheckContainersStarts(o, st2);
    AddedSplit(st.world, st2.world, r.1.world);
    StartedInOrderPrefixed(Added(st.world, st2.world), Added(st2.world, r.1.world), r.1.world.containers, st2.services);
    StartedInOrderNames(Added(st.world, r.1.world), r.1.world.containers, st2.services, st.services);
  }

  /** A successful run validated every service, and ended by starting, in
      declaration order, the container each service's name resolves to. */
  lemma ReconcileSuccess(o: Oracle, st: St)
    requires Reconcile(o, st).0.Ok?
    ensures forall j :: 0 <= j < |st.services| ==> ValidService(st.services[j])
    ensures
      var r := Reconcile(o, st);
      StartedInOrder(Added(st.world, r.1.world), r.1.world.containers, st.services)
  {
    var r := Reconcile(o, st);
    var (pulled, w1) := PullAll(o, st.world, st.services);
    assert pulled.Ok?;
    var st1 := St(st.services, w1);
    assert r == Deploy(o, st1, pulled.value);
    DeployStarts(o, st1, pulled.value);
    AddedSplit(st.world, w1, r.1.world);
    StartedInOrderPrefixed(Added(st.world, w1), Added(w1, r.1.world), r.1.world.containers, st.services);
  }

  /** The service named `name` has a container, and it is running. */
  predicate RunningAs(cs: seq<Container>, name: string)
  {
    FindByName(cs, name).Some? && cs[FindByName(cs, name).value].running
  }

  /** In a well-formed runtime an id names exactly one container. */
  lemma IndexOfUniqueId(w: World, k: nat)
    requires WellFormed(w) && k < |w.containers|
    ensures IndexOfId(w.containers, w.containers[k].id) == Some(k)
  {
  }

  /** `n` list requests. */
  function Lists(n: nat): (calls: seq<Call>)
    ensures |calls| == n && forall k :: 0 <= k < n ==> calls[k] == ListCall
  {
    seq(n, k => ListCall)
  }

  /** Without faults, resolving services that all have a container finds
      them, issues one list per service and nothing else, and changes no
      container. */
  lemma {:induction false} ResolveAllFound(o: Oracle, st: St, idx: seq<nat>)
    requires o.faults == map[]
    requires forall j :: 0 <= j < |idx| ==> idx[j] < |st.services|
    requires forall j :: 0 <= j < |idx| ==> FindByName(st.world.containers, st.services[idx[j]].name).Some?
    ensures
      var r := ResolveAll(o, st, idx);
      && r.0.Ok?
      && r.1.services == st.services
      && r.1.world.containers == st.world.containers
      && r.1.world.nextId == st.world.nextId
      && r.1.world.trace == st.world.trace + Lists(|idx|)
      && forall j :: 0 <= j < |idx| ==> Some(r.0.value[j]) == NamedId(st.world.containers, st.services[idx[j]].name)
    decreases |idx|
  {
    if |idx| > 0 {
      var st1 := St(st.services, Record(st.world, ListCall));
      assert FaultAt(o.faults, st.world).None?;
      assert CheckContainer(o, st, idx[0]).1 == st1;
      forall j | 0 <= j < |idx| - 1
        ensures idx[1..][j] < |st1.services|
        ensures FindByName(st1.world.containers, st1.services[idx[1..][j]].name).Some?
      {
        assert idx[1..][j] == idx[j + 1];
      }
      ResolveAllFound(o, st1, idx[1..]);
      var tail := ResolveAll(o, st1, idx[1..]);
      ResolveFoundStep(o, st, idx, tail.0.value, tail.1);
    }
  }

  /** The first service's container, found, followed by the others'. */
  lemma ResolveFoundStep(o: Oracle, st: St, idx: seq<nat>, ids: seq<nat>, st2: St)
    requires o.faults == map[]
    requires 0 < |idx| && forall j :: 0 <= j < |idx| ==> idx[j] < |st.services|
    requires FindByName(st.world.containers, st.services[idx[0]].name).Some?
    requires ResolveAll(o, St(st.services, Record(st.world, ListCall)), idx[1..]) == (Ok(ids), st2)
    requires
      && st2.services == st.services
      && st2.world.containers == st.world.containers
      && st2.world.nextId == st.world.nextId
      && st2.world.trace == st.world.trace + [ListCall] + Lists(|idx| - 1)
      && forall j :: 0 <= j < |idx| - 1 ==> Some(ids[j]) == NamedId(st.world.containers, st.services[idx[1..][j]].name)
    ensures
      var r := ResolveAll(o, st, idx);
      && r.0.Ok?
      && r.1 == st2
      && st2.world.trace == st.world.trace + Lists(|idx|)
      && forall j :: 0 <= j < |idx| ==> Some(r.0.value[j]) == NamedId(st.world.containers, st.services[idx[j]].name)
  {
    var cs := st.world.containers;
    var first := NamedId(cs, st.services[idx[0]].name).value;
    assert FaultAt(o.faults, st.world).None?;
    assert CheckContainer(o, st, idx[0]) == (Ok(first), St(st.services, Record(st.world, ListCall)));
    assert ResolveAll(o, st, idx) == (Ok([first] + ids), st2);
    SeqAssoc(st.world.trace, [ListCall], Lists(|idx| - 1));
    assert Lists(|idx|) == [ListCall] + Lists(|idx| - 1);
    ResolvedCons(cs, st.services, idx, first, ids);
  }

  /** Resolving the first service to `first` and the others to `ids`
      resolves every service. */
  lemma ResolvedCons(cs: seq<Container>, services: seq<Service>, idx: seq<nat>, first: nat, ids: seq<nat>)
    requires 0 < |idx| && |ids| == |idx| - 1 && forall j :: 0 <= j < |idx| ==> idx[j] < |services|
    requires Some(first) == NamedId(cs, services[idx[0]].name)
    requires forall j :: 0 <= j < |idx| - 1 ==> Some(ids[j]) == NamedId(cs, services[idx[1..][j]].name)
    ensures forall j :: 0 <= j < |idx| ==> Some(([first] + ids)[j]) == NamedId(cs, services[idx[j]].name)
  {
    forall j | 0 <= j < |idx|
      ensures Some(([first] + ids)[j]) == NamedId(cs, services[idx[j]].name)
    {
      if j > 0 {
        assert idx[1..][j - 1] == idx[j];
      }
    }
  }

  /** Without faults, starting containers that all run already succeeds
      (every start answers 304) and changes nothing but the trace. */
  lemma {:induction false} StartAllRunning(o: Oracle, w: World, ids: seq<nat>)
    requires o.faults == map[]
    requires forall j :: 0 <= j < |ids| ==>
      IndexOfId(w.containers, ids[j]).Some? && w.containers[IndexOfId(w.containers, ids[j]).value].running
    ensures StartAll(o, w, ids).0.Ok?
    ensures StartAll(o, w, ids).1.containers == w.containers
    decreases |ids|
  {
    if |ids| > 0 {
      var (started, w1) := StartStep(o.faults, w, ids[0]);
      assert FaultAt(o.faults, w).None?;
      assert started == Rejected(NotModified);
      assert w1.containers == w.containers;
      forall j | 0 <= j < |ids| - 1
        ensures IndexOfId(w1.containers, ids[1..][j]).Some?
        ensures w1.containers[IndexOfId(w1.containers, ids[1..][j]).value].running
      {
        assert ids[1..][j] == ids[j + 1];
      }
      StartAllRunning(o, w1, ids[1..]);
    }
  }

  /** Without faults, the starts of the ensure-running phase over running
      containers all succeed. */
  lemma ResolvedRunning(o: Oracle, st: St)
    requires o.faults == map[]
    requires WellFormed(st.world)
    requires forall j :: 0 <= j < |st.services| ==> RunningAs(st.world.containers, st.services[j].name)
    ensures
      var idx := Indices(|st.services|);
      var r := ResolveAll(o, st, idx);
      && r.0.Ok?
      && r.1.services == st.services
      && r.1.world.containers == st.world.containers
      && r.1.world.nextId == st.world.nextId
      && r.1.world.trace == st.world.trace + Lists(|st.services|)
      && (forall k :: 0 <= k < |st.services| ==> Some(r.0.value[k]) == NamedId(st.world.containers, st.services[k].name))
      && StartAll(o, r.1.world, r.0.value).0.Ok?
      && StartAll(o, r.1.world, r.0.value).1.containers == st.world.containers
  {
    var idx := Indices(|st.services|);
    ResolveAllFound(o, st, idx);
    var (ids, st1) := ResolveAll(o, st, idx);
    forall j | 0 <= j < |ids.value|
      ensures Some(ids.value[j]) == NamedId(st.world.containers, st.services[j].name)
      ensures IndexOfId(st1.world.containers, ids.value[j]).Some?
      ensures st1.world.containers[IndexOfId(st1.world.containers, ids.value[j]).value].running
    {
      assert idx[j] == j;
      var k := FindByName(st.world.containers, st.services[j].name).value;
      IndexOfUniqueId(st.world, k);
    }
    StartAllRunning(o, st1.world, ids.value);
  }

  /** Idempotence of the ensure-running phase: without faults, when every
      service's container exists and runs, the phase succeeds and changes
      no container. */
  lemma CheckContainersSteady(o: Oracle, st: St)
    requires o.faults == map[]
    requires WellFormed(st.world)
    requires forall j :: 0 <= j < |st.services| ==> RunningAs(st.world.containers, st.services[j].name)
    ensures
      var r := CheckContainers(o, st);
      && r.0.Ok?
      && r.1.services == st.services
      && r.1.world.containers == st.world.containers
      && r.1.world.nextId == st.world.nextId
  {
    ResolvedRunning(o, st);
  }

  /** In that steady state the phase's requests are one list per service,
      then one start per service of the container its name resolves to
      (each answered 304): no create, stop or remove. */
  lemma CheckContainersSteadyCalls(o: Oracle, st: St)
    requires o.faults == map[]
    requires WellFormed(st.world)
    requires forall j :: 0 <= j < |st.services| ==> RunningAs(st.world.containers, st.services[j].name)
    ensures
      var t := Added(st.world, CheckContainers(o, st).1.world);
      var n := |st.services|;
      && |t| == 2 * n
      && forall k :: 0 <= k < n ==>
           && NamedId(st.world.containers, st.services[k].name).Some?
           && t[k] == ListCall
           && t[n + k] == StartCall(NamedId(st.world.containers, st.services[k].name).value)
  {
    ResolvedRunning(o, st);
    var n := |st.services|;
    var resolved := ResolveAll(o, st, Indices(n));
    var ids := resolved.0.value;
    var w1 := resolved.1.world;
    var w2 := StartAll(o, w1, ids).1;
    CheckContainersResolved(o, st);
    assert w2.trace == w1.trace + StartCalls(ids);
    assert w1.trace == st.world.trace + Lists(n);
    SeqAssoc(st.world.trace, Lists(n), StartCalls(ids));
    AddedOf(st.world, w2, Lists(n) + StartCalls(ids));
    ListsThenStarts(n, ids);
  }

  /** `n` lists, then the starts of `ids`. */
  lemma ListsThenStarts(n: nat, ids: seq<nat>)
    requires |ids| == n
    ensures
      var t := Lists(n) + StartCalls(ids);
      && |t| == 2 * n
      && forall k :: 0 <= k < n ==> t[k] == ListCall && t[n + k] == StartCall(ids[k])
  {
  }

  /** The deployment after a pull phase that found nothing new, over a
      steady runtime, changes nothing. */
  lemma DeploySteady(o: Oracle, st: St, results: seq<bool>)
    requires |results| == |st.services|
    requires forall k :: 0 <= k < |results| ==> !results[k]
    requires o.faults == map[]
    requires WellFormed(st.world)
    requires forall j :: 0 <= j < |st.services| ==> RunningAs(st.world.containers, st.services[j].name)
    ensures
      var r := Deploy(o, st, results);
      && r.0.Ok?
      && r.1.services == st.services
      && r.1.world.containers == st.world.containers
      && r.1.world.nextId == st.world.nextId
  {
    NoneFetched(results);
    assert ReCreateAll(o, st, Fetched(results)) == (Ok([]), st);
    assert Deploy(o, st, results) == CheckContainers(o, st);
    CheckContainersSteady(o, st);
  }

  /** Idempotence of a run: without faults, when every image is up to date
      and every service's container exists and runs, a run succeeds,
      changes no container, creates nothing and annotates no environment. */
  lemma ReconcileSteady(o: Oracle, st: St)
    requires o.faults == map[]
    requires WellFormed(st.world)
    requires forall j :: 0 <= j < |st.services| ==> Verdict(o, st.services[j]) == Ok(false)
    requires forall j :: 0 <= j < |st.services| ==> RunningAs(st.world.containers, st.services[j].name)
    ensures
      var r := Reconcile(o, st);
      && r.0.Ok?
      && r.1.services == st.services
      && r.1.world.containers == st.world.containers
      && r.1.world.nextId == st.world.nextId
  {
    PullAllSucceeds(o, st.world, st.services);
    PullAllNoneNew(o, st.world, st.services);
    var (pulled, w1) := PullAll(o, st.world, st.services);
    var st1 := St(st.services, w1);
    assert pulled.Ok? && WellFormed(w1);
    assert Reconcile(o, st) == Deploy(o, st1, pulled.value);
    DeploySteady(o, st1, pulled.value);
  }
}
