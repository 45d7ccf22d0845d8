/** What the recreate and start passes of a run ask of the runtime, and
    what they leave behind, stated over whole passes
    (docker-services-deployer.js:47-63, 74-107, 151-171). */
module Phases {
  import opened Values
  import opened Docker
  import opened ContainerOptions
  import opened Pulling
  import opened Lifecycle

  // ---------------------------------------------------------------------
  // The start pass (`checkRunning` over every resolved container)

  /** Whether the start of container `id`, issued as request number `pos`
      to a runtime holding `cs`, succeeds or answers 304. A runtime fault
      decides by its status; without one, only an unknown id (404) fails,
      since a running container answers 304. */
  predicate StartSettles(faults: map<nat, nat>, pos: nat, cs: seq<Container>, id: nat)
  {
    if pos in faults then faults[pos] == NotModified else IndexOfId(cs, id).Some?
  }

  /** The status a start that does not settle fails with. */
  function StartFailure(faults: map<nat, nat>, pos: nat): nat
  {
    if pos in faults then faults[pos] else NotFound
  }

  /** The first start's answer, in terms of the runtime it was sent to. */
  lemma StartStepSettles(o: Oracle, w: World, id: nat)
    ensures
      var started := StartStep(o.faults, w, id).0;
      && (Settled(started) <==> StartSettles(o.faults, |w.trace|, w.containers, id))
      && (!Settled(started) ==> started.statusCode == StartFailure(o.faults, |w.trace|))
  {
  }

  /** Starting containers keeps every id. */
  lemma IndexOfIdStarted(cs: seq<Container>, cs': seq<Container>, id: nat)
    requires StartedFrom(cs, cs')
    ensures IndexOfId(cs', id).Some? <==> IndexOfId(cs, id).Some?
  {
    if IndexOfId(cs, id).Some? {
      assert cs'[IndexOfId(cs, id).value].id == id;
    }
    if IndexOfId(cs', id).Some? {
      assert cs[IndexOfId(cs', id).value].id == id;
    }
  }

  /** How many starts in a row, from the first, succeed or answer 304. */
  function SettledRun(faults: map<nat, nat>, pos: nat, cs: seq<Container>, ids: seq<nat>): (n: nat)
    ensures n <= |ids|
    ensures forall k :: 0 <= k < n ==> StartSettles(faults, pos + k, cs, ids[k])
    ensures n < |ids| ==> !StartSettles(faults, pos + n, cs, ids[n])
    decreases |ids|
  {
    if |ids| == 0 || !StartSettles(faults, pos, cs, ids[0]) then 0
    else 1 + SettledRun(faults, pos + 1, cs, ids[1..])
  }

  /** Only the ids of the containers matter. */
  lemma {:induction false} SettledRunStarted(faults: map<nat, nat>, pos: nat, cs: seq<Container>, cs': seq<Container>, ids: seq<nat>)
    requires StartedFrom(cs, cs')
    ensures SettledRun(faults, pos, cs', ids) == SettledRun(faults, pos, cs, ids)
    decreases |ids|
  {
    if |ids| > 0 {
      IndexOfIdStarted(cs, cs', ids[0]);
      SettledRunStarted(faults, pos + 1, cs, cs', ids[1..]);
    }
  }

  /** The outcome `r` of a start pass over `ids` from `w`: success exactly
      when every start succeeds or answers 304; otherwise the error of the
      first start that does neither, after the starts up to that one and
      no further. */
  predicate StartPassOutcome(faults: map<nat, nat>, w: World, ids: seq<nat>, r: (Result<()>, World))
  {
    var n := SettledRun(faults, |w.trace|, w.containers, ids);
    && (r.0.Ok? <==> n == |ids|)
    && (n < |ids| ==>
          && r.0 == Err(ApiFailure(StartCall(ids[n]), StartFailure(faults, |w.trace| + n)))
          && r.1.trace == w.trace + StartCalls(ids[..n + 1]))
  }

  /** The start pass succeeds exactly when every start succeeds or answers
      304; otherwise it ends at the first start that does neither, with
      that start's status, having issued the starts up to that one and no
      further. */
  lemma {:induction false} StartAllOutcome(o: Oracle, w: World, ids: seq<nat>)
    ensures StartPassOutcome(o.faults, w, ids, StartAll(o, w, ids))
    decreases |ids|
  {
    if |ids| > 0 {
      var first := StartStep(o.faults, w, ids[0]);
      StartStepSettles(o, w, ids[0]);
      if Settled(first.0) {
        var rest := StartAll(o, first.1, ids[1..]);
        assert StartAll(o, w, ids) == rest;
        StartAllOutcome(o, first.1, ids[1..]);
        SettledRunStarted(o.faults, |w.trace| + 1, w.containers, first.1.containers, ids[1..]);
        StartOutcomeStep(o.faults, w, ids, first.1, rest);
      } else {
        assert StartAll(o, w, ids) == (Err(ApiFailure(StartCall(ids[0]), first.0.statusCode)), first.1);
        assert StartCalls(ids[..1]) == [StartCall(ids[0])];
      }
    }
  }

  /** A first start that settles, followed by the rest of the pass. */
  lemma StartOutcomeStep(faults: map<nat, nat>, w: World, ids: seq<nat>, w1: World, rest: (Result<()>, World))
    requires |ids| > 0
    requires StartSettles(faults, |w.trace|, w.containers, ids[0])
    requires w1.trace == w.trace + [StartCall(ids[0])]
    requires SettledRun(faults, |w.trace| + 1, w1.containers, ids[1..]) == SettledRun(faults, |w.trace| + 1, w.containers, ids[1..])
    requires StartPassOutcome(faults, w1, ids[1..], rest)
    ensures StartPassOutcome(faults, w, ids, rest)
  {
    var m := SettledRun(faults, |w.trace| + 1, w.containers, ids[1..]);
    assert SettledRun(faults, |w.trace|, w.containers, ids) == m + 1;
    if m < |ids| - 1 {
      assert ids[1..][m] == ids[m + 1];
      assert ids[1..][..m + 1] == ids[..m + 2][1..];
      assert StartCalls(ids[..m + 2]) == [StartCall(ids[0])] + StartCalls(ids[1..][..m + 1]);
      SeqAssoc(w.trace, [StartCall(ids[0])], StartCalls(ids[1..][..m + 1]));
    }
  }

  // ---------------------------------------------------------------------
  // The recreate pass (`reCreateContainers`)

  /** The names of the services at the given positions, in order. */
  function NamesOf(services: seq<Service>, idx: seq<nat>): (names: seq<string>)
    requires forall j :: 0 <= j < |idx| ==> idx[j] < |services|
    ensures |names| == |idx| && forall j :: 0 <= j < |idx| ==> names[j] == services[idx[j]].name
    decreases |idx|
  {
    if |idx| == 0 then [] else [services[idx[0]].name] + NamesOf(services, idx[1..])
  }

  /** The requests of one service's successful recreation: a list, then a
      create for the service, with a stop and a remove of one container in
      between when the list found one. */
  predicate RecreateRound(x: seq<Call>, name: string)
  {
    || (|x| == 2 && x[0] == ListCall && x[1].CreateCall? && x[1].opts.name == name)
    || (&& |x| == 4 && x[0] == ListCall && x[1].StopCall? && x[2] == RemoveCall(x[1].id)
        && x[3].CreateCall? && x[3].opts.name == name)
  }

  /** `t` is one successful round per name, in order, and nothing else. */
  predicate RecreateRounds(t: seq<Call>, names: seq<string>)
    decreases |names|
  {
    if |names| == 0 then t == []
    else
      || (|t| >= 2 && RecreateRound(t[..2], names[0]) && RecreateRounds(t[2..], names[1..]))
      || (|t| >= 4 && RecreateRound(t[..4], names[0]) && RecreateRounds(t[4..], names[1..]))
  }

  lemma RoundsCons(x: seq<Call>, y: seq<Call>, name: string, names: seq<string>)
    requires RecreateRound(x, name) && RecreateRounds(y, names)
    ensures RecreateRounds(x + y, [name] + names)
  {
    assert (x + y)[..|x|] == x && (x + y)[|x|..] == y;
    assert ([name] + names)[1..] == names;
  }

  /** A successful recreation of one service is one round; the container
      it stops and removes, if any, is the one the service's name resolved
      to. */
  lemma ReCreateRound(o: Oracle, st: St, i: nat)
    requires i < |st.services|
    requires ReCreateContainer(o, st, i).0.Ok?
    ensures
      var t := Added(st.world, ReCreateContainer(o, st, i).1.world);
      var name := st.services[i].name;
      && RecreateRound(t, name)
      && (|t| == 4 ==> NamedId(st.world.containers, name).Some? && t[1] == StopCall(NamedId(st.world.containers, name).value))
  {
    var r := ReCreateContainer(o, st, i);
    var name := st.services[i].name;
    var listed := St(st.services, Record(st.world, ListCall));
    var opts := BuildOptions(r.1.services[i]);
    assert opts.name == name;
    if NamedId(st.world.containers, name).None? {
      assert r == CreateContainer(o, listed, i);
      ListThenCreate(st.world.trace, CreateCall(opts));
      AddedOf(st.world, r.1.world, [ListCall, CreateCall(opts)]);
    } else {
      var id := NamedId(st.world.containers, name).value;
      assert r == Replace(o, listed, i, id);
      ListThen(st.world, listed.world, r.1.world, [StopCall(id), RemoveCall(id), CreateCall(opts)]);
    }
  }

  /** A successful recreate pass is one round per service, in order. */
  lemma {:induction false} ReCreateAllRounds(o: Oracle, st: St, idx: seq<nat>)
    requires forall j :: 0 <= j < |idx| ==> idx[j] < |st.services|
    requires ReCreateAll(o, st, idx).0.Ok?
    ensures RecreateRounds(Added(st.world, ReCreateAll(o, st, idx).1.world), NamesOf(st.services, idx))
    decreases |idx|
  {
    if |idx| > 0 {
      var head := ReCreateContainer(o, st, idx[0]);
      var tail := ReCreateAll(o, head.1, idx[1..]);
      assert head.0.Ok? && tail.0.Ok? && ReCreateAll(o, st, idx).1 == tail.1;
      ReCreateAllRounds(o, head.1, idx[1..]);
      ReCreateRound(o, st, idx[0]);
      RoundsStep(st, head.1, tail.1, idx);
    }
  }

  /** The first service's round, then the others'. */
  lemma RoundsStep(st: St, st1: St, st2: St, idx: seq<nat>)
    requires 0 < |idx| && forall j :: 0 <= j < |idx| ==> idx[j] < |st.services|
    requires SameDeclarations(st.services, st1.services)
    requires Grows(st.world, st1.world) && Grows(st1.world, st2.world)
    requires RecreateRound(Added(st.world, st1.world), st.services[idx[0]].name)
    requires RecreateRounds(Added(st1.world, st2.world), NamesOf(st1.services, idx[1..]))
    ensures RecreateRounds(Added(st.world, st2.world), NamesOf(st.services, idx))
  {
    assert NamesOf(st1.services, idx[1..]) == NamesOf(st.services, idx[1..]) by {
      forall j | 0 <= j < |idx| - 1
        ensures st1.services[idx[1..][j]].name == st.services[idx[1..][j]].name
      {
        assert st1.services[idx[1..][j]] == st.services[idx[1..][j]].(env := st1.services[idx[1..][j]].env);
      }
    }
    AddedSplit(st.world, st1.world, st2.world);
    RoundsCons(Added(st.world, st1.world), Added(st1.world, st2.world), st.services[idx[0]].name, NamesOf(st.services, idx[1..]));
  }

  // ---------------------------------------------------------------------
  // A failed recreate pass stops at its first failing service

  /** `r` is the recreate pass over `idx` that recreated the first `m`
      services and then failed on service `m`: it ends with that service's
      error, in the state its recreation left, so nothing is requested for
      the services after it. */
  ghost predicate RecreateFailsAt(o: Oracle, st: St, idx: seq<nat>, m: nat, r: (Result<seq<nat>>, St))
    requires forall j :: 0 <= j < |idx| ==> idx[j] < |st.services|
  {
    && m < |idx|
    && ReCreateAll(o, st, idx[..m]).0.Ok?
    && var h := ReCreateContainer(o, ReCreateAll(o, st, idx[..m]).1, idx[m]);
       && h.0.Err?
       && r == (Err(h.0.error), h.1)
  }

  /** Fail-fast (`async.mapSeries`): a failed recreate pass failed at one
      service, after recreating every service before it. */
  lemma {:induction false} ReCreateAllFailFast(o: Oracle, st: St, idx: seq<nat>)
    requires forall j :: 0 <= j < |idx| ==> idx[j] < |st.services|
    requires ReCreateAll(o, st, idx).0.Err?
    ensures exists m :: RecreateFailsAt(o, st, idx, m, ReCreateAll(o, st, idx))
    decreases |idx|
  {
    var head := ReCreateContainer(o, st, idx[0]);
    if head.0.Err? {
      ReCreateFailsFirst(o, st, idx);
    } else {
      SameNames(st.services, head.1.services, idx);
      ReCreateAllFailFast(o, head.1, idx[1..]);
      RecreateShift(o, st, idx);
    }
  }

  lemma ReCreateFailsFirst(o: Oracle, st: St, idx: seq<nat>)
    requires 0 < |idx| && forall j :: 0 <= j < |idx| ==> idx[j] < |st.services|
    requires ReCreateContainer(o, st, idx[0]).0.Err?
    ensures RecreateFailsAt(o, st, idx, 0, ReCreateAll(o, st, idx))
  {
    assert idx[..0] == [];
  }

  /** A failure after a successful first service fails one service
      later in the whole pass. */
  lemma RecreateShift(o: Oracle, st: St, idx: seq<nat>)
    requires 0 < |idx| && forall j :: 0 <= j < |idx| ==> idx[j] < |st.services|
    requires ReCreateContainer(o, st, idx[0]).0.Ok?
    requires
      var st1 := ReCreateContainer(o, st, idx[0]).1;
      && (forall j :: 0 <= j < |idx| - 1 ==> idx[1..][j] < |st1.services|)
      && exists m :: RecreateFailsAt(o, st1, idx[1..], m, ReCreateAll(o, st1, idx[1..]))
    ensures exists m :: RecreateFailsAt(o, st, idx, m, ReCreateAll(o, st, idx))
  {
    var st1 := ReCreateContainer(o, st, idx[0]).1;
    var m :| RecreateFailsAt(o, st1, idx[1..], m, ReCreateAll(o, st1, idx[1..]));
    RecreateShiftAt(o, st, idx, m);
  }

  lemma RecreateShiftAt(o: Oracle, st: St, idx: seq<nat>, m: nat)
    requires 0 < |idx| && forall j :: 0 <= j < |idx| ==> idx[j] < |st.services|
    requires ReCreateContainer(o, st, idx[0]).0.Ok?
    requires
      var st1 := ReCreateContainer(o, st, idx[0]).1;
      && (forall j :: 0 <= j < |idx| - 1 ==> idx[1..][j] < |st1.services|)
      && RecreateFailsAt(o, st1, idx[1..], m, ReCreateAll(o, st1, idx[1..]))
    ensures RecreateFailsAt(o, st, idx, m + 1, ReCreateAll(o, st, idx))
  {
    SliceShift(idx, m);
  }

  /** Dropping the first element of a prefix of `s` is the same as taking
      a prefix of `s` without its first element. */
  lemma SliceShift<T>(s: seq<T>, m: nat)
    requires m + 1 < |s|
    ensures s[..m + 1][0] == s[0] && s[..m + 1][1..] == s[1..][..m]
    ensures s[m + 1] == s[1..][m]
  {
  }

  // ---------------------------------------------------------------------
  // A failed resolve pass stops at its first failing service

  /** `r` is the resolve pass over `idx` that resolved the first `m`
      services and then failed on service `m`: it ends with that service's
      error, in the state its `checkContainer` left, so nothing is
      requested for the services after it. */
  ghost predicate ResolveFailsAt(o: Oracle, st: St, idx: seq<nat>, m: nat, r: (Result<seq<nat>>, St))
    requires forall j :: 0 <= j < |idx| ==> idx[j] < |st.services|
  {
    && m < |idx|
    && ResolveAll(o, st, idx[..m]).0.Ok?
    && var h := CheckContainer(o, ResolveAll(o, st, idx[..m]).1, idx[m]);
       && h.0.Err?
       && r == (Err(h.0.error), h.1)
  }

  /** Fail-fast (`async.mapSeries` of `checkContainer`): a failed resolve
      pass failed at one service, after resolving every service before
      it. */
  lemma {:induction false} ResolveAllFailFast(o: Oracle, st: St, idx: seq<nat>)
    requires forall j :: 0 <= j < |idx| ==> idx[j] < |st.services|
    requires ResolveAll(o, st, idx).0.Err?
    ensures exists m :: ResolveFailsAt(o, st, idx, m, ResolveAll(o, st, idx))
    decreases |idx|
  {
    var head := CheckContainer(o, st, idx[0]);
    if head.0.Err? {
      ResolveFailsFirst(o, st, idx);
    } else {
      SameNames(st.services, head.1.services, idx);
      ResolveAllFailFast(o, head.1, idx[1..]);
      ResolveShift(o, st, idx);
    }
  }

  lemma ResolveFailsFirst(o: Oracle, st: St, idx: seq<nat>)
    requires 0 < |idx| && forall j :: 0 <= j < |idx| ==> idx[j] < |st.services|
    requires CheckContainer(o, st, idx[0]).0.Err?
    ensures ResolveFailsAt(o, st, idx, 0, ResolveAll(o, st, idx))
  {
    assert idx[..0] == [];
  }

  /** A failure after a successful first service fails one service
      later in the whole pass. */
  lemma ResolveShift(o: Oracle, st: St, idx: seq<nat>)
    requires 0 < |idx| && forall j :: 0 <= j < |idx| ==> idx[j] < |st.services|
    requires CheckContainer(o, st, idx[0]).0.Ok?
    requires
      var st1 := CheckContainer(o, st, idx[0]).1;
      && (forall j :: 0 <= j < |idx| - 1 ==> idx[1..][j] < |st1.services|)
      && exists m :: ResolveFailsAt(o, st1, idx[1..], m, ResolveAll(o, st1, idx[1..]))
    ensures exists m :: ResolveFailsAt(o, st, idx, m, ResolveAll(o, st, idx))
  {
    var st1 := CheckContainer(o, st, idx[0]).1;
    var m :| ResolveFailsAt(o, st1, idx[1..], m, ResolveAll(o, st1, idx[1..]));
    ResolveShiftAt(o, st, idx, m);
  }

  lemma ResolveShiftAt(o: Oracle, st: St, idx: seq<nat>, m: nat)
    requires 0 < |idx| && forall j :: 0 <= j < |idx| ==> idx[j] < |st.services|
    requires CheckContainer(o, st, idx[0]).0.Ok?
    requires
      var st1 := CheckContainer(o, st, idx[0]).1;
      && (forall j :: 0 <= j < |idx| - 1 ==> idx[1..][j] < |st1.services|)
      && ResolveFailsAt(o, st1, idx[1..], m, ResolveAll(o, st1, idx[1..]))
    ensures ResolveFailsAt(o, st, idx, m + 1, ResolveAll(o, st, idx))
  {
    SliceShift(idx, m);
  }

  // ---------------------------------------------------------------------
  // What the recreated services' names resolve to

  lemma SlashedNamesDiffer(a: string, b: string)
    requires a != b
    ensures "/" + a != "/" + b
  {
    assert ("/" + a)[1..] == a && ("/" + b)[1..] == b;
  }

  /** Stopping or starting keeps every id and every name. */
  lemma SoleHolderSameNames(cs: seq<Container>, cs': seq<Container>, name: string, id: nat)
    requires |cs| == |cs'| && forall k :: 0 <= k < |cs| ==> cs'[k].id == cs[k].id && cs'[k].names == cs[k].names
    requires SoleHolder(cs, name, id)
    ensures SoleHolder(cs', name, id)
  {
    FindByNameSameNames(cs, cs', name);
  }

  /** Removing another container keeps the sole holder of a name. */
  lemma SoleHolderRemoved(cs: seq<Container>, q: nat, name: string, id: nat)
    requires SoleHolder(cs, name, id) && q < |cs| && cs[q].id != id
    ensures SoleHolder(cs[..q] + cs[q + 1..], name, id)
  {
    var cs' := cs[..q] + cs[q + 1..];
    var h := FindByName(cs, name).value;
    assert h != q;
    var h' := if h < q then h else h - 1;
    assert forall j :: 0 <= j < |cs'| ==> cs'[j] == cs[if j < q then j else j + 1];
    assert cs'[h'] == cs[h];
    assert "/" + name in cs'[h'].names;
    assert FindByName(cs', name) == Some(h');
  }

  /** Appending a container under another name keeps the sole holder. */
  lemma SoleHolderAppendedOther(cs: seq<Container>, c: Container, name: string, id: nat)
    requires SoleHolder(cs, name, id) && "/" + name !in c.names
    ensures SoleHolder(cs + [c], name, id)
  {
    FindByNameExtend(cs, cs + [c], name);
    assert forall j :: 0 <= j < |cs| ==> (cs + [c])[j] == cs[j];
  }

  /** Creating a container for another service keeps the sole holder. */
  lemma CreateKeeps(o: Oracle, st: St, i: nat, name: string, id: nat)
    requires i < |st.services| && st.services[i].name != name
    requires SoleHolder(st.world.containers, name, id)
    ensures SoleHolder(CreateContainer(o, st, i).1.world.containers, name, id)
  {
    var r := CreateContainer(o, st, i);
    if r.0.Ok? {
      SlashedNamesDiffer(st.services[i].name, name);
      SoleHolderAppendedOther(st.world.containers, Container(r.0.value, ["/" + st.services[i].name], false), name, id);
    }
  }

  /** Removing and recreating another container keeps the sole holder. */
  lemma RemoveThenCreateKeeps(o: Oracle, st: St, i: nat, target: nat, name: string, id: nat)
    requires i < |st.services| && st.services[i].name != name
    requires SoleHolder(st.world.containers, name, id) && target != id
    ensures SoleHolder(RemoveThenCreate(o, st, i, target).1.world.containers, name, id)
  {
    var removed := RemoveStep(o.faults, st.world, target);
    if removed.0.Answered? {
      var q := IndexOfId(st.world.containers, target).value;
      SoleHolderRemoved(st.world.containers, q, name, id);
      CreateKeeps(o, St(st.services, removed.1), i, name, id);
    }
  }

  /** Replacing another container keeps the sole holder. */
  lemma ReplaceKeeps(o: Oracle, st: St, i: nat, target: nat, name: string, id: nat)
    requires i < |st.services| && st.services[i].name != name
    requires SoleHolder(st.world.containers, name, id) && target != id
    ensures SoleHolder(Replace(o, st, i, target).1.world.containers, name, id)
  {
    var stop := StopStep(o.faults, st.world, target);
    if stop.0.Answered? {
      SoleHolderSameNames(st.world.containers, stop.1.containers, name, id);
    }
    if Settled(stop.0) {
      RemoveThenCreateKeeps(o, St(st.services, stop.1), i, target, name, id);
    }
  }

  /** In a well-formed runtime, recreating another service keeps the sole
      holder of a name: the container it stops and removes carries the
      other service's name, so it is a different container. */
  lemma ReCreateKeeps(o: Oracle, st: St, i: nat, name: string, id: nat)
    requires i < |st.services| && st.services[i].name != name
    requires WellFormed(st.world) && SoleHolder(st.world.containers, name, id)
    ensures SoleHolder(ReCreateContainer(o, st, i).1.world.containers, name, id)
  {
    var cs := st.world.containers;
    var other := st.services[i].name;
    var listed := St(st.services, Record(st.world, ListCall));
    if FaultAt(o.faults, st.world).None? {
      if NamedId(cs, other).None? {
        CreateKeeps(o, listed, i, name, id);
      } else {
        var p := FindByName(cs, other).value;
        var h := FindByName(cs, name).value;
        SlashedNamesDiffer(other, name);
        assert "/" + other in cs[p].names && cs[h].names == ["/" + name];
        assert p != h;
        ReplaceKeeps(o, listed, i, cs[p].id, name, id);
      }
    }
  }

  /** A recreate pass over other services keeps the sole holder of a name. */
  lemma {:induction false} ReCreateAllKeeps(o: Oracle, st: St, idx: seq<nat>, name: string, id: nat)
    requires forall j :: 0 <= j < |idx| ==> idx[j] < |st.services| && st.services[idx[j]].name != name
    requires WellFormed(st.world) && SoleHolder(st.world.containers, name, id)
    ensures SoleHolder(ReCreateAll(o, st, idx).1.world.containers, name, id)
    decreases |idx|
  {
    if |idx| > 0 {
      var head := ReCreateContainer(o, st, idx[0]);
      ReCreateKeeps(o, st, idx[0], name, id);
      if head.0.Ok? {
        OthersStayOthers(st.services, head.1.services, idx, name);
        ReCreateAllKeeps(o, head.1, idx[1..], name, id);
        assert ReCreateAll(o, st, idx).1 == ReCreateAll(o, head.1, idx[1..]).1;
      }
    }
  }

  /** Services not named `name` keep not being named `name` when only
      their environments change. */
  lemma OthersStayOthers(services: seq<Service>, services': seq<Service>, idx: seq<nat>, name: string)
    requires 0 < |idx| && SameDeclarations(services, services')
    requires forall j :: 0 <= j < |idx| ==> idx[j] < |services| && services[idx[j]].name != name
    ensures forall j :: 0 <= j < |idx| - 1 ==> idx[1..][j] < |services'| && services'[idx[1..][j]].name != name
  {
    forall j | 0 <= j < |idx| - 1
      ensures idx[1..][j] < |services'| && services'[idx[1..][j]].name != name
    {
      assert services'[idx[j + 1]] == services[idx[j + 1]].(env := services'[idx[j + 1]].env);
    }
  }

  /** The last service of the pass named `name` is at position `k`. */
  predicate LastNamed(services: seq<Service>, idx: seq<nat>, k: nat)
    requires forall j :: 0 <= j < |idx| ==> idx[j] < |services|
  {
    k < |idx| && forall m :: k < m < |idx| ==> services[idx[m]].name != services[idx[k]].name
  }

  /** `r` is a successful pass over `idx` whose every service name, at its
      last occurrence, resolves to the container returned for it, and to
      no other container. */
  predicate ResolvesToReturned(services: seq<Service>, idx: seq<nat>, r: (Result<seq<nat>>, St))
    requires forall j :: 0 <= j < |idx| ==> idx[j] < |services|
  {
    && r.0.Ok? && |r.0.value| == |idx|
    && forall k :: 0 <= k < |idx| && LastNamed(services, idx, k) ==>
         && SoleHolder(r.1.world.containers, services[idx[k]].name, r.0.value[k])
         && NamedId(r.1.world.containers, services[idx[k]].name) == Some(r.0.value[k])
  }

  /** Services with the same declarations have the same names. */
  lemma SameNames(services: seq<Service>, services': seq<Service>, idx: seq<nat>)
    requires forall j :: 0 <= j < |idx| ==> idx[j] < |services|
    requires SameDeclarations(services, services')
    ensures forall j :: 0 <= j < |idx| ==> idx[j] < |services'| && services'[idx[j]].name == services[idx[j]].name
  {
    forall j | 0 <= j < |idx|
      ensures services'[idx[j]].name == services[idx[j]].name
    {
      assert services'[idx[j]] == services[idx[j]].(env := services'[idx[j]].env);
    }
  }

  /** After a successful recreate pass in a well-formed runtime, the name of
      every service it recreated resolves to the container the pass
      returned for that service (for the last occurrence of a name the pass
      recreated twice), and to no other container. */
  lemma {:induction false} ReCreateAllResolves(o: Oracle, st: St, idx: seq<nat>)
    requires forall j :: 0 <= j < |idx| ==> idx[j] < |st.services|
    requires WellFormed(st.world)
    requires ReCreateAll(o, st, idx).0.Ok?
    ensures ResolvesToReturned(st.services, idx, ReCreateAll(o, st, idx))
    decreases |idx|
  {
    if |idx| > 0 {
      var head := ReCreateContainer(o, st, idx[0]);
      var tail := ReCreateAll(o, head.1, idx[1..]);
      assert head.0.Ok? && tail.0.Ok?;
      assert ReCreateAll(o, st, idx) == (Ok([head.0.value] + tail.0.value), tail.1);
      SameNames(st.services, head.1.services, idx);
      ReCreateAllResolves(o, head.1, idx[1..]);
      if LastNamed(st.services, idx, 0) {
        ReCreateAllKeeps(o, head.1, idx[1..], st.services[idx[0]].name, head.0.value);
      }
      ResolvesStep(st.services, head.1.services, idx, head.0.value, tail);
    }
  }

  /** The first service's container, then the others'. */
  lemma ResolvesStep(services: seq<Service>, services': seq<Service>, idx: seq<nat>, first: nat, tail: (Result<seq<nat>>, St))
    requires 0 < |idx| && forall j :: 0 <= j < |idx| ==> idx[j] < |services|
    requires forall j :: 0 <= j < |idx| ==> idx[j] < |services'| && services'[idx[j]].name == services[idx[j]].name
    requires ResolvesToReturned(services', idx[1..], tail)
    requires LastNamed(services, idx, 0) ==> SoleHolder(tail.1.world.containers, services[idx[0]].name, first)
    ensures ResolvesToReturned(services, idx, (Ok([first] + tail.0.value), tail.1))
  {
    var ids := [first] + tail.0.value;
    var cs := tail.1.world.containers;
    forall k | 0 <= k < |idx| && LastNamed(services, idx, k)
      ensures SoleHolder(cs, services[idx[k]].name, ids[k])
    {
      if k > 0 {
        assert idx[1..][k - 1] == idx[k];
        assert forall m :: k - 1 < m < |idx| - 1 ==> idx[1..][m] == idx[m + 1];
        assert LastNamed(services', idx[1..], k - 1);
      }
    }
  }

  /** A successful recreate pass returns ids handed out during the pass,
      in increasing order. */
  predicate FreshIds(st: St, idx: seq<nat>, r: (Result<seq<nat>>, St))
  {
    && r.0.Ok? && |r.0.value| == |idx|
    && (forall k :: 0 <= k < |idx| ==> st.world.nextId <= r.0.value[k] < r.1.world.nextId)
    && (forall a, b :: 0 <= a < b < |idx| ==> r.0.value[a] < r.0.value[b])
  }

  /** A successful recreate pass returns ids handed out during the pass,
      in increasing order. */
  lemma {:induction false} ReCreateAllFresh(o: Oracle, st: St, idx: seq<nat>)
    requires forall j :: 0 <= j < |idx| ==> idx[j] < |st.services|
    requires ReCreateAll(o, st, idx).0.Ok?
    ensures FreshIds(st, idx, ReCreateAll(o, st, idx))
    decreases |idx|
  {
    if |idx| > 0 {
      var head := ReCreateContainer(o, st, idx[0]);
      var tail := ReCreateAll(o, head.1, idx[1..]);
      assert head.0.Ok? && tail.0.Ok?;
      assert ReCreateAll(o, st, idx) == (Ok([head.0.value] + tail.0.value), tail.1);
      ReCreateAllFresh(o, head.1, idx[1..]);
      FreshStep(st, head.1, idx, head.0.value, tail);
    }
  }

  lemma FreshStep(st: St, st1: St, idx: seq<nat>, first: nat, tail: (Result<seq<nat>>, St))
    requires 0 < |idx|
    requires st.world.nextId <= first < st1.world.nextId <= tail.1.world.nextId
    requires FreshIds(st1, idx[1..], tail)
    ensures FreshIds(st, idx, (Ok([first] + tail.0.value), tail.1))
  {
  }

  // ---------------------------------------------------------------------
  // Which containers a run tears down

  /** Every container of `cs` was in `w0`, with the same id and names, or
      has an id handed out since. */
  predicate DescendsFrom(w0: World, cs: seq<Container>)
  {
    forall k :: 0 <= k < |cs| ==>
      || cs[k].id >= w0.nextId
      || exists j :: 0 <= j < |w0.containers| && w0.containers[j].id == cs[k].id && w0.containers[j].names == cs[k].names
  }

  /** The container `id` carried, in `w0`, the name of one of the services
      named `names`, or it was created after `w0`. */
  predicate Owned(w0: World, names: set<string>, id: nat)
  {
    || id >= w0.nextId
    || exists j :: 0 <= j < |w0.containers| && w0.containers[j].id == id
         && exists n :: n in names && "/" + n in w0.containers[j].names
  }

  /** Every stop and every remove of `t` targets an owned container. */
  predicate TeardownOwned(t: seq<Call>, w0: World, names: set<string>)
  {
    forall k :: 0 <= k < |t| && (t[k].StopCall? || t[k].RemoveCall?) ==> Owned(w0, names, t[k].id)
  }

  lemma TeardownOwnedConcat(a: seq<Call>, b: seq<Call>, w0: World, names: set<string>)
    requires TeardownOwned(a, w0, names) && TeardownOwned(b, w0, names)
    ensures TeardownOwned(a + b, w0, names)
  {
    assert forall k :: |a| <= k < |a + b| ==> (a + b)[k] == b[k - |a|];
  }

  lemma DescendsFromItself(w: World)
    ensures DescendsFrom(w, w.containers)
  {
    forall k | 0 <= k < |w.containers|
      ensures exists j :: 0 <= j < |w.containers| && w.containers[j].id == w.containers[k].id
                && w.containers[j].names == w.containers[k].names
    {
      var j := k;
      assert w.containers[j].id == w.containers[k].id && w.containers[j].names == w.containers[k].names;
    }
  }

  lemma DescendsSameNames(w0: World, cs: seq<Container>, cs': seq<Container>)
    requires DescendsFrom(w0, cs)
    requires |cs| == |cs'| && forall k :: 0 <= k < |cs| ==> cs'[k].id == cs[k].id && cs'[k].names == cs[k].names
    ensures DescendsFrom(w0, cs')
  {
    forall k | 0 <= k < |cs'|
      ensures || cs'[k].id >= w0.nextId
              || exists j :: 0 <= j < |w0.containers| && w0.containers[j].id == cs'[k].id && w0.containers[j].names == cs'[k].names
    {
      assert cs'[k].id == cs[k].id && cs'[k].names == cs[k].names;
    }
  }

  lemma DescendsRemoved(w0: World, cs: seq<Container>, q: nat)
    requires DescendsFrom(w0, cs) && q < |cs|
    ensures DescendsFrom(w0, cs[..q] + cs[q + 1..])
  {
    var cs' := cs[..q] + cs[q + 1..];
    forall k | 0 <= k < |cs'|
      ensures || cs'[k].id >= w0.nextId
              || exists j :: 0 <= j < |w0.containers| && w0.containers[j].id == cs'[k].id && w0.containers[j].names == cs'[k].names
    {
      assert cs'[k] == cs[if k < q then k else k + 1];
    }
  }

  lemma DescendsAppended(w0: World, cs: seq<Container>, c: Container)
    requires DescendsFrom(w0, cs) && c.id >= w0.nextId
    ensures DescendsFrom(w0, cs + [c])
  {
    assert forall k :: 0 <= k < |cs| ==> (cs + [c])[k] == cs[k];
  }

  lemma CreateDescends(o: Oracle, st: St, i: nat, w0: World)
    requires i < |st.services| && DescendsFrom(w0, st.world.containers) && st.world.nextId >= w0.nextId
    ensures DescendsFrom(w0, CreateContainer(o, st, i).1.world.containers)
  {
    var r := CreateContainer(o, st, i);
    if r.0.Ok? {
      DescendsAppended(w0, st.world.containers, Container(r.0.value, ["/" + st.services[i].name], false));
    }
  }

  lemma ReplaceDescends(o: Oracle, st: St, i: nat, target: nat, w0: World)
    requires i < |st.services| && DescendsFrom(w0, st.world.containers) && st.world.nextId >= w0.nextId
    ensures DescendsFrom(w0, Replace(o, st, i, target).1.world.containers)
  {
    var stop := StopStep(o.faults, st.world, target);
    if stop.0.Answered? {
      DescendsSameNames(w0, st.world.containers, stop.1.containers);
    }
    if Settled(stop.0) {
      var removed := RemoveStep(o.faults, stop.1, target);
      if removed.0.Answered? {
        DescendsRemoved(w0, stop.1.containers, IndexOfId(stop.1.containers, target).value);
        CreateDescends(o, St(st.services, removed.1), i, w0);
      }
    }
  }

  /** Recreating a service tears down only the container its name resolves
      to, and adds only containers with new ids. */
  lemma ReCreateOwned(o: Oracle, st: St, i: nat, w0: World, names: set<string>)
    requires i < |st.services| && st.services[i].name in names
    requires DescendsFrom(w0, st.world.containers) && st.world.nextId >= w0.nextId
    ensures
      var r := ReCreateContainer(o, st, i);
      && TeardownOwned(Added(st.world, r.1.world), w0, names)
      && DescendsFrom(w0, r.1.world.containers)
  {
    var cs := st.world.containers;
    var name := st.services[i].name;
    var r := ReCreateContainer(o, st, i);
    if FaultAt(o.faults, st.world).Some? {
      AddedOf(st.world, r.1.world, [ListCall]);
    } else if NamedId(cs, name).None? {
      ReCreateAbsent(o, st, i);
      ResolveOnlyOwned(Added(st.world, r.1.world), w0, names);
      CreateDescends(o, St(st.services, Record(st.world, ListCall)), i, w0);
    } else {
      ExistingOwned(o, st, i, w0, names);
    }
  }

  lemma ResolveOnlyOwned(t: seq<Call>, w0: World, names: set<string>)
    requires ResolveOnly(t)
    ensures TeardownOwned(t, w0, names)
  {
  }

  /** Replacing the container a service's name resolves to. */
  lemma ExistingOwned(o: Oracle, st: St, i: nat, w0: World, names: set<string>)
    requires i < |st.services| && st.services[i].name in names
    requires DescendsFrom(w0, st.world.containers) && st.world.nextId >= w0.nextId
    requires FaultAt(o.faults, st.world).None? && NamedId(st.world.containers, st.services[i].name).Some?
    ensures
      var r := ReCreateContainer(o, st, i);
      && TeardownOwned(Added(st.world, r.1.world), w0, names)
      && DescendsFrom(w0, r.1.world.containers)
  {
    var cs := st.world.containers;
    var name := st.services[i].name;
    var p := FindByName(cs, name).value;
    var id := cs[p].id;
    assert "/" + name in cs[p].names;
    assert Owned(w0, names, id);
    var r := ReCreateContainer(o, st, i);
    assert r == Replace(o, St(st.services, Record(st.world, ListCall)), i, id);
    ReCreateExisting(o, st, i);
    ReplaceShapesOwned(Added(st.world, r.1.world), id, BuildOptions(r.1.services[i]), w0, names);
    ReplaceDescends(o, St(st.services, Record(st.world, ListCall)), i, id, w0);
  }

  lemma ReplaceShapesOwned(t: seq<Call>, id: nat, opts: CreateOptions, w0: World, names: set<string>)
    requires Owned(w0, names, id)
    requires t == [ListCall, StopCall(id)] || t == [ListCall, StopCall(id), RemoveCall(id)]
          || t == [ListCall, StopCall(id), RemoveCall(id), CreateCall(opts)]
    ensures TeardownOwned(t, w0, names)
  {
  }

  /** A recreate pass tears down only owned containers. */
  lemma {:induction false} ReCreateAllOwned(o: Oracle, st: St, idx: seq<nat>, w0: World, names: set<string>)
    requires forall j :: 0 <= j < |idx| ==> idx[j] < |st.services| && st.services[idx[j]].name in names
    requires DescendsFrom(w0, st.world.containers) && st.world.nextId >= w0.nextId
    ensures
      var r := ReCreateAll(o, st, idx);
      && TeardownOwned(Added(st.world, r.1.world), w0, names)
      && DescendsFrom(w0, r.1.world.containers)
    decreases |idx|
  {
    if |idx| > 0 {
      var head := ReCreateContainer(o, st, idx[0]);
      ReCreateOwned(o, st, idx[0], w0, names);
      if head.0.Ok? {
        SameNames(st.services, head.1.services, idx);
        assert forall j :: 0 <= j < |idx| - 1 ==> idx[1..][j] == idx[j + 1];
        ReCreateAllOwned(o, head.1, idx[1..], w0, names);
        var w2 := ReCreateAll(o, head.1, idx[1..]).1.world;
        assert ReCreateAll(o, st, idx).1.world == w2;
        AddedSplit(st.world, head.1.world, w2);
        TeardownOwnedConcat(Added(st.world, head.1.world), Added(head.1.world, w2), w0, names);
      }
    }
  }

  /** Recreate only on change: a deployment stops and removes only
      containers that, when it began, carried the name of a service whose
      pull reported a new image, or containers it created itself. */
  lemma DeployOwned(o: Oracle, st: St, results: seq<bool>)
    requires |results| == |st.services|
    ensures TeardownOwned(Added(st.world, Deploy(o, st, results).1.world), st.world, NamesAt(st.services, Fetched(results)))
  {
    var fetched := Fetched(results);
    var names := NamesAt(st.services, fetched);
    DescendsFromItself(st.world);
    assert forall j :: 0 <= j < |fetched| ==> st.services[fetched[j]].name in names;
    ReCreateAllOwned(o, st, fetched, st.world, names);
    var head := ReCreateAll(o, st, fetched);
    var r := Deploy(o, st, results);
    if head.0.Ok? {
      assert r == CheckContainers(o, head.1);
      CheckContainersCalls(o, head.1);
      AddedSplit(st.world, head.1.world, r.1.world);
      TeardownOwnedConcat(Added(st.world, head.1.world), Added(head.1.world, r.1.world), st.world, names);
    } else {
      assert r.1 == head.1;
    }
  }

  /** The names of the services whose pull reports a new image. */
  function Changed(o: Oracle, services: seq<Service>): set<string>
  {
    set j | 0 <= j < |services| && Verdict(o, services[j]) == Ok(true) :: services[j].name
  }

  /** Ownership widens with the names and depends only on the containers
      and the next id. */
  lemma TeardownOwnedWiden(t: seq<Call>, w0: World, w0': World, names: set<string>, names': set<string>)
    requires TeardownOwned(t, w0, names)
    requires names <= names' && w0'.containers == w0.containers && w0'.nextId == w0.nextId
    ensures TeardownOwned(t, w0', names')
  {
  }

  /** Recreate only on change, over a whole run: a run stops and removes
      only containers that, when it began, carried the name of a service
      whose pull reports a new image, or containers it created itself. */
  lemma ReconcileOwned(o: Oracle, st: St)
    ensures TeardownOwned(Added(st.world, Reconcile(o, st).1.world), st.world, Changed(o, st.services))
  {
    var pulled := PullAll(o, st.world, st.services);
    var w1 := pulled.1;
    var names := Changed(o, st.services);
    var tp := Added(st.world, w1);
    assert OnlyPulls(tp);
    assert TeardownOwned(tp, st.world, names);
    if pulled.0.Ok? {
      var results := pulled.0.value;
      var st1 := St(st.services, w1);
      ReconcileAfterPull(o, st);
      DeployOwned(o, st1, results);
      var fetched := Fetched(results);
      assert NamesAt(st.services, fetched) <= names by {
        forall j | 0 <= j < |fetched|
          ensures st.services[fetched[j]].name in names
        {
          assert Verdict(o, st.services[fetched[j]]) == Ok(true);
        }
      }
      var w2 := Reconcile(o, st).1.world;
      TeardownOwnedWiden(Added(w1, w2), w1, st.world, NamesAt(st.services, fetched), names);
      AddedSplit(st.world, w1, w2);
      TeardownOwnedConcat(tp, Added(w1, w2), st.world, names);
    } else {
      assert Reconcile(o, st).1.world == w1;
    }
  }
}
