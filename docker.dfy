/** The container runtime, an external collaborator of the deployer,
    modelled as an abstract state. Every request is appended to a trace, so
    that the order of the deployer's requests can be stated. Which requests
    fail is an input: `faults` maps the position a request takes in the
    trace to the status code it fails with. Otherwise the runtime answers
    as the Docker Remote API v1.19 does: 304 ("Not Modified", section
    15.4.5 of RFC 9110) for stopping a stopped or starting a running
    container, 404 for an unknown id, 409 for a clashing name or for
    removing a running container. */
module Docker {
  import opened Values

  const NotModified: nat := 304
  const NotFound: nat := 404
  const Conflict: nat := 409

  /** The runtime's reply to one request. */
  datatype Answer<T> = Answered(value: T) | Rejected(statusCode: nat)

  datatype World = World(containers: seq<Container>, nextId: nat, trace: seq<Call>)

  /** Everything the run consults but does not control: injected runtime
      faults, the outcome of pulling each image, and the host's network
      interfaces. */
  datatype Oracle = Oracle(
    faults: map<nat, nat>,
    pulls: string -> PullReply,
    interfaces: map<string, seq<Address>>)

  /** Container ids are unique and below the next id to hand out. */
  predicate WellFormed(w: World)
  {
    && (forall k :: 0 <= k < |w.containers| ==> w.containers[k].id < w.nextId)
    && (forall a, b :: 0 <= a < b < |w.containers| ==> w.containers[a].id != w.containers[b].id)
  }

  /** `cs'` holds the same containers as `cs`, some of them started. */
  predicate StartedFrom(cs: seq<Container>, cs': seq<Container>)
  {
    && |cs| == |cs'|
    && forall k :: 0 <= k < |cs| ==>
         cs'[k].id == cs[k].id && cs'[k].names == cs[k].names && (cs[k].running ==> cs'[k].running)
  }

  /** The idempotent-status rule of the stop and start handlers: success,
      or a rejection with status 304, both count as success. */
  predicate Settled<T>(a: Answer<T>)
  {
    a.Answered? || a.statusCode == NotModified
  }

  function Record(w: World, c: Call): (w': World)
    ensures w'.containers == w.containers && w'.nextId == w.nextId
    ensures w'.trace == w.trace + [c]
  {
    w.(trace := w.trace + [c])
  }

  /** Traces are appended to in steps that can be regrouped. */
  lemma SeqAssoc(a: seq<Call>, b: seq<Call>, c: seq<Call>)
    ensures (a + b) + c == a + (b + c)
  {
  }

  function FaultAt(faults: map<nat, nat>, w: World): Option<nat>
  {
    if |w.trace| in faults then Some(faults[|w.trace|]) else None
  }

  /** The position of the container with id `id`. */
  function IndexOfId(cs: seq<Container>, id: nat): (r: Option<nat>)
    ensures r.None? <==> forall k :: 0 <= k < |cs| ==> cs[k].id != id
    ensures r.Some? ==> r.value < |cs| && cs[r.value].id == id
  {
    if |cs| == 0 then None
    else if cs[|cs| - 1].id == id then Some(|cs| - 1)
    else IndexOfId(cs[..|cs| - 1], id)
  }

  predicate NameInUse(cs: seq<Container>, name: string)
  {
    exists k :: 0 <= k < |cs| && name in cs[k].names
  }

  /** List all containers, stopped ones included. */
  function ListStep(faults: map<nat, nat>, w: World): (r: (Answer<seq<Container>>, World))
    ensures r.1 == Record(w, ListCall)
    ensures r.0.Answered? ==> r.0.value == w.containers
  {
    var w' := Record(w, ListCall);
    match FaultAt(faults, w)
    case Some(code) => (Rejected(code), w')
    case None => (Answered(w.containers), w')
  }

  /** Pull an image; pulling changes no container. */
  function PullStep(pulls: string -> PullReply, w: World, image: string): (r: (PullReply, World))
    ensures r.0 == pulls(image)
    ensures r.1.containers == w.containers && r.1.nextId == w.nextId
    ensures r.1.trace == w.trace + [PullCall(image)]
  {
    (pulls(image), Record(w, PullCall(image)))
  }

  /** Create a stopped container named `/<name>` with a fresh id. */
  function CreateStep(faults: map<nat, nat>, w: World, opts: CreateOptions): (r: (Answer<nat>, World))
    ensures r.1.trace == w.trace + [CreateCall(opts)]
    ensures r.0.Answered? ==>
      && r.0.value == w.nextId
      && r.1.containers == w.containers + [Container(w.nextId, ["/" + opts.name], false)]
      && r.1.nextId == w.nextId + 1
    ensures r.0.Rejected? ==> r.1 == Record(w, CreateCall(opts))
    ensures r.0.Answered? <==> FaultAt(faults, w).None? && !NameInUse(w.containers, "/" + opts.name)
    ensures r.0.Rejected? ==>
      r.0.statusCode == if FaultAt(faults, w).Some? then FaultAt(faults, w).value else Conflict
    ensures WellFormed(w) ==> WellFormed(r.1)
  {
    var w' := Record(w, CreateCall(opts));
    match FaultAt(faults, w)
    case Some(code) => (Rejected(code), w')
    case None =>
      if NameInUse(w.containers, "/" + opts.name) then (Rejected(Conflict), w')
      else
        (Answered(w.nextId),
         w'.(containers := w.containers + [Container(w.nextId, ["/" + opts.name], false)],
             nextId := w.nextId + 1))
  }

  /** Stop a container; a stopped one answers 304. */
  function StopStep(faults: map<nat, nat>, w: World, id: nat): (r: (Answer<()>, World))
    ensures r.1.trace == w.trace + [StopCall(id)] && r.1.nextId == w.nextId
    ensures r.0.Answered? <==>
      && FaultAt(faults, w).None?
      && IndexOfId(w.containers, id).Some?
      && w.containers[IndexOfId(w.containers, id).value].running
    ensures r.0.Answered? ==>
      var k := IndexOfId(w.containers, id).value;
      r.1.containers == w.containers[k := w.containers[k].(running := false)]
    ensures r.0.Rejected? ==> r.1.containers == w.containers
    ensures r.0.Rejected? ==>
      r.0.statusCode ==
        if FaultAt(faults, w).Some? then FaultAt(faults, w).value
        else if IndexOfId(w.containers, id).None? then NotFound
        else NotModified
    ensures WellFormed(w) ==> WellFormed(r.1)
  {
    var w' := Record(w, StopCall(id));
    match FaultAt(faults, w)
    case Some(code) => (Rejected(code), w')
    case None =>
      match IndexOfId(w.containers, id)
      case None => (Rejected(NotFound), w')
      case Some(k) =>
        if !w.containers[k].running then (Rejected(NotModified), w')
        else (Answered(()), w'.(containers := w.containers[k := w.containers[k].(running := false)]))
  }

  /** Remove a stopped container; a running one cannot be removed. */
  function RemoveStep(faults: map<nat, nat>, w: World, id: nat): (r: (Answer<()>, World))
    ensures r.1.trace == w.trace + [RemoveCall(id)] && r.1.nextId == w.nextId
    ensures r.0.Answered? <==>
      && FaultAt(faults, w).None?
      && IndexOfId(w.containers, id).Some?
      && !w.containers[IndexOfId(w.containers, id).value].running
    ensures r.0.Answered? ==>
      var k := IndexOfId(w.containers, id).value;
      r.1.containers == w.containers[..k] + w.containers[k + 1..]
    ensures r.0.Rejected? ==> r.1.containers == w.containers
    ensures r.0.Rejected? ==>
      r.0.statusCode ==
        if FaultAt(faults, w).Some? then FaultAt(faults, w).value
        else if IndexOfId(w.containers, id).None? then NotFound
        else Conflict
    ensures WellFormed(w) ==> WellFormed(r.1)
  {
    var w' := Record(w, RemoveCall(id));
    match FaultAt(faults, w)
    case Some(code) => (Rejected(code), w')
    case None =>
      match IndexOfId(w.containers, id)
      case None => (Rejected(NotFound), w')
      case Some(k) =>
        if w.containers[k].running then (Rejected(Conflict), w')
        else
          var cs' := w.containers[..k] + w.containers[k + 1..];
          assert forall j :: 0 <= j < |cs'| ==> cs'[j] == w.containers[if j < k then j else j + 1];
          (Answered(()), w'.(containers := cs'))
  }

  /** Start a container; a running one answers 304. */
  function StartStep(faults: map<nat, nat>, w: World, id: nat): (r: (Answer<()>, World))
    ensures r.1.trace == w.trace + [StartCall(id)] && r.1.nextId == w.nextId
    ensures r.0.Answered? <==>
      && FaultAt(faults, w).None?
      && IndexOfId(w.containers, id).Some?
      && !w.containers[IndexOfId(w.containers, id).value].running
    ensures r.0.Answered? ==>
      var k := IndexOfId(w.containers, id).value;
      r.1.containers == w.containers[k := w.containers[k].(running := true)]
    ensures r.0.Rejected? ==> r.1.containers == w.containers
    ensures r.0.Rejected? ==>
      r.0.statusCode ==
        if FaultAt(faults, w).Some? then FaultAt(faults, w).value
        else if IndexOfId(w.containers, id).None? then NotFound
        else NotModified
    ensures StartedFrom(w.containers, r.1.containers)
    ensures WellFormed(w) ==> WellFormed(r.1)
  {
    var w' := Record(w, StartCall(id));
    match FaultAt(faults, w)
    case Some(code) => (Rejected(code), w')
    case None =>
      match IndexOfId(w.containers, id)
      case None => (Rejected(NotFound), w')
      case Some(k) =>
        if w.containers[k].running then (Rejected(NotModified), w')
        else (Answered(()), w'.(containers := w.containers[k := w.containers[k].(running := true)]))
  }
}
