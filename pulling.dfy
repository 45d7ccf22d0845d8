/** The image puller: validation of each service, the pull-status
    predicate, the sequential fail-fast pull phase and the selection of the
    services whose image changed (docker-services-deployer.js:14-45,
    151-160). */
module Pulling {
  import opened Values
  import opened Docker
  import opened ContainerOptions
  import Text

  /** What the final progress entry of a pull says: an error when it carries
      an error detail, otherwise whether a new image arrived. An empty
      output crashes when its last entry is read. */
  function PullStatus(image: string, output: seq<ProgressEntry>): (r: Result<bool>)
    ensures |output| == 0 ==> r == Err(NoPullOutput(image))
    ensures |output| > 0 && output[|output| - 1].errorDetail.Some? ==>
      r == Err(PullErrorDetail(image, output[|output| - 1].errorDetail.value))
    ensures |output| > 0 && output[|output| - 1].errorDetail.None? ==>
      r.Ok? && (r.value <==> !Text.Contains(output[|output| - 1].status, UpToDate))
  {
    if |output| == 0 then Err(NoPullOutput(image))
    else
      var last := output[|output| - 1];
      if last.errorDetail.Some? then Err(PullErrorDetail(image, last.errorDetail.value))
      else Ok(Text.IndexOf(last.status, UpToDate) == -1)
  }

  /** The outcome of pulling a service's image, which does not depend on
      the state of the runtime. */
  function Verdict(o: Oracle, s: Service): Result<bool>
  {
    if !Truthy(s.tag) then Err(MissingTag(s.name))
    else if !Truthy(s.registry) then Err(MissingRegistry(s.name))
    else
      match o.pulls(ImageRef(s))
      case PullRejected(code) => Err(PullRefused(ImageRef(s), code))
      case StreamError(reason) => Err(StreamFailed(ImageRef(s), reason))
      case Output(entries) => PullStatus(ImageRef(s), entries)
  }

  /** `pullImage`: a service without a tag, and then one without a
      registry, fails before any request reaches the runtime; otherwise the
      image `registry:tag` is pulled. */
  function PullImage(o: Oracle, w: World, s: Service): (r: (Result<bool>, World))
    ensures r.0 == Verdict(o, s)
    ensures !Truthy(s.tag) ==> r == (Err(MissingTag(s.name)), w)
    ensures Truthy(s.tag) && !Truthy(s.registry) ==> r == (Err(MissingRegistry(s.name)), w)
    ensures ValidService(s) ==> r.1 == Record(w, PullCall(s.registry.value + ":" + s.tag.value))
  {
    if !Truthy(s.tag) then (Err(MissingTag(s.name)), w)
    else if !Truthy(s.registry) then (Err(MissingRegistry(s.name)), w)
    else
      var image := ImageRef(s);
      var (reply, w') := PullStep(o.pulls, w, image);
      match reply
      case PullRejected(code) => (Err(PullRefused(image, code)), w')
      case StreamError(reason) => (Err(StreamFailed(image, reason)), w')
      case Output(entries) => (PullStatus(image, entries), w')
  }

  /** The calls of a successful pull phase: one pull per service, in
      declaration order. */
  function PullCalls(services: seq<Service>): (calls: seq<Call>)
    ensures |calls| == |services|
    ensures forall k :: 0 <= k < |services| ==> calls[k] == PullCall(ImageRef(services[k]))
  {
    if |services| == 0 then [] else [PullCall(ImageRef(services[0]))] + PullCalls(services[1..])
  }

  predicate OnlyPulls(calls: seq<Call>)
  {
    forall k :: 0 <= k < |calls| ==> calls[k].PullCall?
  }

  /** `pullImages`: pull every service's image in order, stopping at the
      first error. On success every service was valid, the results are the
      services' verdicts in declaration order and exactly one pull per
      service was issued. Pulling never touches a container. */
  function PullAll(o: Oracle, w: World, services: seq<Service>): (r: (Result<seq<bool>>, World))
    ensures r.0.Ok? ==>
      && |r.0.value| == |services|
      && (forall k :: 0 <= k < |services| ==> ValidService(services[k]) && Verdict(o, services[k]) == Ok(r.0.value[k]))
      && r.1.trace == w.trace + PullCalls(services)
    ensures r.0.Err? ==> exists k :: 0 <= k < |services| && Verdict(o, services[k]) == Err(r.0.error)
    ensures r.1.containers == w.containers && r.1.nextId == w.nextId
    ensures |w.trace| <= |r.1.trace| && r.1.trace[..|w.trace|] == w.trace
    ensures OnlyPulls(r.1.trace[|w.trace|..])
    decreases |services|
  {
    if |services| == 0 then (Ok([]), w)
    else
      var head := PullImage(o, w, services[0]);
      PullImageGrows(o, w, services[0]);
      if head.0.Err? then (Err(head.0.error), head.1)
      else
        var tail := PullAll(o, head.1, services[1..]);
        PullAllCons(o, w, services, head.0.value, tail.0);
        PullsExtend(w.trace, head.1.trace, tail.1.trace);
        if tail.0.Err? then (Err(tail.0.error), tail.1)
        else
          PullCallsCons(w.trace, head.1.trace, tail.1.trace, services);
          (Ok([head.0.value] + tail.0.value), tail.1)
  }

  /** A pull leaves the containers alone and adds at most a pull request. */
  lemma PullImageGrows(o: Oracle, w: World, s: Service)
    ensures
      var r := PullImage(o, w, s);
      && r.1.containers == w.containers && r.1.nextId == w.nextId
      && |w.trace| <= |r.1.trace| && r.1.trace[..|w.trace|] == w.trace
      && OnlyPulls(r.1.trace[|w.trace|..])
      && (r.0.Ok? ==> r.1.trace == w.trace + [PullCall(ImageRef(s))])
  {
  }

  /** The pull phase's verdicts for a first pull that succeeded, followed
      by the pull phase over the other services. */
  lemma PullAllCons(o: Oracle, w: World, services: seq<Service>, first: bool, rest: Result<seq<bool>>)
    requires |services| > 0
    requires PullImage(o, w, services[0]).0 == Ok(first)
    requires rest.Ok? ==>
      && |rest.value| == |services| - 1
      && (forall k :: 0 <= k < |services[1..]| ==>
            ValidService(services[1..][k]) && Verdict(o, services[1..][k]) == Ok(rest.value[k]))
    requires rest.Err? ==> exists k :: 0 <= k < |services[1..]| && Verdict(o, services[1..][k]) == Err(rest.error)
    ensures rest.Ok? ==>
      && |[first] + rest.value| == |services|
      && (forall k :: 0 <= k < |services| ==>
            ValidService(services[k]) && Verdict(o, services[k]) == Ok(([first] + rest.value)[k]))
    ensures rest.Err? ==> exists k :: 0 <= k < |services| && Verdict(o, services[k]) == Err(rest.error)
  {
    if rest.Err? {
      var k :| 0 <= k < |services[1..]| && Verdict(o, services[1..][k]) == Err(rest.error);
      assert services[1..][k] == services[k + 1];
    } else {
      VerdictsCons(o, services, first, rest.value);
    }
  }

  /** One pull followed by the pulls of the other services is the pull
      phase's trace for all of them. */
  lemma PullCallsCons(a: seq<Call>, b: seq<Call>, c: seq<Call>, services: seq<Service>)
    requires |services| > 0
    requires b == a + [PullCall(ImageRef(services[0]))]
    requires c == b + PullCalls(services[1..])
    ensures c == a + PullCalls(services)
  {
    SeqAssoc(a, [PullCall(ImageRef(services[0]))], PullCalls(services[1..]));
  }

  /** The verdicts of the first service and of the others, together. */
  lemma VerdictsCons(o: Oracle, services: seq<Service>, v: bool, rest: seq<bool>)
    requires |services| > 0 && Verdict(o, services[0]) == Ok(v)
    requires |rest| == |services| - 1
    requires forall k :: 0 <= k < |services[1..]| ==>
      ValidService(services[1..][k]) && Verdict(o, services[1..][k]) == Ok(rest[k])
    ensures forall k :: 0 <= k < |services| ==>
      ValidService(services[k]) && Verdict(o, services[k]) == Ok(([v] + rest)[k])
  {
    forall k | 0 <= k < |services|
      ensures ValidService(services[k]) && Verdict(o, services[k]) == Ok(([v] + rest)[k])
    {
      if k > 0 {
        assert services[k] == services[1..][k - 1];
      }
    }
  }

  /** A trace grown by pulls only, then grown by pulls only again, grew by
      pulls only. */
  lemma PullsExtend(a: seq<Call>, b: seq<Call>, c: seq<Call>)
    requires |a| <= |b| && b[..|a|] == a && OnlyPulls(b[|a|..])
    requires |b| <= |c| && c[..|b|] == b && OnlyPulls(c[|b|..])
    ensures |a| <= |c| && c[..|a|] == a && OnlyPulls(c[|a|..])
  {
    assert c[|a|..] == b[|a|..] + c[|b|..];
  }

  /** Fail-fast: when the pull phase fails, it failed at some service `k`
      whose predecessors all pulled successfully, the error is `k`'s, and
      nothing after `k` was attempted: the runtime is exactly as `k`'s pull
      left it. */
  lemma {:induction false} PullFailFast(o: Oracle, w: World, services: seq<Service>)
    requires PullAll(o, w, services).0.Err?
    ensures exists k :: 0 <= k < |services| && FailsAt(o, w, services, k)
    decreases |services|
  {
    var head := PullImage(o, w, services[0]);
    assert PullAll(o, w, services[..0]) == (Ok([]), w);
    if head.0.Err? {
      assert FailsAt(o, w, services, 0);
    } else {
      var rest := services[1..];
      PullFailFast(o, head.1, rest);
      var k :| 0 <= k < |rest| && FailsAt(o, head.1, rest, k);
      FailsAtShift(o, w, services, k);
    }
  }

  /** A failure at `k` after the first service's successful pull is a
      failure at `k + 1` of the whole phase. */
  lemma FailsAtShift(o: Oracle, w: World, services: seq<Service>, k: nat)
    requires k + 1 < |services|
    requires PullImage(o, w, services[0]).0.Ok?
    requires FailsAt(o, PullImage(o, w, services[0]).1, services[1..], k)
    ensures FailsAt(o, w, services, k + 1)
  {
    PullAllPrefixStep(o, w, services, k + 1);
    assert services[k + 1] == services[1..][k];
  }

  /** Pulling a non-empty prefix pulls its first service, then the rest. */
  lemma PullAllPrefixStep(o: Oracle, w: World, services: seq<Service>, n: nat)
    requires 0 < n <= |services|
    requires PullImage(o, w, services[0]).0.Ok?
    ensures PullAll(o, w, services[..n]) ==
      var head := PullImage(o, w, services[0]);
      var tail := PullAll(o, head.1, services[1..][..n - 1]);
      if tail.0.Err? then (Err(tail.0.error), tail.1) else (Ok([head.0.value] + tail.0.value), tail.1)
  {
    assert services[..n][0] == services[0];
    assert services[..n][1..] == services[1..][..n - 1];
  }

  /** Service `k` is where the pull phase stopped. */
  ghost predicate FailsAt(o: Oracle, w: World, services: seq<Service>, k: nat)
    requires k < |services|
  {
    var done := PullAll(o, w, services[..k]);
    var r := PullImage(o, done.1, services[k]);
    && done.0.Ok?
    && r.0.Err?
    && PullAll(o, w, services) == (Err(r.0.error), r.1)
  }

  /** When no service's image is new, a successful pull phase reports no
      new image. */
  lemma PullAllNoneNew(o: Oracle, w: World, services: seq<Service>)
    requires forall j :: 0 <= j < |services| ==> Verdict(o, services[j]) != Ok(true)
    requires PullAll(o, w, services).0.Ok?
    ensures forall k :: 0 <= k < |services| ==> !PullAll(o, w, services).0.value[k]
  {
    var results := PullAll(o, w, services).0.value;
    forall k | 0 <= k < |services|
      ensures !results[k]
    {
      assert Verdict(o, services[k]) == Ok(results[k]);
    }
  }

  /** When every service's pull succeeds, so does the pull phase. */
  lemma {:induction false} PullAllSucceeds(o: Oracle, w: World, services: seq<Service>)
    requires forall j :: 0 <= j < |services| ==> Verdict(o, services[j]).Ok?
    ensures PullAll(o, w, services).0.Ok?
    decreases |services|
  {
    if |services| > 0 {
      var (first, w1) := PullImage(o, w, services[0]);
      assert services[1..] == services[1..];
      forall j | 0 <= j < |services| - 1
        ensures Verdict(o, services[1..][j]).Ok?
      {
        assert services[1..][j] == services[j + 1];
      }
      PullAllSucceeds(o, w1, services[1..]);
    }
  }

  /** The services whose pull reported a new image (the `_.filter` on the
      results): their positions, in declaration order. */
  function Fetched(results: seq<bool>): (idx: seq<nat>)
    ensures forall j :: 0 <= j < |idx| ==> idx[j] < |results| && results[idx[j]]
    ensures forall a, b :: 0 <= a < b < |idx| ==> idx[a] < idx[b]
    ensures forall i :: 0 <= i < |results| && results[i] ==> i in idx
  {
    if |results| == 0 then []
    else
      var n := |results| - 1;
      var prefix := Fetched(results[..n]);
      assert forall i :: 0 <= i < n ==> results[..n][i] == results[i];
      if results[n] then prefix + [n] else prefix
  }
}
