/** Service validation, the image reference, the host-IP annotation of a
    service's environment and the container-creation request
    (docker-services-deployer.js:18-22, 121-146, 174-189). */
module ContainerOptions {
  import opened Values
  import Text

  const UpToDate := "Image is up to date"
  const HostIpVariable := "DOCKER_HOST_IP="
  const Ipv4 := "IPv4"
  const RestartAlways := RestartPolicy("always", 5)

  /** JavaScript truthiness of an optional string: present and non-empty. */
  predicate Truthy(o: Option<string>)
  {
    o.Some? && o.value != ""
  }

  predicate ValidService(s: Service)
  {
    Truthy(s.tag) && Truthy(s.registry)
  }

  /** An optional string as JavaScript's `+` renders it. */
  function Render(o: Option<string>): string
  {
    match o
    case None => "undefined"
    case Some(v) => v
  }

  /** `registry + ':' + tag`. */
  function ImageRef(s: Service): (image: string)
    ensures ValidService(s) ==> image == s.registry.value + ":" + s.tag.value
  {
    Render(s.registry) + ":" + Render(s.tag)
  }

  /** A port is published only when it is set and not 0 (JavaScript
      truthiness). */
  predicate HasPort(s: Service)
  {
    s.port.Some? && s.port.value != 0
  }

  function PortKey(port: nat): string
  {
    Text.Decimal(port) + "/tcp"
  }

  /** The address of the first IPv4 entry of an interface, as lodash's
      `findWhere(entries, {family: 'IPv4'})` selects it. */
  function FirstIpv4(entries: seq<Address>): (r: Option<string>)
    ensures r.None? <==> forall k :: 0 <= k < |entries| ==> entries[k].family != Ipv4
    ensures r.Some? ==> exists k :: 0 <= k < |entries| && entries[k].family == Ipv4
                                  && entries[k].address == r.value
                                  && forall j :: 0 <= j < k ==> entries[j].family != Ipv4
  {
    if |entries| == 0 then None
    else if entries[0].family == Ipv4 then Some(entries[0].address)
    else
      var r := FirstIpv4(entries[1..]);
      assert forall j :: 1 <= j < |entries| ==> entries[j] == entries[1..][j - 1];
      r
  }

  /** The host's address: `eth0` if the host has it, otherwise `en0`; the
      first IPv4 address of that interface, unless it is empty. */
  function HostIp(interfaces: map<string, seq<Address>>): (r: Option<string>)
    ensures "eth0" in interfaces ==>
      r == (var a := FirstIpv4(interfaces["eth0"]); if a.Some? && a.value != "" then a else None)
    ensures "eth0" !in interfaces && "en0" in interfaces ==>
      r == (var a := FirstIpv4(interfaces["en0"]); if a.Some? && a.value != "" then a else None)
    ensures "eth0" !in interfaces && "en0" !in interfaces ==> r == None
    ensures r.Some? ==> r.value != ""
  {
    var primary := if "eth0" in interfaces then Some(interfaces["eth0"])
                   else if "en0" in interfaces then Some(interfaces["en0"])
                   else None;
    if primary.None? then None
    else
      var a := FirstIpv4(primary.value);
      if a.Some? && a.value != "" then a else None
  }

  /** The environment after `addHostIp`: one `DOCKER_HOST_IP=<address>`
      entry appended when the host has an address, otherwise unchanged;
      pushing onto a missing environment crashes. */
  function WithHostIp(service: string, env: Option<seq<string>>, interfaces: map<string, seq<Address>>)
    : (r: Result<Option<seq<string>>>)
    ensures HostIp(interfaces).None? ==> r == Ok(env)
    ensures HostIp(interfaces).Some? && env.None? ==> r == Err(EnvMissing(service))
    ensures HostIp(interfaces).Some? && env.Some? ==>
      && r.Ok? && r.value.Some?
      && |r.value.value| == |env.value| + 1
      && r.value.value[..|env.value|] == env.value
      && r.value.value[|env.value|] == HostIpVariable + HostIp(interfaces).value
  {
    match HostIp(interfaces)
    case None => Ok(env)
    case Some(address) =>
      if env.None? then Err(EnvMissing(service))
      else Ok(Some(env.value + [HostIpVariable + address]))
  }

  /** The creation request `createContainer` builds for a service (whose
      environment has already been annotated). */
  function BuildOptions(s: Service): (o: CreateOptions)
    ensures o.image == ImageRef(s) && o.name == s.name && o.cmd == s.cmd && o.env == s.env
    ensures o.restartPolicy.name == "always" && o.restartPolicy.maximumRetryCount == 5
    ensures o.links == s.links
    ensures o.exposedPorts == o.portBindings.Keys
    ensures !HasPort(s) ==> o.exposedPorts == {}
    ensures HasPort(s) ==> |o.exposedPorts| == 1
    ensures forall key :: key in o.portBindings ==>
      && |o.portBindings[key]| == 1
      && key == o.portBindings[key][0].hostPort + "/tcp"
      && (forall k :: 0 <= k < |o.portBindings[key][0].hostPort| ==> Text.IsDigit(o.portBindings[key][0].hostPort[k]))
      && Text.ParseDecimal(o.portBindings[key][0].hostPort) == s.port.value
    ensures forall key :: key in o.portBindings ==>
      o.portBindings[key][0].hostPort == Text.Decimal(s.port.value) && key == Text.Decimal(s.port.value) + "/tcp"
  {
    var ports: set<string> := if HasPort(s) then {PortKey(s.port.value)} else {};
    var bindings: map<string, seq<PortBinding>> :=
      if HasPort(s) then map[PortKey(s.port.value) := [PortBinding(Text.Decimal(s.port.value))]]
      else map[];
    Text.DecimalRoundTrip(if s.port.Some? then s.port.value else 0);
    CreateOptions(ImageRef(s), s.cmd, s.name, s.env, ports, bindings, s.links, RestartAlways)
  }
}
