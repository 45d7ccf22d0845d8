# docker-services-deployer, modelled in Dafny

`docker-services-deployer` brings a container runtime in line with a list of
declared services in one reconciliation run. The run has three phases,
executed strictly in this order and each only after the previous one
succeeded:

1. **Pull**: pull every service's image `registry:tag`, in declaration order.
   Record for each whether a new image arrived, judged from the last progress
   entry of the pull.
2. **Recreate**: only for the services whose pull reported a new image, look
   up the service's container by name. If there is one, stop it (304 "not
   modified" counts as success) and remove it. Then create a new container.
   Nothing is started in this phase.
3. **Ensure running**: for every declared service, find its container or
   create one. Then start all of them in order (304 counts as success).

Every phase is sequential and fail-fast: the first error ends the phase and the run.
Before a container is created, `addHostIp` appends `DOCKER_HOST_IP=<address>`
in place to the service's environment. It only does so when the host's
`eth0` (or, when there is no `eth0`, `en0`) interface has an IPv4 address.

The model:

- `values.dfy` (`Values`): services, containers, creation requests, runtime
  requests, pull replies and errors.
- `text.dfy` (`Text`): JavaScript's `indexOf` and the decimal text of a port.
- `docker.dfy` (`Docker`): the runtime as an abstract state `World`. It holds
  the containers, the next id to hand out, and the trace of every request the
  runtime received. It has one step function per request: list, pull, create,
  stop, remove, start. Which requests fail, and with which status, is an input
  (`Oracle.faults`, keyed by the request's position in the trace). So are the
  pull replies (`Oracle.pulls`) and the host's interfaces
  (`Oracle.interfaces`).
- `options.dfy` (`ContainerOptions`): service validation, the image
  reference, the IPv4 lookup, the host-IP annotation and the creation
  request.
- `pulling.dfy` (`Pulling`): the pull-status predicate, `pullImage`, the pull
  phase and the new-images filter.
- `lifecycle.dfy` (`Lifecycle`): `getContainer`, `createContainer`,
  `reCreateContainer` and the recreate phase, `checkContainer`,
  `checkRunning` and the ensure-running phase, and the whole run. All are
  functions of the run's state: the declared services and the runtime. Next
  to them are the lemmas about phase order, the fail-fast pull and start
  passes, a failed phase ending the run where it stopped, recreating only
  on change, and idempotence. The fail-fast lemmas for the recreate and
  resolve passes are in `Phases`.
- `engine.dfy` (`Deployer`): the deployer as it executes, the class `Engine`.
  Its fields are the configuration's services, whose environments
  `addHostIp` mutates, and the runtime state. Its methods are the helpers of
  `main`, with the sequential series as `while` loops. Each method is proved
  to leave the engine exactly as the corresponding `Pulling`/`Lifecycle`
  function says. So every lemma about those functions holds of an
  `Engine.Reconcile` run.
- `phases.dfy` (`Phases`): statements over whole passes. They cover when
  the start pass fails, where a failed recreate or resolve pass stopped,
  what a successful recreate pass requested, what the recreated names
  resolve to afterwards, and which containers a run may stop or remove.

The recreate phase receives the services whose image changed as positions
into the configuration's service list. This makes `createContainer`'s
annotation of a service's environment in the recreate phase visible to the
ensure-running phase, as the source's shared service objects make it.

## Model

| member | source | states |
|---|---|---|
| Text.IndexOf | docker-services-deployer.js:37 | `indexOf` is -1 exactly when the text does not occur, and otherwise is the first position where it occurs |
| Text.Decimal | docker-services-deployer.js:140-141 | the text of a port is all decimal digits and starts with `0` only for port 0 |
| Text.DecimalRoundTrip | docker-services-deployer.js:140-141 | the host port text `'' + port` reads back as the same port number |
| Text.DecimalInjective | docker-services-deployer.js:140-141 | distinct ports give distinct port texts |
| Docker.ListStep | docker-services-deployer.js:110 | listing changes no container and reports all of them, stopped ones included |
| Docker.PullStep | docker-services-deployer.js:24 | a pull records one pull request for the image and changes no container and no id counter; its reply is the registry's reply for that image and nothing else |
| Docker.CreateStep | docker-services-deployer.js:148 | a create is accepted exactly when no fault is injected and no container already has the name `/<name>`; it then appends one stopped container with that name and a fresh id; a refusal carries the injected status, or 409 for a clashing name, and changes nothing; ids stay unique |
| Docker.StopStep | docker-services-deployer.js:88 | stop succeeds exactly when no fault is injected and the container exists and runs, and then only clears its running flag; a refusal carries the injected status, else 404 for an unknown id, else 304 |
| Docker.RemoveStep | docker-services-deployer.js:98 | remove succeeds exactly when no fault is injected and the container exists and is stopped, and then deletes exactly that container and keeps the runtime well formed; a refusal carries the injected status, else 404 for an unknown id, else 409 |
| Docker.StartStep | docker-services-deployer.js:56 | start succeeds exactly when no fault is injected and the container exists and is stopped, and only ever sets running flags; a refusal carries the injected status, else 404 for an unknown id, else 304 |
| Docker.IndexOfId | docker-services-deployer.js:117 | the handle `getContainer(Id)` designates the container with that id, if there is one |
| ContainerOptions.ImageRef | docker-services-deployer.js:22 | the image of a valid service is exactly `registry + ':' + tag` |
| ContainerOptions.FirstIpv4 | docker-services-deployer.js:180-183 | the address of the first IPv4 entry, none exactly when no entry is IPv4 |
| ContainerOptions.HostIp | docker-services-deployer.js:176-184 | `eth0` is used whenever present (then `en0` is not consulted), otherwise `en0`; an address is found only when non-empty |
| ContainerOptions.WithHostIp | docker-services-deployer.js:185-188 | exactly one `DOCKER_HOST_IP=<address>` entry is appended after the unchanged existing entries when an address is found, otherwise the environment is unchanged; pushing onto a missing environment crashes |
| ContainerOptions.BuildOptions | docker-services-deployer.js:121-146 | image `registry:tag`, name, command, environment, links as declared; restart policy `always` with 5 retries; exposed ports and port bindings share the single key `<port>/tcp`, written as the port's decimal text, whose host port is that same text; both are empty without a port |
| Pulling.PullStatus | docker-services-deployer.js:28-38 | an error detail on the last entry is an error; otherwise "fetched" holds exactly when the last status does not contain `Image is up to date`; no entry at all crashes |
| Pulling.PullImage | docker-services-deployer.js:18-45 | a missing tag, then a missing registry, fails before any request; otherwise exactly one pull of `registry:tag`; the outcome is the service's verdict |
| Pulling.PullAll | docker-services-deployer.js:14-16 | on success every service was valid, the results are the services' verdicts in order and one pull per service was issued; on failure the error is some service's; containers are never touched |
| Pulling.PullFailFast | docker-services-deployer.js:14-16 | a failed pull phase failed at one service: all earlier pulls succeeded, the error is that service's and no later pull was attempted |
| Pulling.PullAllSucceeds | docker-services-deployer.js:14-16 | when every service's pull succeeds, the pull phase succeeds |
| Pulling.PullAllNoneNew | docker-services-deployer.js:153-157 | when no image is new, the phase reports no new image |
| Pulling.Fetched | docker-services-deployer.js:155-157 | the services forwarded to recreate are exactly those whose result is `true`, in declaration order |
| Lifecycle.FindByName | docker-services-deployer.js:112-114 | the first container whose names contain exactly `/<name>`, none exactly when no container has that name |
| Lifecycle.NamedId | docker-services-deployer.js:112-117 | a name resolves to no container exactly when no container has that name, and otherwise to the id of the first container carrying `/<name>` |
| Lifecycle.SoleHolderAppended | docker-services-deployer.js:112-117 | a container created under a name no container has becomes the only holder of that name, and the name resolves to it |
| Lifecycle.FindByNameExtend | docker-services-deployer.js:112-114 | appending containers does not change what a name already resolves to |
| Lifecycle.GetContainer | docker-services-deployer.js:109-119 | one list request that changes nothing; fails exactly when the list fails; otherwise returns the id the name resolves to |
| Lifecycle.CreateContainer | docker-services-deployer.js:121-149 | annotates only this service's environment, then issues one create built from the annotated service, and a crash in `addHostIp` issues nothing; the outcome is the runtime's answer to that create: success exactly when it was accepted, otherwise the create's status; a created container gets the next id and is then the only holder of the service's name |
| Lifecycle.RemoveThenCreate | docker-services-deployer.js:96-105 | a refused remove ends with the remove's error and issues no create; an accepted remove continues exactly as `createContainer`; on success the service's name is held only by a newly created container |
| Lifecycle.Replace | docker-services-deployer.js:85-105 | a stop answered with neither success nor 304 ends with the stop's error and issues nothing more; otherwise it continues with remove then create; on success the service's name is held only by a newly created container |
| Lifecycle.ReCreateContainer | docker-services-deployer.js:79-107 | a refused list ends with the list's error; otherwise a name that resolves to nothing goes to `createContainer`, and a name that resolves to a container goes to stop, remove and create of that container; on success the name is held only by a newly created container, and the runtime stays well formed |
| Lifecycle.ReCreateAbsent | docker-services-deployer.js:81-106 | with no existing container: exactly a list and then a create built from the service, unless `addHostIp` crashes, in which case only the list and the error `EnvMissing`; a failed create fails with the create's status |
| Lifecycle.ReCreateExisting | docker-services-deployer.js:81-106 | with an existing container: list, stop, remove, create of that container in order; it ends after the stop exactly when the stop was answered with neither success nor 304, and fails with the remove's error and status exactly when the remove was refused |
| Lifecycle.ReCreateCalls | docker-services-deployer.js:79-107 | recreating lists first, creates only as its last request and only for its own service, and never pulls or starts |
| Lifecycle.ReCreateAll | docker-services-deployer.js:74-77 | the recreate phase keeps the declarations, never lowers the next id, keeps the runtime well formed, and on success yields one container per service |
| Phases.ReCreateAllFailFast | docker-services-deployer.js:74-77 | fail-fast: a failed recreate pass recreated every service before one service `m`, failed on `m` with `m`'s error, and ended in the state `m`'s recreation left, so nothing was requested for the services after it |
| Lifecycle.ReCreateAllCalls | docker-services-deployer.js:74-77 | the recreate phase never pulls or starts, and creates containers only for the services it was given |
| Phases.ReCreateRound | docker-services-deployer.js:79-107 | a successful recreation requested a list and a create for the service, or a list, a stop and a remove of the container its name resolved to, and then the create |
| Phases.ReCreateAllRounds | docker-services-deployer.js:74-107 | a successful recreate pass requested exactly one such round per service, in order, and nothing else |
| Phases.ReCreateAllResolves | docker-services-deployer.js:74-107 | after a successful recreate pass, each recreated service's name resolves to the container the pass returned for it, and no other container has that name |
| Phases.ReCreateAllFresh | docker-services-deployer.js:74-77 | the ids a successful recreate pass returns were handed out during the pass, in increasing order |
| Phases.ReCreateAllKeeps | docker-services-deployer.js:74-77 | recreating other services leaves the only holder of a name as it was |
| Phases.ReCreateAllOwned | docker-services-deployer.js:74-107 | a recreate pass stops and removes only containers that carried the name of one of its services, or that it created itself |
| Phases.DeployOwned | docker-services-deployer.js:155-170 | a deployment stops and removes only containers that, when it began, carried the name of a service whose pull reported a new image, or containers it created itself |
| Phases.ReconcileOwned | docker-services-deployer.js:151-171 | recreate only on change, over a whole run: a run stops and removes only containers that carried the name of a service whose image changed, or containers it created itself |
| Lifecycle.CheckContainer | docker-services-deployer.js:65-72 | a refused list ends with the list's error and nothing else is requested; an existing container is used as it is; a missing one is created exactly as `createContainer`; the id returned is the one the name resolves to afterwards |
| Lifecycle.ResolveAll | docker-services-deployer.js:48 | the resolving pass keeps the declarations and existing containers, and yields one id per service |
| Phases.ResolveAllFailFast | docker-services-deployer.js:48 | fail-fast: a failed resolve pass resolved every service before one service `m`, failed on `m` with the error of `m`'s `checkContainer`, and ended in the state it left, so nothing was requested for the services after it |
| Lifecycle.ResolveAllCalls | docker-services-deployer.js:48 | the resolving pass only lists and creates |
| Lifecycle.ResolveAllIds | docker-services-deployer.js:48 | every id the resolving pass returns is the one its service's name resolves to once the pass is over |
| Lifecycle.StartAll | docker-services-deployer.js:50-63 | the start pass only ever sets containers running; on success it issued one start per container in order |
| Lifecycle.StartAllFailFast | docker-services-deployer.js:54-63 | a failed start pass started a prefix of the containers and failed on the last one with a status other than 304 |
| Phases.StartAllOutcome | docker-services-deployer.js:50-63 | the start pass succeeds exactly when every start is answered with success or 304; otherwise it ends at the first other answer with that start's error and status, having issued the starts up to that one and no more |
| Lifecycle.NamedIdStarted | docker-services-deployer.js:50 | starting containers does not change what a name resolves to |
| Lifecycle.CheckContainers | docker-services-deployer.js:47-52 | the ensure-running phase keeps the declarations |
| Lifecycle.CheckContainersResolveFailure | docker-services-deployer.js:48-50 | a failed resolve pass ends the ensure-running phase with its error in the state the pass left: no start is issued, and the pass itself only listed and created |
| Lifecycle.CheckContainersCalls | docker-services-deployer.js:47-52 | the ensure-running phase never stops, removes or pulls, and all its starts come after all its lists and creates |
| Lifecycle.CheckContainersStarts | docker-services-deployer.js:47-52 | a successful ensure-running phase ends with one start per declared service, in order, of the container the service's name resolves to |
| Lifecycle.Deploy | docker-services-deployer.js:162-170 | the recreate and ensure-running phases keep the declarations |
| Lifecycle.Reconcile | docker-services-deployer.js:151-171 | a run keeps the declarations and only adds requests to the trace |
| Lifecycle.DeployCalls | docker-services-deployer.js:162-170 | after the pull phase there are no pulls, and no request but a start follows a start |
| Lifecycle.ReconcileOrder | docker-services-deployer.js:151-171 | in a run no pull follows another request and nothing but starts follows a start |
| Lifecycle.ReconcilePullFailure | docker-services-deployer.js:152-154 | a failed pull phase ends the run with its error; only pulls were issued and no container or environment changed |
| Lifecycle.DeployRecreateFailure | docker-services-deployer.js:162-165 | a failed recreate phase ends the run with its error in exactly the state the recreate phase left: the ensure-running phase requests nothing, and no container is started |
| Lifecycle.ReconcileRejectsInvalid | docker-services-deployer.js:19-20 | a run with a service lacking a tag or registry fails, changes no container and annotates no environment |
| Lifecycle.NoneFetched | docker-services-deployer.js:155-157 | when no result is `true`, no service is forwarded to recreate |
| Lifecycle.DeployNothingFetched | docker-services-deployer.js:162-170 | with no new image the later phases never stop or remove |
| Lifecycle.ReconcileNothingFetched | docker-services-deployer.js:151-171 | when no service's pull reports a new image, a run never stops or removes a container |
| Lifecycle.DeployStarts | docker-services-deployer.js:162-170 | a successful deployment ends by starting each service's container in declaration order |
| Lifecycle.ReconcileSuccess | docker-services-deployer.js:151-171 | a successful run validated every service and ended with one start per declared service, in order, of the container its name resolves to |
| Lifecycle.ResolveAllFound | docker-services-deployer.js:65-72 | without faults, resolving services that all have a container issues one list each, creates nothing and returns their ids |
| Lifecycle.StartAllRunning | docker-services-deployer.js:56-58 | without faults, starting containers that already run succeeds (each start answers 304) and changes no container |
| Lifecycle.IndexOfUniqueId | docker-services-deployer.js:117 | in a runtime with unique ids, an id designates exactly its container |
| Lifecycle.ResolvedRunning | docker-services-deployer.js:47-63 | in the steady state both passes of ensure-running succeed without changing any container |
| Lifecycle.CheckContainersSteady | docker-services-deployer.js:47-72 | idempotence: without faults and with every container present and running, ensure-running succeeds and changes no container or environment |
| Lifecycle.CheckContainersSteadyCalls | docker-services-deployer.js:47-72 | in that state its requests are exactly one list per service, then one start per service of its own container: no create, stop or remove |
| Lifecycle.DeploySteady | docker-services-deployer.js:162-170 | with no new image over a steady runtime the later phases change nothing |
| Lifecycle.ReconcileSteady | docker-services-deployer.js:151-171 | idempotence of a run: with no faults, every image up to date and every container running, a run succeeds and changes no container and no environment |
| Deployer.Engine.PullImage | docker-services-deployer.js:18-45 | the method leaves the runtime and returns exactly as `Pulling.PullImage` |
| Deployer.Engine.PullImages | docker-services-deployer.js:14-16 | the loop over the services leaves the runtime and returns exactly as `Pulling.PullAll` |
| Deployer.Engine.GetContainer | docker-services-deployer.js:109-119 | behaves exactly as `Lifecycle.GetContainer` |
| Deployer.Engine.AddHostIp | docker-services-deployer.js:174-189 | mutates only the environment of its service, exactly as `ContainerOptions.WithHostIp` says, and issues no request |
| Deployer.Engine.CreateContainer | docker-services-deployer.js:121-149 | behaves exactly as `Lifecycle.CreateContainer` |
| Deployer.Engine.ReCreateContainer | docker-services-deployer.js:79-107 | the stop, remove, create waterfall behaves exactly as `Lifecycle.ReCreateContainer` |
| Deployer.Engine.ReCreateContainers | docker-services-deployer.js:74-77 | the loop behaves exactly as `Lifecycle.ReCreateAll` |
| Deployer.Engine.CheckContainer | docker-services-deployer.js:65-72 | behaves exactly as `Lifecycle.CheckContainer` |
| Deployer.Engine.CheckRunning | docker-services-deployer.js:54-63 | one start; success exactly when the start succeeds or answers 304, otherwise the start's error |
| Deployer.Engine.ResolveContainers | docker-services-deployer.js:48 | the loop behaves exactly as `Lifecycle.ResolveAll` over all services |
| Deployer.Engine.StartContainers | docker-services-deployer.js:50 | the loop behaves exactly as `Lifecycle.StartAll` |
| Deployer.Engine.CheckContainers | docker-services-deployer.js:47-52 | behaves exactly as `Lifecycle.CheckContainers` |
| Deployer.Engine.Reconcile | docker-services-deployer.js:151-171 | the whole run behaves exactly as `Lifecycle.Reconcile` |

## Left out

- Command-line parsing, the usage message and process exit (docker-services-deployer.js:191-196, 216-223) are process I/O.
- `loadConfigFile`, which reads the configuration from a file or over HTTP (docker-services-deployer.js:199-214), is file and network I/O. The model starts from the parsed service list.
- `console.log`, `debug` and the progress dots are logging only and do not affect control flow.
- The runtime is an abstract state, not a client of a real runtime. The `docker.modem.followProgress` stream is reduced to its outcome: a refused pull, a stream error, or the list of progress entries.
- `os.networkInterfaces()` is an input map (`Oracle.interfaces`). It is read once per create and does not change during a run.
- `util.inspect` message formatting is not modelled. An error names only the service, image or request and the reason.
- Docker.StopStep, Docker.RemoveStep, Docker.StartStep, Docker.CreateStep: only 304 is significant to the deployer. The 404 and 409 answers for unknown ids, running containers and clashing names stand in for the runtime's other refusals, and any request can fail with an injected status.
- Pulling.Verdict: a pull's outcome depends only on the image. Two services sharing one image therefore get the same answer in one run, whereas a real registry would report the second pull as up to date.
- Pulling.PullStatus: a last progress entry without a `status` field is not modelled (the status is always a string).
- Values.Service: `cmd`, `env` and `links` are arrays when present, and `port` is a non-negative integer. Other JSON values in these keys are not modelled.
- Deployer.Engine: the source passes container handles from `docker.getContainer(Id)` to `stop`, `remove` and `start`. The model passes the id, since making a handle issues no request.
- Lifecycle.ReconcileRejectsInvalid: when an earlier service's pull fails first, the run's error names that earlier service, not the invalid one. The lemma therefore does not say which service the error names.

The model follows the code in these behaviours:
- `en0` is consulted only when the host has no `eth0`, not when `eth0` lacks an IPv4 address.
- An environment that is missing when an address is found makes `addHostIp` crash. This is modelled as the error `EnvMissing`.
- An empty pull output makes reading the last entry crash. This is modelled as `NoPullOutput`.
