/** Values shared by the whole model: the declared services, what the
    container runtime reports and is asked to do, and the errors that end
    a reconciliation run. */
module Values {

  datatype Option<T> = None | Some(value: T)

  /** The error (or crash) that ends a run. */
  datatype Error =
    | MissingTag(service: string)
    | MissingRegistry(service: string)
      // the runtime refused to start the pull
    | PullRefused(image: string, statusCode: nat)
      // the progress stream itself reported an error
    | StreamFailed(image: string, reason: string)
      // the last progress entry carried an error detail
    | PullErrorDetail(image: string, detail: string)
      // the pull finished without any progress entry: reading the last
      // entry crashes
    | NoPullOutput(image: string)
      // pushing the host IP onto an environment the service does not have
      // crashes
    | EnvMissing(service: string)
      // list, create, stop, remove or start answered with an error
    | ApiFailure(call: Call, statusCode: nat)

  datatype Result<T> = Ok(value: T) | Err(error: Error)

  /** A declared service, as read from the configuration document.
      A missing key is `None`. */
  datatype Service = Service(
    name: string,
    registry: Option<string>,
    tag: Option<string>,
    cmd: Option<seq<string>>,
    env: Option<seq<string>>,
    port: Option<nat>,
    links: Option<seq<string>>)

  /** A container as the runtime lists it (stopped ones included). */
  datatype Container = Container(id: nat, names: seq<string>, running: bool)

  datatype RestartPolicy = RestartPolicy(name: string, maximumRetryCount: nat)

  datatype PortBinding = PortBinding(hostPort: string)

  /** The container-creation request. */
  datatype CreateOptions = CreateOptions(
    image: string,
    cmd: Option<seq<string>>,
    name: string,
    env: Option<seq<string>>,
    exposedPorts: set<string>,
    portBindings: map<string, seq<PortBinding>>,
    links: Option<seq<string>>,
    restartPolicy: RestartPolicy)

  /** One request to the runtime, as recorded in the runtime's trace. */
  datatype Call =
    | ListCall
    | PullCall(image: string)
    | CreateCall(opts: CreateOptions)
    | StopCall(id: nat)
    | RemoveCall(id: nat)
    | StartCall(id: nat)

  /** One entry of a pull's progress output. */
  datatype ProgressEntry = ProgressEntry(status: string, errorDetail: Option<string>)

  /** How a pull ends: refused outright, a failed progress stream, or the
      complete progress output. */
  datatype PullReply =
    | PullRejected(statusCode: nat)
    | StreamError(reason: string)
    | Output(entries: seq<ProgressEntry>)

  /** One address of a host network interface. */
  datatype Address = Address(family: string, address: string)
}
