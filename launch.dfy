/** What both runners share about starting the child: the connection
    descriptor of src/types/registry.ts, the docker-to-podman substitution,
    and the environment the child is started with. */
module Launch {
  import opened Wrappers
  import opened Bridge

  /** A stdio connection: the command, its optional arguments and its
      optional environment. The arguments are the caller's own array, which
      createRunner of src/cli/runner.ts rewrites in place. */
  datatype StdioConnection = StdioConnection(
    command: string,
    args: Option<array<string>>,
    env: Option<map<string, string>>)

  /** What the transport to the child is constructed with. */
  datatype Launch = Launch(command: string, args: seq<string>, env: map<string, string>)

  /** A runner: its state and what its child was started with. */
  datatype Started = Started(state: RunnerState, launch: Launch)

  /** Why createRunner rejects: the machine bootstrap failed, or the
      transport did not start. */
  datatype RunnerError = BootstrapFailed(message: string) | StartFailed

  /** Only these two commands go through the machine bootstrap. */
  predicate IsContainerEngine(command: string) {
    command == "docker" || command == "podman"
  }

  /** The command the child is started with: docker is run as podman. */
  function EngineCommand(command: string): (r: string)
    ensures IsContainerEngine(command) ==> r == "podman"
    ensures !IsContainerEngine(command) ==> r == command
  {
    if command == "docker" then "podman" else command
  }

  /** `{ ...defaults, ...env }`: every key of either, the declared value
      winning on a collision. */
  function Overlay(defaults: map<string, string>, env: map<string, string>): (r: map<string, string>)
    ensures r.Keys == defaults.Keys + env.Keys
    ensures forall k :: k in env ==> r[k] == env[k]
    ensures forall k :: k in defaults && k !in env ==> r[k] == defaults[k]
  {
    defaults + env
  }

  /** `args = []` when the connection declares none. */
  function ArgsOf(connection: StdioConnection): seq<string>
    reads if connection.args.Some? then {connection.args.value} else {}
  {
    match connection.args
    case None => []
    case Some(a) => a[..]
  }

  /** `env = {}` when the connection declares none. */
  function DeclaredEnv(connection: StdioConnection): map<string, string> {
    match connection.env
    case None => map[]
    case Some(e) => e
  }
}
