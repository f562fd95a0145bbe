/** createRunner of src/cli/runner.ts: docker is run as podman; a container
    engine first gets its machine bootstrapped, then the image of a `pull` or
    `run` is pulled through the fallback chain and the image argument is
    rewritten in place to name docker.io; the child is then started with the
    default environment overlaid by the declared one. */
module Runner {
  import opened Wrappers
  import opened Host
  import opened ImageRef
  import opened PullChain
  import opened Bootstrap
  import opened Bridge
  import opened Launch

  predicate MentionsPullOrRun(args: seq<string>) {
    "pull" in args || "run" in args
  }

  /** The arguments the child is started with: only a container engine's
      `pull` or `run` has its located image rewritten, and no other argument
      changes. */
  function RunArgs(command: string, args: seq<string>): (r: seq<string>)
    ensures |r| == |args|
    ensures !IsContainerEngine(command) || !MentionsPullOrRun(args) ==> r == args
    ensures forall j :: 0 <= j < |args| && r[j] != args[j] ==>
      j == OverrideIndex(args) && r[j] == DefaultRegistryPrefix + args[j]
  {
    OverrideChangesOnlyImage(args);
    if IsContainerEngine(command) && MentionsPullOrRun(args) then Overridden(args) else args
  }

  /** Whether the bootstrap lets createRunner go on. */
  predicate BootOk(command: string, platform: string, replies: seq<Reply>, at: nat) {
    !IsContainerEngine(command) || EnsureMachineSpec(platform, replies, at).ok
  }

  /** The effects createRunner issues before starting the child, its first
      effect receiving reply `at`. */
  function RunnerEffects(command: string, args: seq<string>, platform: string,
                         replies: seq<Reply>, at: nat): seq<Effect> {
    if !IsContainerEngine(command) then []
    else EngineEffects(EngineCommand(command), args, EnsureMachineSpec(platform, replies, at), replies, at)
  }

  /** The effects of the container-engine branch: those of the bootstrap
      `b`, then, when it resolved and the command is a `pull` or a `run`, the
      pull chain. */
  function EngineEffects(engine: string, args: seq<string>, b: Boot,
                         replies: seq<Reply>, at: nat): seq<Effect> {
    if !b.ok || !MentionsPullOrRun(args) then b.effects
    else b.effects + HandlePullEffects(engine, args, replies, at + |b.effects|)
  }


  lemma EngineEffectsCompose(engine: string, args: seq<string>, b: Boot, replies: seq<Reply>,
                             t0: seq<Effect>, t1: seq<Effect>, t2: seq<Effect>)
    requires b.ok && t1 == t0 + b.effects
    requires t2 == t1 + (if MentionsPullOrRun(args) then HandlePullEffects(engine, args, replies, |t1|) else [])
    ensures t2 == t0 + EngineEffects(engine, args, b, replies, |t0|)
  {
  }

  /** The `pull`/`run` part of createRunner once the machine is up: pull the
      image through the fallback chain, then rewrite the located image of the
      caller's argument array in place. */
  method PullAndOverride(shell: Shell, engine: string, finalArgs: array<string>)
    modifies shell, finalArgs
    ensures shell.trace == old(shell.trace)
      + (if MentionsPullOrRun(old(finalArgs[..]))
         then HandlePullEffects(engine, old(finalArgs[..]), shell.replies, |old(shell.trace)|) else [])
    ensures finalArgs[..] == (if MentionsPullOrRun(old(finalArgs[..])) then Overridden(old(finalArgs[..]))
                              else old(finalArgs[..]))
  {
    if "pull" in finalArgs[..] || "run" in finalArgs[..] {
      var resultCommand, resultArgs := HandleContainerPull(shell, engine, finalArgs[..]);
    }
    if "pull" in finalArgs[..] || "run" in finalArgs[..] {
      OverrideRegistry(finalArgs);
    }
  }

  /** The container-engine branch of createRunner: bootstrap the machine,
      then pull and rewrite. False when the bootstrap failed, in which case
      the arguments are left as they were. */
  method PrepareEngine(shell: Shell, engine: string, platform: string, finalArgs: array<string>)
    returns (ok: bool)
    modifies shell, finalArgs
    ensures ok == EnsureMachineSpec(platform, shell.replies, |old(shell.trace)|).ok
    ensures shell.trace == old(shell.trace)
      + EngineEffects(engine, old(finalArgs[..]), EnsureMachineSpec(platform, shell.replies, |old(shell.trace)|),
                      shell.replies, |old(shell.trace)|)
    ensures finalArgs[..] == (if ok && MentionsPullOrRun(old(finalArgs[..])) then Overridden(old(finalArgs[..]))
                              else old(finalArgs[..]))
  {
    ghost var t0 := shell.trace;
    ghost var b := EnsureMachineSpec(platform, shell.replies, |t0|);
    var boot := EnsurePodmanMachineRunning(shell, platform);
    if boot.Fail? {
      return false;
    }
    ghost var a0 := finalArgs[..];
    ghost var t1 := shell.trace;
    PullAndOverride(shell, engine, finalArgs);
    EngineEffectsCompose(engine, a0, b, shell.replies, t0, t1, shell.trace);
    return true;
  }

  /** createRunner. `defaults` is the SDK's default environment and
      `startOk` whether the transport started. */
  method CreateRunner(shell: Shell, connection: StdioConnection, platform: string,
                      defaults: map<string, string>, startOk: bool)
    returns (r: Result<Started, RunnerError>)
    modifies shell, if connection.args.Some? then {connection.args.value} else {}
    ensures var at := |old(shell.trace)|;
      var args0 := old(ArgsOf(connection));
      shell.trace == old(shell.trace) + RunnerEffects(connection.command, args0, platform, shell.replies, at)
      && (!BootOk(connection.command, platform, shell.replies, at) ==>
            r == Err(BootstrapFailed(BootstrapError)) && ArgsOf(connection) == args0)
      && (BootOk(connection.command, platform, shell.replies, at) ==>
            ArgsOf(connection) == RunArgs(connection.command, args0)
            && (!startOk ==> r == Err(StartFailed))
            && (startOk ==>
                  r.Ok? && fresh(r.value.state) && r.value.state.JustStarted()
                  && r.value.launch == Launch(EngineCommand(connection.command),
                                              RunArgs(connection.command, args0),
                                              Overlay(defaults, DeclaredEnv(connection)))))
  {
    var state := new RunnerState();
    var command := connection.command;
    var finalArgs: array<string>;
    if connection.args.Some? {
      finalArgs := connection.args.value;
    } else {
      finalArgs := new string[0];
    }
    var finalCommand := command;
    if command == "docker" || command == "podman" {
      if command == "docker" {
        finalCommand := "podman";
      }
      var ok := PrepareEngine(shell, finalCommand, platform, finalArgs);
      if !ok {
        return Err(BootstrapFailed(BootstrapError));
      }
    }
    var launch := Launch(finalCommand, finalArgs[..], Overlay(defaults, DeclaredEnv(connection)));
    state.transport := true;
    if !startOk {
      return Err(StartFailed);
    }
    state.isReady := true;
    return Ok(Started(state, launch));
  }
}
