/** The older runner of src/cli/run/vm-runner.ts: any Podman machine will do
    (init and start when there is none, start when none is running), there is
    no default connection and no verification loop, and the arguments are
    passed to the child as they are. Its RunnerState, processMessage, send,
    cleanup and event handlers are those of Bridge. */
module VmRunner {
  import opened Wrappers
  import opened Host
  import opened Bootstrap
  import opened Bridge
  import opened Launch

  const AnyInitLine: string := "podman machine init"
  const AnyStartLine: string := "podman machine start"

  /** `machines.some(m => m.Running)`. */
  predicate AnyRunning(ms: seq<Machine>) {
    exists i :: 0 <= i < |ms| && ms[i].running
  }

  /** The commands that bring some machine up. */
  function AnyMachineLines(ms: seq<Machine>): seq<string> {
    if |ms| == 0 then [AnyInitLine, AnyStartLine]
    else if !AnyRunning(ms) then [AnyStartLine]
    else []
  }

  /** The bootstrap as a function of the platform and the replies, the
      machine list receiving reply `at`. */
  function EnsureAnyMachineSpec(platform: string, replies: seq<Reply>, at: nat): Boot {
    if platform == "linux" then Boot([], true)
    else
      var list := Answer(replies, at);
      if !list.Listed? then Boot([Exec(ListLine)], false)
      else
        var steps := AnyMachineLines(list.machines);
        var run := RunUntilFailure(steps, replies, at + 1);
        Boot([Exec(ListLine)] + ExecAll(steps[..run.0]), run.1)
  }

  /** On linux nothing is issued and the bootstrap resolves; elsewhere the
      machine list comes first. */
  lemma AnyLinuxIsNoOp(platform: string, replies: seq<Reply>, at: nat)
    ensures var b := EnsureAnyMachineSpec(platform, replies, at);
      (platform == "linux" <==> b.effects == [])
      && (platform == "linux" ==> b.ok)
      && (platform != "linux" ==> b.effects[0] == Exec(ListLine))
  {
  }

  /** The decision on the machine list: `init` only when the list is empty,
      `start` when the list is empty and `init` worked or when no machine is
      running, and nothing but these and the list itself, so no default
      connection and no verification. */
  lemma MachineDecision(platform: string, replies: seq<Reply>, at: nat)
    requires platform != "linux" && Answer(replies, at).Listed?
    ensures var ms := Answer(replies, at).machines;
      var effects := EnsureAnyMachineSpec(platform, replies, at).effects;
      (Exec(AnyInitLine) in effects <==> |ms| == 0)
      && (Exec(AnyStartLine) in effects <==> (|ms| == 0 && OkAt(replies, at + 1)) || (|ms| > 0 && !AnyRunning(ms)))
      && (forall k :: 0 <= k < |effects| ==>
            effects[k] in [Exec(ListLine), Exec(AnyInitLine), Exec(AnyStartLine)])
  {
    var ms := Answer(replies, at).machines;
    var steps := AnyMachineLines(ms);
    var run := RunUntilFailure(steps, replies, at + 1);
    var issued := steps[..run.0];
    var effects := EnsureAnyMachineSpec(platform, replies, at).effects;
    assert effects == [Exec(ListLine)] + ExecAll(issued);
    assert ListLine != AnyInitLine && ListLine != AnyStartLine && AnyInitLine != AnyStartLine;
    ExecAllMember(issued, AnyInitLine);
    ExecAllMember(issued, AnyStartLine);
    if |ms| == 0 {
      if OkAt(replies, at + 1) {
        assert RunUntilFailure(steps[1..], replies, at + 2).0 == 1;
        assert issued == [AnyInitLine, AnyStartLine];
      } else {
        assert issued == [AnyInitLine];
      }
    } else if !AnyRunning(ms) {
      assert issued == [] || issued == [AnyStartLine];
      assert run.0 == 1;
    } else {
      assert issued == [];
    }
  }

  /** The bootstrap stops at the first failure: when it fails, the last
      effect it issued failed, or it was the list and its output did not
      parse. */
  lemma AnyStopsAtFirstFailure(platform: string, replies: seq<Reply>, at: nat)
    ensures var b := EnsureAnyMachineSpec(platform, replies, at);
      !b.ok ==> (platform != "linux" && |b.effects| >= 1
                 && (if |b.effects| == 1 then !Answer(replies, at).Listed?
                     else !OkAt(replies, at + |b.effects| - 1)))
  {
    var b := EnsureAnyMachineSpec(platform, replies, at);
    if !b.ok && Answer(replies, at).Listed? {
      var steps := AnyMachineLines(Answer(replies, at).machines);
      var run := RunUntilFailure(steps, replies, at + 1);
      RunUntilFailureMeaning(steps, replies, at + 1);
      assert |b.effects| == 1 + run.0;
    }
  }

  /** ensurePodmanMachineRunning of vm-runner.ts: the effects are the ones
      the specification function names, and the outcome is success or the
      one wrapped error. */
  method EnsurePodmanMachineRunning(shell: Shell, platform: string) returns (r: Outcome<string>)
    modifies shell
    ensures var b := EnsureAnyMachineSpec(platform, shell.replies, |old(shell.trace)|);
      shell.trace == old(shell.trace) + b.effects
      && r == (if b.ok then Pass else Fail(BootstrapError))
  {
    if platform == "linux" {
      return Pass;
    }
    ghost var at := |shell.trace|;
    var list := shell.Exec(ListLine);
    if !list.Listed? {
      return Fail(BootstrapError);
    }
    var machines := list.machines;
    ghost var steps := AnyMachineLines(machines);
    var reply: Reply;
    if |machines| == 0 {
      reply := shell.Exec(AnyInitLine);
      if !Succeeds(reply) {
        assert steps[..1] == [AnyInitLine];
        return Fail(BootstrapError);
      }
      reply := shell.Exec(AnyStartLine);
      assert RunUntilFailure(steps[1..], shell.replies, at + 2) == (1, Succeeds(reply));
      assert steps[..2] == steps;
      assert ExecAll(steps) == [Exec(AnyInitLine), Exec(AnyStartLine)];
      if !Succeeds(reply) {
        return Fail(BootstrapError);
      }
    } else if !AnyRunning(machines) {
      reply := shell.Exec(AnyStartLine);
      assert steps[..1] == [AnyStartLine];
      if !Succeeds(reply) {
        return Fail(BootstrapError);
      }
    } else {
      assert steps[..0] == [];
    }
    return Pass;
  }

  /** Whether the bootstrap lets createRunner go on. */
  predicate AnyBootOk(command: string, platform: string, replies: seq<Reply>, at: nat) {
    !IsContainerEngine(command) || EnsureAnyMachineSpec(platform, replies, at).ok
  }

  /** createRunner of vm-runner.ts: docker is run as podman, only a container
      engine gets the bootstrap, the arguments are passed to the child
      unmodified, and the child's environment is the default one overlaid
      by the declared one. */
  method CreateRunner(shell: Shell, connection: StdioConnection, platform: string,
                      defaults: map<string, string>, startOk: bool)
    returns (r: Result<Started, RunnerError>)
    modifies shell
    ensures var at := |old(shell.trace)|;
      shell.trace == old(shell.trace)
        + (if IsContainerEngine(connection.command) then EnsureAnyMachineSpec(platform, shell.replies, at).effects
           else [])
      && (!AnyBootOk(connection.command, platform, shell.replies, at) ==>
            r == Err(BootstrapFailed(BootstrapError)))
      && (AnyBootOk(connection.command, platform, shell.replies, at) ==>
            (!startOk ==> r == Err(StartFailed))
            && (startOk ==>
                  r.Ok? && fresh(r.value.state) && r.value.state.JustStarted()
                  && r.value.launch == Launch(EngineCommand(connection.command), ArgsOf(connection),
                                              Overlay(defaults, DeclaredEnv(connection)))))
  {
    var state := new RunnerState();
    var command := connection.command;
    var finalArgs: seq<string>;
    if connection.args.Some? {
      finalArgs := connection.args.value[..];
    } else {
      finalArgs := [];
    }
    var finalCommand := command;
    if command == "docker" || command == "podman" {
      if command == "docker" {
        finalCommand := "podman";
      }
      var boot := EnsurePodmanMachineRunning(shell, platform);
      if boot.Fail? {
        return Err(BootstrapFailed(boot.error));
      }
    }
    var launch := Launch(finalCommand, finalArgs, Overlay(defaults, DeclaredEnv(connection)));
    state.transport := true;
    if !startOk {
      return Err(StartFailed);
    }
    state.isReady := true;
    return Ok(Started(state, launch));
  }
}
