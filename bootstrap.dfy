/** ensurePodmanMachineRunning of src/cli/runner.ts: on any platform but linux,
    bring the machine `smithery-vm` up (init and start when it is missing,
    start when it is stopped), make it the default connection and wait for it
    to answer `info`, retrying at most five times. Every failure surfaces as
    one and the same error. */
module Bootstrap {
  import opened Host
  import opened Wrappers

  const MachineName: string := "smithery-vm"
  const MaxRetries: nat := 5
  const BootstrapError: string := "Failed to ensure Podman machine is running"

  const ListLine: string := "podman machine list --format json"
  const InitLine: string := "podman machine init smithery-vm"
  const StartLine: string := "podman machine start smithery-vm"
  const DefaultLine: string := "podman system connection default smithery-vm"
  const InfoLine: string := "podman --connection smithery-vm info"

  datatype MachineState = Absent | Stopped | Running

  /** The position of the first machine called `name`, or -1. */
  function FindIndex(ms: seq<Machine>, name: string): (i: int)
    ensures -1 <= i < |ms|
    ensures i == -1 <==> forall j :: 0 <= j < |ms| ==> ms[j].name != name
    ensures i >= 0 ==> ms[i].name == name && forall j :: 0 <= j < i ==> ms[j].name != name
  {
    if ms == [] then -1
    else if ms[0].name == name then 0
    else
      var r := FindIndex(ms[1..], name);
      if r == -1 then -1 else r + 1
  }

  /** `machines.find(m => m.Name === name)`. */
  function FindMachine(ms: seq<Machine>, name: string): Option<Machine> {
    var i := FindIndex(ms, name);
    if i == -1 then None else Some(ms[i])
  }

  function StateOf(ms: seq<Machine>): MachineState {
    match FindMachine(ms, MachineName)
    case None => Absent
    case Some(m) => if m.running then Running else Stopped
  }

  /** The commands that bring the machine up from the given state. */
  function PrepareLines(st: MachineState): seq<string> {
    match st
    case Absent => [InitLine, StartLine]
    case Stopped => [StartLine]
    case Running => []
  }

  /** The verification loop, its first attempt receiving reply `at` and
      `budget` attempts left: how many attempts it makes and whether one of
      them succeeded. It stops at the first success. */
  function VerifyAttempts(replies: seq<Reply>, at: nat, budget: nat): (r: (nat, bool))
    ensures 1 <= r.0 <= budget || (r.0 == 0 && budget == 0)
    ensures r.1 ==> r.0 >= 1
    ensures !r.1 ==> r.0 == budget
    decreases budget
  {
    if budget == 0 then (0, false)
    else if OkAt(replies, at) then (1, true)
    else
      var t := VerifyAttempts(replies, at + 1, budget - 1);
      (t.0 + 1, t.1)
  }

  /** Every attempt before the last one failed, and the loop succeeded
      exactly when its last attempt did. */
  lemma {:induction false} VerifyAttemptsMeaning(replies: seq<Reply>, at: nat, budget: nat)
    ensures var r := VerifyAttempts(replies, at, budget);
      (forall k :: at <= k < at + r.0 - 1 ==> !OkAt(replies, k))
      && (r.1 <==> r.0 >= 1 && OkAt(replies, at + r.0 - 1))
    decreases budget
  {
    if budget > 0 && !OkAt(replies, at) {
      VerifyAttemptsMeaning(replies, at + 1, budget - 1);
    }
  }

  /** The k-th attempt is the first to succeed: exactly k attempts, and success. */
  lemma {:induction false} VerifyFirstSuccess(replies: seq<Reply>, at: nat, budget: nat, k: nat)
    requires 1 <= k <= budget
    requires forall j :: at <= j < at + k - 1 ==> !OkAt(replies, j)
    requires OkAt(replies, at + k - 1)
    ensures VerifyAttempts(replies, at, budget) == (k, true)
    decreases k
  {
    if k > 1 {
      assert !OkAt(replies, at);
      VerifyFirstSuccess(replies, at + 1, budget - 1, k - 1);
    }
  }

  /** Every attempt fails: the whole budget is spent, and failure. */
  lemma {:induction false} VerifyAllFail(replies: seq<Reply>, at: nat, budget: nat)
    requires forall j :: at <= j < at + budget ==> !OkAt(replies, j)
    ensures VerifyAttempts(replies, at, budget) == (budget, false)
    decreases budget
  {
    if budget > 0 {
      assert !OkAt(replies, at);
      VerifyAllFail(replies, at + 1, budget - 1);
    }
  }

  function Repeat(e: Effect, n: nat): (r: seq<Effect>)
    ensures |r| == n && forall i :: 0 <= i < n ==> r[i] == e
  {
    seq(n, _ => e)
  }

  /** What the bootstrap issues and whether it resolves. */
  datatype Boot = Boot(effects: seq<Effect>, ok: bool)

  /** The bootstrap once the machine list has been read: the preparing
      commands up to the first failure, then the verification attempts; the
      first preparing command receives reply `at`. */
  function BootFrom(st: MachineState, replies: seq<Reply>, at: nat): Boot {
    BootSteps(PrepareLines(st) + [DefaultLine], replies, at)
  }

  /** The same for any list of preparing commands. */
  function BootSteps(steps: seq<string>, replies: seq<Reply>, at: nat): Boot {
    var run := RunUntilFailure(steps, replies, at);
    if !run.1 then Boot(ExecAll(steps[..run.0]), false)
    else
      var v := VerifyAttempts(replies, at + |steps|, MaxRetries);
      Boot(ExecAll(steps) + Repeat(Exec(InfoLine), v.0), v.1)
  }

  /** The bootstrap as a function of the platform and the replies, the
      machine list receiving reply `at`. */
  function EnsureMachineSpec(platform: string, replies: seq<Reply>, at: nat): Boot {
    if platform == "linux" then Boot([], true)
    else
      var list := Answer(replies, at);
      if !list.Listed? then Boot([Exec(ListLine)], false)
      else
        var b := BootFrom(StateOf(list.machines), replies, at + 1);
        Boot([Exec(ListLine)] + b.effects, b.ok)
  }

  /** The preparing commands for a missing machine, run until one fails. */
  lemma RunAbsent(replies: seq<Reply>, at: nat)
    ensures RunUntilFailure(PrepareLines(Absent) + [DefaultLine], replies, at)
         == (if !OkAt(replies, at) then (1, false)
             else if !OkAt(replies, at + 1) then (2, false)
             else (3, OkAt(replies, at + 2)))
  {
    var steps := PrepareLines(Absent) + [DefaultLine];
    assert steps == [InitLine, StartLine, DefaultLine];
    assert steps[1..] == [StartLine, DefaultLine] && steps[2..] == [DefaultLine];
    assert steps[2..][1..] == [];
    assert RunUntilFailure(steps[2..][1..], replies, at + 3) == (0, true);
    assert RunUntilFailure(steps[2..], replies, at + 2) == (1, OkAt(replies, at + 2));
  }

  lemma RunStopped(replies: seq<Reply>, at: nat)
    ensures RunUntilFailure(PrepareLines(Stopped) + [DefaultLine], replies, at)
         == (if !OkAt(replies, at) then (1, false) else (2, OkAt(replies, at + 1)))
  {
    var steps := PrepareLines(Stopped) + [DefaultLine];
    assert steps == [StartLine, DefaultLine];
    assert steps[1..] == [DefaultLine];
    assert steps[1..][1..] == [];
    assert RunUntilFailure(steps[1..][1..], replies, at + 2) == (0, true);
  }

  lemma RunRunning(replies: seq<Reply>, at: nat)
    ensures RunUntilFailure(PrepareLines(Running) + [DefaultLine], replies, at) == (1, OkAt(replies, at))
  {
    var steps := PrepareLines(Running) + [DefaultLine];
    assert steps == [DefaultLine];
    assert steps[1..] == [];
  }

  /** BootFrom for a missing machine: init, start, default, then the
      verification attempts, stopping at the first failure. */
  lemma BootFromAbsent(replies: seq<Reply>, at: nat)
    ensures var b := BootFrom(Absent, replies, at);
      if !OkAt(replies, at) then b == Boot([Exec(InitLine)], false)
      else if !OkAt(replies, at + 1) then b == Boot([Exec(InitLine), Exec(StartLine)], false)
      else if !OkAt(replies, at + 2) then b == Boot([Exec(InitLine), Exec(StartLine), Exec(DefaultLine)], false)
      else
        var v := VerifyAttempts(replies, at + 3, MaxRetries);
        b == Boot([Exec(InitLine), Exec(StartLine), Exec(DefaultLine)] + Repeat(Exec(InfoLine), v.0), v.1)
  {
    RunAbsent(replies, at);
    var steps := PrepareLines(Absent) + [DefaultLine];
    assert steps == [InitLine, StartLine, DefaultLine];
    assert steps[1..] == [StartLine, DefaultLine] && steps[2..] == [DefaultLine];
    assert steps[..1] == [InitLine] && steps[..2] == [InitLine, StartLine];
    assert steps[2..][1..] == [];
    assert ExecAll([DefaultLine]) == [Exec(DefaultLine)];
    assert ExecAll(steps[..2]) == [Exec(InitLine), Exec(StartLine)];
  }

  /** BootFrom for a stopped machine: start, default, then the attempts. */
  lemma BootFromStopped(replies: seq<Reply>, at: nat)
    ensures var b := BootFrom(Stopped, replies, at);
      if !OkAt(replies, at) then b == Boot([Exec(StartLine)], false)
      else if !OkAt(replies, at + 1) then b == Boot([Exec(StartLine), Exec(DefaultLine)], false)
      else
        var v := VerifyAttempts(replies, at + 2, MaxRetries);
        b == Boot([Exec(StartLine), Exec(DefaultLine)] + Repeat(Exec(InfoLine), v.0), v.1)
  {
    RunStopped(replies, at);
    var steps := PrepareLines(Stopped) + [DefaultLine];
    assert steps == [StartLine, DefaultLine];
    assert steps[1..] == [DefaultLine] && steps[..1] == [StartLine];
    assert steps[1..][1..] == [];
  }

  /** BootFrom for a running machine: default, then the attempts. */
  lemma BootFromRunning(replies: seq<Reply>, at: nat)
    ensures var b := BootFrom(Running, replies, at);
      if !OkAt(replies, at) then b == Boot([Exec(DefaultLine)], false)
      else
        var v := VerifyAttempts(replies, at + 1, MaxRetries);
        b == Boot([Exec(DefaultLine)] + Repeat(Exec(InfoLine), v.0), v.1)
  {
    RunRunning(replies, at);
    var steps := PrepareLines(Running) + [DefaultLine];
    assert steps == [DefaultLine];
    assert steps[1..] == [];
  }

  /** The verification attempts are the only `info` commands in BootFrom. */
  lemma BootFromInfo(st: MachineState, replies: seq<Reply>, at: nat)
    ensures var b := BootFrom(st, replies, at);
      var steps := PrepareLines(st) + [DefaultLine];
      var run := RunUntilFailure(steps, replies, at);
      InfoAttempts(b.effects)
        == (if run.1 then VerifyAttempts(replies, at + |steps|, MaxRetries).0 else 0)
  {
    StepsAreNotInfo(st);
    StepsInfo(PrepareLines(st) + [DefaultLine], replies, at);
  }

  lemma StepsInfo(steps: seq<string>, replies: seq<Reply>, at: nat)
    requires forall i :: 0 <= i < |steps| ==> steps[i] != InfoLine
    ensures var run := RunUntilFailure(steps, replies, at);
      InfoAttempts(BootSteps(steps, replies, at).effects)
        == (if run.1 then VerifyAttempts(replies, at + |steps|, MaxRetries).0 else 0)
  {
    var run := RunUntilFailure(steps, replies, at);
    var b := BootSteps(steps, replies, at);
    if !run.1 {
      assert b.effects == ExecAll(steps[..run.0]);
      NoInfoPrefix(steps, run.0);
    } else {
      var v := VerifyAttempts(replies, at + |steps|, MaxRetries);
      assert b.effects == ExecAll(steps) + Repeat(Exec(InfoLine), v.0);
      InfoAfterSteps(steps, v.0);
    }
  }

  lemma NoInfoPrefix(steps: seq<string>, n: nat)
    requires n <= |steps|
    requires forall i :: 0 <= i < |steps| ==> steps[i] != InfoLine
    ensures InfoAttempts(ExecAll(steps[..n])) == 0
  {
    var p := steps[..n];
    assert forall i :: 0 <= i < |p| ==> p[i] == steps[i];
    InfoNotAmongSteps(p);
  }

  lemma InfoAfterSteps(steps: seq<string>, n: nat)
    requires forall i :: 0 <= i < |steps| ==> steps[i] != InfoLine
    ensures InfoAttempts(ExecAll(steps) + Repeat(Exec(InfoLine), n)) == n
  {
    InfoNotAmongSteps(steps);
    RepeatCount(Exec(InfoLine), n);
    assert multiset(ExecAll(steps) + Repeat(Exec(InfoLine), n))
        == multiset(ExecAll(steps)) + multiset(Repeat(Exec(InfoLine), n));
  }

  /** The number of `info` attempts among some effects. */
  function InfoAttempts(effects: seq<Effect>): nat {
    multiset(effects)[Exec(InfoLine)]
  }

  lemma InfoNotAmongSteps(steps: seq<string>)
    requires forall i :: 0 <= i < |steps| ==> steps[i] != InfoLine
    ensures InfoAttempts(ExecAll(steps)) == 0
  {
    var e := ExecAll(steps);
    assert forall i :: 0 <= i < |e| ==> e[i] != Exec(InfoLine);
    assert Exec(InfoLine) !in e;
  }

  lemma RepeatCount(e: Effect, n: nat)
    ensures multiset(Repeat(e, n))[e] == n
    decreases n
  {
    if n > 0 {
      assert Repeat(e, n) == Repeat(e, n - 1) + [e];
      RepeatCount(e, n - 1);
    }
  }

  lemma StepsAreNotInfo(st: MachineState)
    ensures var steps := PrepareLines(st) + [DefaultLine];
      forall i :: 0 <= i < |steps| ==> steps[i] != InfoLine
  {
    assert InitLine != InfoLine && StartLine != InfoLine && DefaultLine != InfoLine;
  }

  /** The verification command is attempted at most MaxRetries times, and
      the bootstrap resolves only when one of its attempts did. */
  lemma RetryBudget(platform: string, replies: seq<Reply>, at: nat)
    ensures var b := EnsureMachineSpec(platform, replies, at);
      InfoAttempts(b.effects) <= MaxRetries
      && (b.ok && platform != "linux" ==> InfoAttempts(b.effects) >= 1)
  {
    if platform != "linux" {
      var list := Answer(replies, at);
      assert ListLine != InfoLine;
      if list.Listed? {
        var st := StateOf(list.machines);
        BootFromInfo(st, replies, at + 1);
        ListPrefixInfo(BootFrom(st, replies, at + 1).effects);
      }
    }
  }

  /** When the machine list parsed and every preparing command succeeded, the
      bootstrap resolves with exactly k attempts if the k-th is the first
      that succeeds, and fails after all MaxRetries attempts otherwise. */
  lemma FirstSuccessDecides(platform: string, replies: seq<Reply>, at: nat, k: nat)
    requires platform != "linux" && Answer(replies, at).Listed?
    requires var steps := PrepareLines(StateOf(Answer(replies, at).machines)) + [DefaultLine];
      RunUntilFailure(steps, replies, at + 1).1
    requires 1 <= k <= MaxRetries
    requires var v0 := at + 1 + |PrepareLines(StateOf(Answer(replies, at).machines))| + 1;
      (forall j :: v0 <= j < v0 + k - 1 ==> !OkAt(replies, j)) && OkAt(replies, v0 + k - 1)
    ensures var b := EnsureMachineSpec(platform, replies, at);
      b.ok && InfoAttempts(b.effects) == k
  {
    var st := StateOf(Answer(replies, at).machines);
    BootFromFirstSuccess(st, replies, at + 1, k);
    ListPrefixInfo(BootFrom(st, replies, at + 1).effects);
  }

  lemma BootFromFirstSuccess(st: MachineState, replies: seq<Reply>, at: nat, k: nat)
    requires RunUntilFailure(PrepareLines(st) + [DefaultLine], replies, at).1
    requires 1 <= k <= MaxRetries
    requires var v0 := at + |PrepareLines(st)| + 1;
      (forall j :: v0 <= j < v0 + k - 1 ==> !OkAt(replies, j)) && OkAt(replies, v0 + k - 1)
    ensures BootFrom(st, replies, at).ok && InfoAttempts(BootFrom(st, replies, at).effects) == k
  {
    var steps := PrepareLines(st) + [DefaultLine];
    StepsAreNotInfo(st);
    VerifyFirstSuccess(replies, at + |steps|, MaxRetries, k);
    StepsResolved(steps, replies, at, k);
  }

  lemma StepsResolved(steps: seq<string>, replies: seq<Reply>, at: nat, k: nat)
    requires forall i :: 0 <= i < |steps| ==> steps[i] != InfoLine
    requires RunUntilFailure(steps, replies, at).1
    requires VerifyAttempts(replies, at + |steps|, MaxRetries) == (k, true)
    ensures BootSteps(steps, replies, at).ok && InfoAttempts(BootSteps(steps, replies, at).effects) == k
  {
    StepsInfo(steps, replies, at);
  }

  lemma AllAttemptsFail(platform: string, replies: seq<Reply>, at: nat)
    requires platform != "linux" && Answer(replies, at).Listed?
    requires var steps := PrepareLines(StateOf(Answer(replies, at).machines)) + [DefaultLine];
      RunUntilFailure(steps, replies, at + 1).1
    requires var v0 := at + 1 + |PrepareLines(StateOf(Answer(replies, at).machines))| + 1;
      forall j :: v0 <= j < v0 + MaxRetries ==> !OkAt(replies, j)
    ensures var b := EnsureMachineSpec(platform, replies, at);
      !b.ok && InfoAttempts(b.effects) == MaxRetries
  {
    var st := StateOf(Answer(replies, at).machines);
    BootFromAllFail(st, replies, at + 1);
    ListPrefixInfo(BootFrom(st, replies, at + 1).effects);
  }

  lemma BootFromAllFail(st: MachineState, replies: seq<Reply>, at: nat)
    requires RunUntilFailure(PrepareLines(st) + [DefaultLine], replies, at).1
    requires var v0 := at + |PrepareLines(st)| + 1;
      forall j :: v0 <= j < v0 + MaxRetries ==> !OkAt(replies, j)
    ensures !BootFrom(st, replies, at).ok && InfoAttempts(BootFrom(st, replies, at).effects) == MaxRetries
  {
    StepsAreNotInfo(st);
    StepsAllFail(PrepareLines(st) + [DefaultLine], replies, at);
  }

  lemma StepsAllFail(steps: seq<string>, replies: seq<Reply>, at: nat)
    requires forall i :: 0 <= i < |steps| ==> steps[i] != InfoLine
    requires RunUntilFailure(steps, replies, at).1
    requires forall j :: at + |steps| <= j < at + |steps| + MaxRetries ==> !OkAt(replies, j)
    ensures !BootSteps(steps, replies, at).ok && InfoAttempts(BootSteps(steps, replies, at).effects) == MaxRetries
  {
    assert VerifyAttempts(replies, at + |steps|, MaxRetries) == (MaxRetries, false) by {
      VerifyAllFail(replies, at + |steps|, MaxRetries);
    }
    StepsInfo(steps, replies, at);
  }

  /** The machine list is not an `info` attempt. */
  lemma ListPrefixInfo(effects: seq<Effect>)
    ensures InfoAttempts([Exec(ListLine)] + effects) == InfoAttempts(effects)
  {
    assert ListLine != InfoLine;
    assert multiset([Exec(ListLine)] + effects) == multiset([Exec(ListLine)]) + multiset(effects);
  }

  /** On linux nothing is issued and the bootstrap resolves; elsewhere the
      machine list comes first. */
  lemma LinuxIsNoOp(platform: string, replies: seq<Reply>, at: nat)
    ensures var b := EnsureMachineSpec(platform, replies, at);
      (platform == "linux" <==> b.effects == [])
      && (platform != "linux" ==> b.effects[0] == Exec(ListLine))
  {
  }

  lemma ExecAllMember(lines: seq<string>, line: string)
    ensures Exec(line) in ExecAll(lines) <==> line in lines
  {
    var e := ExecAll(lines);
    if Exec(line) in e {
      var i :| 0 <= i < |e| && e[i] == Exec(line);
      assert lines[i] == line;
    }
    if line in lines {
      var i :| 0 <= i < |lines| && lines[i] == line;
      assert e[i] == Exec(line);
    }
  }

  /** Only `info` is repeated. */
  lemma NotInRepeat(line: string, n: nat)
    requires line != InfoLine
    ensures Exec(line) !in Repeat(Exec(InfoLine), n)
  {
  }

  /** The transitions of the machine: `init` only when it is missing, `start`
      when it is missing and `init` worked or when it is stopped, and the
      default connection once the machine is up, whatever its state was. */
  lemma MachineTransitions(platform: string, replies: seq<Reply>, at: nat)
    requires platform != "linux" && Answer(replies, at).Listed?
    ensures var st := StateOf(Answer(replies, at).machines);
      var effects := EnsureMachineSpec(platform, replies, at).effects;
      (Exec(InitLine) in effects <==> st == Absent)
      && (Exec(StartLine) in effects <==> st == Stopped || (st == Absent && OkAt(replies, at + 1)))
      && (Exec(DefaultLine) in effects <==>
            (st == Running
             || (st == Stopped && OkAt(replies, at + 1))
             || (st == Absent && OkAt(replies, at + 1) && OkAt(replies, at + 2))))
  {
    var st := StateOf(Answer(replies, at).machines);
    var e := BootFrom(st, replies, at + 1).effects;
    LinesDistinct();
    match st {
      case Absent => AbsentTransitions(replies, at + 1);
      case Stopped => StoppedTransitions(replies, at + 1);
      case Running => RunningTransitions(replies, at + 1);
    }
    assert forall x :: x in [Exec(ListLine)] + e <==> x == Exec(ListLine) || x in e;
  }

  lemma LinesDistinct()
    ensures InitLine != StartLine && InitLine != DefaultLine && StartLine != DefaultLine
    ensures ListLine != InitLine && ListLine != StartLine && ListLine != DefaultLine
    ensures InfoLine != InitLine && InfoLine != StartLine && InfoLine != DefaultLine
  {
    assert InitLine[15] == 'i' && StartLine[15] == 's' && DefaultLine[7] == 's' && InitLine[7] == 'm';
    assert StartLine[7] == 'm';
    assert ListLine[15] == 'l' && ListLine[7] == 'm' && InfoLine[7] == '-';
  }

  lemma AbsentTransitions(replies: seq<Reply>, at: nat)
    ensures var e := BootFrom(Absent, replies, at).effects;
      Exec(InitLine) in e
      && (Exec(StartLine) in e <==> OkAt(replies, at))
      && (Exec(DefaultLine) in e <==> OkAt(replies, at) && OkAt(replies, at + 1))
  {
    BootFromAbsent(replies, at);
    LinesDistinct();
    var n := VerifyAttempts(replies, at + 3, MaxRetries).0;
    NotInRepeat(StartLine, n);
    NotInRepeat(DefaultLine, n);
  }

  lemma StoppedTransitions(replies: seq<Reply>, at: nat)
    ensures var e := BootFrom(Stopped, replies, at).effects;
      Exec(InitLine) !in e && Exec(StartLine) in e
      && (Exec(DefaultLine) in e <==> OkAt(replies, at))
  {
    BootFromStopped(replies, at);
    LinesDistinct();
    var n := VerifyAttempts(replies, at + 2, MaxRetries).0;
    NotInRepeat(InitLine, n);
    NotInRepeat(DefaultLine, n);
  }

  lemma RunningTransitions(replies: seq<Reply>, at: nat)
    ensures var e := BootFrom(Running, replies, at).effects;
      Exec(InitLine) !in e && Exec(StartLine) !in e && Exec(DefaultLine) in e
  {
    BootFromRunning(replies, at);
    LinesDistinct();
    var n := VerifyAttempts(replies, at + 1, MaxRetries).0;
    NotInRepeat(InitLine, n);
    NotInRepeat(StartLine, n);
  }

  /** The steps that bring the machine up from state `st` and make it the
      default connection, stopping at the first that fails. */
  method BringUp(shell: Shell, st: MachineState) returns (ok: bool)
    modifies shell
    ensures var steps := PrepareLines(st) + [DefaultLine];
      var run := RunUntilFailure(steps, shell.replies, |old(shell.trace)|);
      shell.trace == old(shell.trace) + ExecAll(steps[..run.0]) && ok == run.1
  {
    ghost var at := |shell.trace|;
    ghost var t0 := shell.trace;
    var reply: Reply;
    if st == Absent {
      BringUpAbsent(shell.replies, at);
      reply := shell.Exec(InitLine);
      if !Succeeds(reply) {
        return false;
      }
      reply := shell.Exec(StartLine);
      if !Succeeds(reply) {
        return false;
      }
    } else if st == Stopped {
      BringUpStopped(shell.replies, at);
      reply := shell.Exec(StartLine);
      if !Succeeds(reply) {
        return false;
      }
    }
    if st == Running {
      BringUpRunning(shell.replies, at);
    }
    reply := shell.Exec(DefaultLine);
    ok := Succeeds(reply);
  }

  /** The commands BringUp issues for a missing machine. */
  lemma BringUpAbsent(replies: seq<Reply>, at: nat)
    ensures var steps := PrepareLines(Absent) + [DefaultLine];
      var run := RunUntilFailure(steps, replies, at);
      var issued := ExecAll(steps[..run.0]);
      if !OkAt(replies, at) then issued == [Exec(InitLine)] && !run.1
      else if !OkAt(replies, at + 1) then issued == [Exec(InitLine), Exec(StartLine)] && !run.1
      else issued == [Exec(InitLine), Exec(StartLine), Exec(DefaultLine)] && run.1 == OkAt(replies, at + 2)
  {
    RunAbsent(replies, at);
    var steps := PrepareLines(Absent) + [DefaultLine];
    assert steps == [InitLine, StartLine, DefaultLine];
    assert steps[1..] == [StartLine, DefaultLine] && steps[2..] == [DefaultLine];
    assert steps[..1] == [InitLine] && steps[..2] == [InitLine, StartLine] && steps[..3] == steps;
    assert steps[2..][1..] == [];
    assert ExecAll(steps[..2]) == [Exec(InitLine), Exec(StartLine)];
  }

  /** The commands BringUp issues for a stopped machine. */
  lemma BringUpStopped(replies: seq<Reply>, at: nat)
    ensures var steps := PrepareLines(Stopped) + [DefaultLine];
      var run := RunUntilFailure(steps, replies, at);
      var issued := ExecAll(steps[..run.0]);
      if !OkAt(replies, at) then issued == [Exec(StartLine)] && !run.1
      else issued == [Exec(StartLine), Exec(DefaultLine)] && run.1 == OkAt(replies, at + 1)
  {
    RunStopped(replies, at);
    var steps := PrepareLines(Stopped) + [DefaultLine];
    assert steps == [StartLine, DefaultLine];
    assert steps[1..] == [DefaultLine] && steps[..1] == [StartLine] && steps[..2] == steps;
    assert steps[1..][1..] == [];
  }

  /** The commands BringUp issues for a running machine. */
  lemma BringUpRunning(replies: seq<Reply>, at: nat)
    ensures var steps := PrepareLines(Running) + [DefaultLine];
      var run := RunUntilFailure(steps, replies, at);
      ExecAll(steps[..run.0]) == [Exec(DefaultLine)] && run.1 == OkAt(replies, at)
  {
    RunRunning(replies, at);
    var steps := PrepareLines(Running) + [DefaultLine];
    assert steps == [DefaultLine] && steps[..1] == steps;
    assert steps[1..] == [];
  }

  lemma RepeatSnoc(e: Effect, n: nat)
    ensures Repeat(e, n + 1) == Repeat(e, n) + [e]
  {
  }

  /** The loop that waits for the machine to answer `info`. */
  method VerifyConnection(shell: Shell) returns (connected: bool)
    modifies shell
    ensures var v := VerifyAttempts(shell.replies, |old(shell.trace)|, MaxRetries);
      shell.trace == old(shell.trace) + Repeat(Exec(InfoLine), v.0) && connected == v.1
  {
    ghost var v0 := |shell.trace|;
    ghost var prefix := shell.trace;
    connected := false;
    var retries: nat := 0;
    while !connected && retries < MaxRetries
      invariant retries <= MaxRetries && (connected ==> retries < MaxRetries)
      invariant shell.trace == prefix + Repeat(Exec(InfoLine), retries + (if connected then 1 else 0))
      invariant forall k :: v0 <= k < v0 + retries ==> !OkAt(shell.replies, k)
      invariant connected ==> OkAt(shell.replies, v0 + retries)
      decreases MaxRetries - retries, if connected then 0 else 1
    {
      var reply := shell.Exec(InfoLine);
      RepeatSnoc(Exec(InfoLine), retries);
      if Succeeds(reply) {
        connected := true;
      } else {
        retries := retries + 1;
      }
    }
    if connected {
      VerifyFirstSuccess(shell.replies, v0, MaxRetries, retries + 1);
    } else {
      VerifyAllFail(shell.replies, v0, MaxRetries);
    }
  }

  /** Bringing the machine up and then waiting for it: BootFrom. */
  method ComeUp(shell: Shell, st: MachineState) returns (ok: bool)
    modifies shell
    ensures var b := BootFrom(st, shell.replies, |old(shell.trace)|);
      shell.trace == old(shell.trace) + b.effects && ok == b.ok
  {
    ghost var t0 := shell.trace;
    ghost var steps := PrepareLines(st) + [DefaultLine];
    var up := BringUp(shell, st);
    if !up {
      return false;
    }
    assert steps[..|steps|] == steps;
    ghost var t1 := shell.trace;
    assert |t1| == |t0| + |steps|;
    ok := VerifyConnection(shell);
    ghost var v := VerifyAttempts(shell.replies, |t1|, MaxRetries);
    assert shell.trace == t0 + (ExecAll(steps) + Repeat(Exec(InfoLine), v.0));
  }

  /** The bootstrap's commands, reporting whether they brought the machine up. */
  method EnsureMachine(shell: Shell, platform: string) returns (ok: bool)
    modifies shell
    ensures var b := EnsureMachineSpec(platform, shell.replies, |old(shell.trace)|);
      shell.trace == old(shell.trace) + b.effects && ok == b.ok
  {
    if platform == "linux" {
      return true;
    }
    ghost var t0 := shell.trace;
    var list := shell.Exec(ListLine);
    if !list.Listed? {
      return false;
    }
    ok := ComeUp(shell, StateOf(list.machines));
    ghost var b := BootFrom(StateOf(list.machines), shell.replies, |t0| + 1);
    assert shell.trace == t0 + ([Exec(ListLine)] + b.effects);
  }

  /** ensurePodmanMachineRunning: the effects are the ones the specification
      function names, and the outcome is success or the one wrapped error. */
  method EnsurePodmanMachineRunning(shell: Shell, platform: string) returns (r: Outcome<string>)
    modifies shell
    ensures var b := EnsureMachineSpec(platform, shell.replies, |old(shell.trace)|);
      shell.trace == old(shell.trace) + b.effects
      && r == (if b.ok then Pass else Fail(BootstrapError))
  {
    var ok := EnsureMachine(shell, platform);
    r := if ok then Pass else Fail(BootstrapError);
  }
}
