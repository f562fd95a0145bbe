/** The outside world as the runner drives it: every external effect (a shell
    command run through `execAsync`, the write of the credential file) is
    recorded in a trace, and its outcome is read off a fixed script of replies,
    the k-th effect receiving the k-th reply. */
module Host {

  datatype Machine = Machine(name: string, running: bool)

  /** The outcome of one effect. `Listed` is a `machine list` that exited
      successfully and whose output parsed as a JSON array of machines. */
  datatype Reply = Failed | Succeeded | Listed(machines: seq<Machine>)

  datatype Effect = Exec(line: string) | WriteAuthFile(content: string)

  /** The reply to the k-th effect; a script that has run out replies `Failed`. */
  function Answer(replies: seq<Reply>, k: nat): Reply {
    if k < |replies| then replies[k] else Failed
  }

  /** The promise of the effect resolved. */
  predicate Succeeds(r: Reply) {
    !r.Failed?
  }

  /** The k-th effect succeeds. */
  predicate OkAt(replies: seq<Reply>, k: nat) {
    Succeeds(Answer(replies, k))
  }

  function ExecAll(lines: seq<string>): (effects: seq<Effect>)
    ensures |effects| == |lines|
    ensures forall i :: 0 <= i < |lines| ==> effects[i] == Exec(lines[i])
  {
    if lines == [] then [] else [Exec(lines[0])] + ExecAll(lines[1..])
  }

  /** Commands awaited one after the other, the first of them receiving reply
      `at`: how many are issued before the first failure stops the sequence
      (that one included), and whether all of them succeeded. */
  function RunUntilFailure(lines: seq<string>, replies: seq<Reply>, at: nat): (r: (nat, bool))
    ensures r.0 <= |lines|
    ensures r.1 ==> r.0 == |lines|
    ensures !r.1 ==> 1 <= r.0
    decreases |lines|
  {
    if lines == [] then (0, true)
    else if !OkAt(replies, at) then (1, false)
    else
      var tail := RunUntilFailure(lines[1..], replies, at + 1);
      (tail.0 + 1, tail.1)
  }

  /** All commands succeed exactly when every reply in their range does; and
      when one fails, the last command issued is the first whose reply failed. */
  lemma {:induction false} RunUntilFailureMeaning(lines: seq<string>, replies: seq<Reply>, at: nat)
    ensures var r := RunUntilFailure(lines, replies, at);
      (r.1 <==> forall k :: at <= k < at + |lines| ==> OkAt(replies, k))
      && (!r.1 ==> !OkAt(replies, at + r.0 - 1) && forall k :: at <= k < at + r.0 - 1 ==> OkAt(replies, k))
    decreases |lines|
  {
    if lines != [] && OkAt(replies, at) {
      RunUntilFailureMeaning(lines[1..], replies, at + 1);
    }
  }

  /** The host shell: a script of replies and the trace of what was issued. */
  class Shell {
    const replies: seq<Reply>
    var trace: seq<Effect>

    constructor (replies: seq<Reply>)
      ensures this.replies == replies && trace == []
    {
      this.replies := replies;
      trace := [];
    }

    /** `await execAsync(line)`: the reply says whether it resolved, and with what. */
    method Exec(line: string) returns (reply: Reply)
      modifies this
      ensures trace == old(trace) + [Effect.Exec(line)]
      ensures reply == Answer(replies, |old(trace)|)
    {
      reply := Answer(replies, |trace|);
      trace := trace + [Effect.Exec(line)];
    }

    /** Overwrites the credential file with `content`; false when the write
        throws. */
    method WriteAuthFile(content: string) returns (ok: bool)
      modifies this
      ensures trace == old(trace) + [Effect.WriteAuthFile(content)]
      ensures ok == Succeeds(Answer(replies, |old(trace)|))
    {
      ok := Succeeds(Answer(replies, |trace|));
      trace := trace + [Effect.WriteAuthFile(content)];
    }
  }
}
