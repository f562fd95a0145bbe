/** RunnerState and the handlers around it (src/cli/runner.ts, and the same
    text in src/cli/run/vm-runner.ts): stdin chunks are framed into lines and
    forwarded to the child's transport once it is ready, `send` refuses to
    run before that, `cleanup` closes the transport once, and the transport's
    close and error events decide the exit code. */
module Bridge {
  import opened Text
  import opened Wrappers
  import opened Framing

  /** JSON-RPC's "method not found" error code. */
  const MethodNotFound: int := -32601
  const NotReadyError: string := "Transport not ready"

  /** A JSON-RPC message as far as the bridge looks into it: its text, whether
      it has an `error` member, and that error's `code` when there is one. */
  datatype Message = Message(body: string, hasError: bool, errorCode: Option<int>)

  /** The log line `onerror` adds before exiting. */
  datatype Hint = SpawnHint | PermissionHint | NoHint

  datatype ErrorExit = ErrorExit(code: int, hint: Hint)

  /** `onerror`: always exit code 1; a message mentioning "spawn" gets the
      spawn hint even when it also mentions "permission". */
  function OnErrorExit(message: string): (r: ErrorExit)
    ensures r.code == 1
    ensures r.hint == SpawnHint <==> exists i :: OccursAt(message, "spawn", i)
    ensures r.hint == PermissionHint <==>
      (forall i :: !OccursAt(message, "spawn", i)) && exists i :: OccursAt(message, "permission", i)
  {
    if Contains(message, "spawn") then ErrorExit(1, SpawnHint)
    else if Contains(message, "permission") then ErrorExit(1, PermissionHint)
    else ErrorExit(1, NoHint)
  }

  /** Whether `onmessage` reports the message as a child error on stderr:
      error messages are, except for "method not found". */
  function ReportsChildError(m: Message): (r: bool)
    ensures r ==> m.hasError
    ensures m.errorCode == Some(MethodNotFound) ==> !r
    ensures m.hasError && m.errorCode != Some(MethodNotFound) ==> r
  {
    m.hasError && m.errorCode != Some(MethodNotFound)
  }

  class RunnerState {
    /** Whether a transport to the child exists (`transport !== null`). */
    var transport: bool
    var isReady: bool
    var stdinBuffer: string
    /** The messages handed to `transport.send`, in order. */
    var sent: seq<Message>
    /** The messages written to stdout by `onmessage`, in order. */
    var stdout: seq<Message>
    /** How many times `transport.close` was called. */
    var closeCalls: nat

    /** A transport is closed at most once, and a closed one is gone. */
    ghost predicate Valid()
      reads this
    {
      closeCalls <= 1 && (transport ==> closeCalls == 0)
    }

    /** The state createRunner hands back: a started, ready transport and
        nothing buffered, sent, written or closed yet. */
    ghost predicate JustStarted()
      reads this
    {
      transport && isReady && stdinBuffer == "" && sent == [] && stdout == [] && closeCalls == 0
    }

    /** The initial state of createRunner. */
    constructor ()
      ensures !transport && !isReady && stdinBuffer == ""
      ensures sent == [] && stdout == [] && closeCalls == 0
      ensures Valid()
    {
      transport := false;
      isReady := false;
      stdinBuffer := "";
      sent := [];
      stdout := [];
      closeCalls := 0;
    }

    /** `send`: refused unless the transport exists and is ready. */
    method Send(m: Message) returns (r: Outcome<string>)
      requires Valid()
      modifies this
      ensures Valid()
      ensures r == (if transport && isReady then Pass else Fail(NotReadyError))
      ensures sent == old(sent) + (if transport && isReady then [m] else [])
      ensures transport == old(transport) && isReady == old(isReady)
      ensures stdinBuffer == old(stdinBuffer) && stdout == old(stdout) && closeCalls == old(closeCalls)
    {
      if !transport || !isReady {
        return Fail(NotReadyError);
      }
      sent := sent + [m];
      return Pass;
    }

    /** `processMessage`: the chunk is appended to the buffer; once ready,
        the complete non-blank lines are parsed and sent in order, a line
        that does not parse or is refused being skipped, and the
        unterminated rest stays in the buffer. */
    method ProcessMessage(chunk: string, parse: string -> Option<Message>)
      requires Valid()
      modifies this
      ensures Valid()
      ensures stdinBuffer == (if old(isReady) then Remainder(old(stdinBuffer) + chunk)
                              else old(stdinBuffer) + chunk)
      ensures sent == old(sent) + (if isReady && transport then Forwarded(old(stdinBuffer) + chunk, parse)
                                   else [])
      ensures transport == old(transport) && isReady == old(isReady)
      ensures stdout == old(stdout) && closeCalls == old(closeCalls)
    {
      stdinBuffer := stdinBuffer + chunk;
      if !isReady {
        return;
      }
      var buf := stdinBuffer;
      var lines := CompleteLines(buf);
      stdinBuffer := Remainder(buf);
      SendEach(NonEmpty(lines), parse);
    }

    /** The loop of processMessage: each line is parsed and sent in turn; a
        line that does not parse, or whose send is refused, is skipped. */
    method SendEach(ls: seq<string>, parse: string -> Option<Message>)
      requires Valid()
      modifies this
      ensures Valid()
      ensures sent == old(sent) + (if transport && isReady then ParseAll(ls, parse) else [])
      ensures transport == old(transport) && isReady == old(isReady) && stdinBuffer == old(stdinBuffer)
      ensures stdout == old(stdout) && closeCalls == old(closeCalls)
    {
      ghost var live := transport && isReady;
      ghost var sent0 := sent;
      var i := 0;
      while i < |ls|
        invariant 0 <= i <= |ls|
        invariant live ==> sent == sent0 + ParseAll(ls[..i], parse)
        invariant !live ==> sent == sent0
        invariant Valid()
        invariant transport == old(transport) && isReady == old(isReady) && stdinBuffer == old(stdinBuffer)
        invariant stdout == old(stdout) && closeCalls == old(closeCalls)
      {
        ParseAllStep(ls, i, parse);
        SendLine(ls[i], parse);
        i := i + 1;
      }
      assert ls[..|ls|] == ls;
    }

    /** One pass of that loop: a line that parses is sent, one that does not
        is skipped. */
    method SendLine(line: string, parse: string -> Option<Message>)
      requires Valid()
      modifies this
      ensures Valid()
      ensures sent == old(sent) + (if transport && isReady then OptionSeq(parse(line)) else [])
      ensures transport == old(transport) && isReady == old(isReady) && stdinBuffer == old(stdinBuffer)
      ensures stdout == old(stdout) && closeCalls == old(closeCalls)
    {
      var message := parse(line);
      if message.Some? {
        var _ := Send(message.value);
      }
    }

    /** `onmessage`: the message is written to stdout, and reported when it
        is an error other than "method not found". */
    method OnMessage(m: Message) returns (reported: bool)
      requires Valid()
      modifies this
      ensures Valid()
      ensures stdout == old(stdout) + [m]
      ensures reported == ReportsChildError(m)
      ensures transport == old(transport) && isReady == old(isReady) && stdinBuffer == old(stdinBuffer)
      ensures sent == old(sent) && closeCalls == old(closeCalls)
    {
      reported := ReportsChildError(m);
      stdout := stdout + [m];
    }

    /** `onclose`: exit code 1 when the child ended while the runner was
        ready, 0 otherwise. */
    function OnCloseExit(): (code: int)
      reads this
      ensures code == 0 || code == 1
      ensures code == 1 <==> isReady
    {
      if isReady then 1 else 0
    }

    /** `cleanup`: closes the transport when there is one and drops it; the
        exit code is always 0. */
    method Cleanup() returns (exitCode: int)
      requires Valid()
      modifies this
      ensures Valid()
      ensures exitCode == 0 && !transport
      ensures closeCalls == old(closeCalls) + (if old(transport) then 1 else 0)
      ensures isReady == old(isReady) && stdinBuffer == old(stdinBuffer)
      ensures sent == old(sent) && stdout == old(stdout)
    {
      if transport {
        closeCalls := closeCalls + 1;
        transport := false;
      }
      return 0;
    }

    /** Two cleanups run one after the other close the transport at most
        once. */
    method CleanupTwice() returns (first: int, second: int)
      requires Valid()
      modifies this
      ensures Valid() && first == 0 && second == 0 && !transport
      ensures closeCalls == old(closeCalls) + (if old(transport) then 1 else 0)
      ensures isReady == old(isReady) && stdinBuffer == old(stdinBuffer)
      ensures sent == old(sent) && stdout == old(stdout)
    {
      first := Cleanup();
      second := Cleanup();
    }
  }
}
