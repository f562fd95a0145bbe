/** The pull fallback chain of handleContainerPull (src/cli/runner.ts): a plain
    pull, then a pull after the credential file has been reset for anonymous
    access, then a pull after `logout docker.io`; whatever happens, the command
    and its arguments come back unchanged. */
module PullChain {
  import opened Host
  import opened ImageRef
  import opened Wrappers

  /** The credential file written before the second pull, as
      `JSON.stringify(authConfig, null, 2)` prints it: an empty auth entry for
      docker.io, no credential helpers and an empty credential store, in the
      containers-auth.json(5) format. */
  const AnonymousAuthConfig: string :=
    "{\n  \"auths\": {\n    \"docker.io\": {\n      \"auth\": \"\"\n    }\n  },\n"
    + "  \"credHelpers\": {},\n  \"credsStore\": \"\"\n}"

  function PullLine(engine: string, image: string): string {
    engine + " pull " + image
  }

  function LogoutLine(engine: string): string {
    engine + " logout docker.io"
  }

  /** The effects the chain issues for `image` when its first effect receives
      reply `at` of the script. */
  function PullEffects(engine: string, image: string, replies: seq<Reply>, at: nat): seq<Effect> {
    var pull := Exec(PullLine(engine, image));
    var reset := WriteAuthFile(AnonymousAuthConfig);
    var logout := Exec(LogoutLine(engine));
    if Succeeds(Answer(replies, at)) then [pull]
    else if Succeeds(Answer(replies, at + 2)) then [pull, reset, pull]
    else if !Succeeds(Answer(replies, at + 3)) then [pull, reset, pull, logout]
    else [pull, reset, pull, logout, pull]
  }

  /** The effects of the whole of handleContainerPull. */
  function HandlePullEffects(engine: string, args: seq<string>, replies: seq<Reply>, at: nat): seq<Effect> {
    match PullTarget(args)
    case None => []
    case Some(image) => PullEffects(engine, image, replies, at)
  }

  lemma LogoutIsNotPull(engine: string, image: string)
    ensures LogoutLine(engine) != PullLine(engine, image)
  {
    var n := |engine|;
    assert LogoutLine(engine)[n + 1] == 'l';
    assert PullLine(engine, image)[n + 1] == 'p';
  }

  function Pulls(effects: seq<Effect>, engine: string, image: string): nat {
    multiset(effects)[Exec(PullLine(engine, image))]
  }

  /** Between one and three pulls are issued, and nothing but the three
      strategies' own effects. */
  lemma PullBudget(engine: string, image: string, replies: seq<Reply>, at: nat)
    ensures var effects := PullEffects(engine, image, replies, at);
      1 <= Pulls(effects, engine, image) <= 3 && 1 <= |effects| <= 5
      && effects[0] == Exec(PullLine(engine, image))
  {
    var pull := Exec(PullLine(engine, image));
    var reset := WriteAuthFile(AnonymousAuthConfig);
    var logout := Exec(LogoutLine(engine));
    LogoutIsNotPull(engine, image);
    assert multiset([pull])[pull] == 1;
    assert multiset([pull, reset, pull])[pull] == 2;
    assert multiset([pull, reset, pull, logout])[pull] == 2;
    assert multiset([pull, reset, pull, logout, pull])[pull] == 3;
  }

  /** The credential reset happens exactly when the first pull failed. */
  lemma ResetOnlyAfterFirstFailure(engine: string, image: string, replies: seq<Reply>, at: nat)
    ensures WriteAuthFile(AnonymousAuthConfig) in PullEffects(engine, image, replies, at)
      <==> !Succeeds(Answer(replies, at))
  {
  }

  /** `logout docker.io` is issued exactly when the first two pulls failed. */
  lemma LogoutOnlyAfterSecondFailure(engine: string, image: string, replies: seq<Reply>, at: nat)
    ensures Exec(LogoutLine(engine)) in PullEffects(engine, image, replies, at)
      <==> !Succeeds(Answer(replies, at)) && !Succeeds(Answer(replies, at + 2))
  {
    LogoutIsNotPull(engine, image);
  }

  /** The third pull is issued exactly when the first two pulls failed and
      the logout succeeded. */
  lemma ThirdPullOnlyAfterLogout(engine: string, image: string, replies: seq<Reply>, at: nat)
    ensures Pulls(PullEffects(engine, image, replies, at), engine, image) == 3
      <==> !Succeeds(Answer(replies, at)) && !Succeeds(Answer(replies, at + 2))
           && Succeeds(Answer(replies, at + 3))
  {
    var pull := Exec(PullLine(engine, image));
    var reset := WriteAuthFile(AnonymousAuthConfig);
    var logout := Exec(LogoutLine(engine));
    LogoutIsNotPull(engine, image);
    assert multiset([pull])[pull] == 1;
    assert multiset([pull, reset, pull])[pull] == 2;
    assert multiset([pull, reset, pull, logout])[pull] == 2;
    assert multiset([pull, reset, pull, logout, pull])[pull] == 3;
  }

  /** Whether the credential write succeeded has no influence on the chain:
      the second pull is issued either way. */
  lemma ResetOutcomeIgnored(engine: string, image: string, replies: seq<Reply>, at: nat, r: Reply)
    requires at + 1 < |replies|
    ensures PullEffects(engine, image, replies[at + 1 := r], at) == PullEffects(engine, image, replies, at)
  {
  }

  /** configureContainerCredentials: reports whether the file write worked;
      it never throws. */
  method ConfigureContainerCredentials(shell: Shell) returns (ok: bool)
    modifies shell
    ensures shell.trace == old(shell.trace) + [WriteAuthFile(AnonymousAuthConfig)]
    ensures ok == Succeeds(Answer(shell.replies, |old(shell.trace)|))
  {
    ok := shell.WriteAuthFile(AnonymousAuthConfig);
  }

  /** handleContainerPull: locate and normalise the image, run the chain, and
      hand back the command and arguments as they were given. */
  method HandleContainerPull(shell: Shell, command: string, args: seq<string>)
    returns (finalCommand: string, finalArgs: seq<string>)
    modifies shell
    ensures finalCommand == command && finalArgs == args
    ensures shell.trace == old(shell.trace) + HandlePullEffects(command, args, shell.replies, |old(shell.trace)|)
  {
    finalCommand, finalArgs := command, args;
    ghost var at := |shell.trace|;
    var imageIndex := FindPullImage(args);
    if imageIndex == -1 || imageIndex >= |args| {
      return;
    }
    var imageName := args[imageIndex];
    if LooksLikeMount(imageName) {
      return;
    }
    var pullImageName := imageName;
    if NeedsRegistry(imageName) {
      pullImageName := DefaultRegistryPrefix + imageName;
    }
    assert PullTarget(args) == Some(pullImageName);
    var reply := shell.Exec(PullLine(command, pullImageName));
    if Succeeds(reply) {
      return;
    }
    var _ := ConfigureContainerCredentials(shell);
    reply := shell.Exec(PullLine(command, pullImageName));
    if Succeeds(reply) {
      return;
    }
    reply := shell.Exec(LogoutLine(command));
    if !Succeeds(reply) {
      return;
    }
    reply := shell.Exec(PullLine(command, pullImageName));
  }
}
