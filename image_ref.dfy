/** Image resolution in the container-engine argument list (src/cli/runner.ts):
    the option-skipping scan that finds the image argument, the rule that
    prefixes unqualified references with `docker.io/`, the mount false-positive
    check, and the in-place registry override of `createRunner`. */
module ImageRef {
  import opened Text
  import opened Wrappers

  /** Options that consume the argument after them. */
  const OptionsWithArgs: seq<string> :=
    ["--mount", "-v", "--volume", "-e", "--env", "-p", "--publish", "--name"]

  const DefaultRegistryPrefix: string := "docker.io/"

  /** `arg.startsWith('-')`. */
  predicate IsFlag(arg: string) {
    StartsWith(arg, "-")
  }

  /** `xs.indexOf(x)`: the first position holding `x`, or -1 when there is none. */
  function IndexOf(xs: seq<string>, x: string): (r: int)
    ensures -1 <= r < |xs|
    ensures r == -1 <==> x !in xs
    ensures r >= 0 ==> xs[r] == x && forall j :: 0 <= j < r ==> xs[j] != x
  {
    if |xs| == 0 then -1
    else if xs[0] == x then 0
    else
      var r := IndexOf(xs[1..], x);
      if r == -1 then -1 else r + 1
  }

  function Max(a: int, b: int): int {
    if a > b then a else b
  }

  /** What the locator loop computes from position `i` on, when `skipNext`
      says the previous option still wants its value: the image index, or -1. */
  function ScanFrom(args: seq<string>, i: nat, skipNext: bool): (r: int)
    ensures r == -1 || i <= r < |args|
    decreases |args| - i
  {
    if i >= |args| then -1
    else if skipNext then ScanFrom(args, i + 1, false)
    else if IsFlag(args[i]) then ScanFrom(args, i + 1, args[i] in OptionsWithArgs)
    else i
  }

  /** `ts` is a run of options: every token is a flag, and a flag of the table
      is followed by its value (whatever that value looks like). */
  ghost predicate OptionRun(ts: seq<string>)
    decreases |ts|
  {
    ts == [] ||
    (IsFlag(ts[0]) &&
     if ts[0] in OptionsWithArgs then |ts| >= 2 && OptionRun(ts[2..]) else OptionRun(ts[1..]))
  }

  /** The scan stops at a non-flag that follows a complete run of options. */
  lemma {:induction false} ScanSound(args: seq<string>, i: nat)
    ensures var r := ScanFrom(args, i, false);
      r >= 0 ==> OptionRun(args[i..r]) && !IsFlag(args[r])
    decreases |args| - i
  {
    var r := ScanFrom(args, i, false);
    if i < |args| && r >= 0 && IsFlag(args[i]) {
      if args[i] in OptionsWithArgs {
        ScanSound(args, i + 2);
        assert args[i..r][2..] == args[i + 2..r];
      } else {
        ScanSound(args, i + 1);
        assert args[i..r][1..] == args[i + 1..r];
      }
    }
  }

  /** Any non-flag that follows a complete run of options is where the scan stops. */
  lemma {:induction false} ScanComplete(args: seq<string>, i: nat, k: nat)
    requires i <= k < |args|
    requires OptionRun(args[i..k]) && !IsFlag(args[k])
    ensures ScanFrom(args, i, false) == k
    decreases k - i
  {
    if i < k {
      var ts := args[i..k];
      assert ts[0] == args[i];
      if args[i] in OptionsWithArgs {
        assert ts[2..] == args[i + 2..k];
        ScanComplete(args, i + 2, k);
      } else {
        assert ts[1..] == args[i + 1..k];
        ScanComplete(args, i + 1, k);
      }
    }
  }

  /** The scan finds nothing exactly when no complete run of options is
      followed by a non-flag. */
  lemma ScanNotFound(args: seq<string>, i: nat)
    requires i <= |args|
    ensures ScanFrom(args, i, false) == -1 <==>
      forall k :: i <= k < |args| && OptionRun(args[i..k]) ==> IsFlag(args[k])
  {
    if ScanFrom(args, i, false) == -1 {
      forall k | i <= k < |args| && OptionRun(args[i..k]) ensures IsFlag(args[k]) {
        if !IsFlag(args[k]) {
          ScanComplete(args, i, k);
        }
      }
    } else {
      ScanSound(args, i);
    }
  }

  /** The for loop of the locator: from `start` on, skip every flag, and the
      token after a flag of the table; the first other token is the image. */
  method LocateImage(args: seq<string>, start: nat) returns (imageIndex: int)
    ensures imageIndex == ScanFrom(args, start, false)
  {
    imageIndex := -1;
    var skipNext := false;
    var i := start;
    while i < |args|
      invariant ScanFrom(args, i, skipNext) == ScanFrom(args, start, false)
      decreases |args| - i
    {
      if skipNext {
        skipNext := false;
        i := i + 1;
        continue;
      }
      var arg := args[i];
      if IsFlag(arg) {
        if arg in OptionsWithArgs {
          skipNext := true;
        }
        i := i + 1;
        continue;
      }
      imageIndex := i;
      return;
    }
  }

  /** The image position handleContainerPull settles on: just after `pull`
      when `pull` occurs, else the scan after the first `run`, else -1. */
  function PullImageIndex(args: seq<string>): (r: int)
    ensures -1 <= r <= |args|
  {
    if "pull" in args then IndexOf(args, "pull") + 1
    else if "run" in args then ScanFrom(args, IndexOf(args, "run") + 1, false)
    else -1
  }

  /** The image-locating part of handleContainerPull, with its loop. */
  method FindPullImage(args: seq<string>) returns (imageIndex: int)
    ensures imageIndex == PullImageIndex(args)
  {
    imageIndex := -1;
    if "pull" in args {
      imageIndex := IndexOf(args, "pull") + 1;
    } else if "run" in args {
      imageIndex := LocateImage(args, IndexOf(args, "run") + 1);
    }
  }

  /** A candidate that is really a `--mount` value. */
  predicate LooksLikeMount(arg: string) {
    Contains(arg, "type=bind") || Contains(arg, "src=")
  }

  /** The reference names no registry: it has no `/`, or it has no `.`, no `:`
      and fewer than three `/`-separated segments. */
  predicate NeedsRegistry(ref: string) {
    '/' !in ref || ('.' !in ref && ':' !in ref && |Split(ref, '/')| < 3)
  }

  /** The reference with `docker.io/` in front when it names no registry. */
  function Normalize(ref: string): string {
    if NeedsRegistry(ref) then DefaultRegistryPrefix + ref else ref
  }

  /** The normalisation rule in terms of the characters of the reference:
      prefixed iff it has no `/`, or no `.`, no `:` and at most one `/`. */
  lemma NormalizeRule(ref: string)
    ensures Normalize(ref) == (
      if '/' !in ref || ('.' !in ref && ':' !in ref && multiset(ref)['/'] <= 1)
      then "docker.io/" + ref else ref)
  {
    SplitLength(ref, '/');
  }

  /** A normalised reference names a registry, so normalising is idempotent. */
  lemma NormalizeIdempotent(ref: string)
    ensures !NeedsRegistry(Normalize(ref))
    ensures Normalize(Normalize(ref)) == Normalize(ref)
  {
    var n := Normalize(ref);
    if NeedsRegistry(ref) {
      assert n[9] == '/' && n[6] == '.';
    }
  }

  /** The worked examples of the rule. */
  lemma NormalizeAlpine()
    ensures Normalize("alpine") == "docker.io/alpine"
  {
  }

  /** A reference of two `/`-separated segments without `.` or `:` is a
      Docker Hub name and gets the prefix. */
  lemma NormalizeTwoSegments(user: string, name: string)
    requires '/' !in user && '/' !in name
    requires '.' !in user && ':' !in user && '.' !in name && ':' !in name
    ensures Normalize(user + "/" + name) == "docker.io/" + user + "/" + name
  {
    var ref := user + "/" + name;
    assert ref == user + ['/'] + name;
    SplitWithoutSep(name, '/');
    SplitAfterPiece(user, name, '/');
    assert |Split(ref, '/')| == 2;
    NotInJoined(user, '/', name, '.');
    NotInJoined(user, '/', name, ':');
  }

  lemma NotInJoined(u: string, sep: char, v: string, c: char)
    requires c !in u && c !in v && c != sep
    ensures c !in u + [sep] + v
  {
    var w := u + [sep] + v;
    forall i | 0 <= i < |w| ensures w[i] != c {
      if i < |u| { assert w[i] == u[i]; }
      else if i > |u| { assert w[i] == v[i - |u| - 1]; }
    }
  }

  lemma NormalizeLibraryUbuntu()
    ensures Normalize("library" + "/" + "ubuntu") == "docker.io/" + "library" + "/" + "ubuntu"
  {
    NormalizeTwoSegments("library", "ubuntu");
  }

  lemma NormalizeQualified()
    ensures Normalize("myregistry.io/app:tag") == "myregistry.io/app:tag"
  {
    assert "myregistry.io/app:tag"[10] == '.' && "myregistry.io/app:tag"[13] == '/';
  }

  /** The image handleContainerPull pulls, if any: nothing when no image is
      found, when the index runs past the end, or when the candidate is a
      mount value; otherwise the normalised candidate. */
  function PullTarget(args: seq<string>): Option<string> {
    var i := PullImageIndex(args);
    if i == -1 || i >= |args| then None
    else if LooksLikeMount(args[i]) then None
    else Some(Normalize(args[i]))
  }

  /** The anchor of the registry override: the later of `pull` and `run`. */
  function AnchorIndex(args: seq<string>): (r: int)
    ensures -1 <= r < |args|
    ensures r == -1 <==> "pull" !in args && "run" !in args
  {
    Max(IndexOf(args, "pull"), IndexOf(args, "run"))
  }

  /** The argument the registry override rewrites, or -1. */
  function OverrideIndex(args: seq<string>): (r: int)
    ensures r == -1 || AnchorIndex(args) < r < |args|
  {
    var a := AnchorIndex(args);
    if a == -1 then -1 else ScanFrom(args, a + 1, false)
  }

  /** The argument list after the registry override of createRunner. */
  function Overridden(args: seq<string>): seq<string> {
    var k := OverrideIndex(args);
    if k == -1 then args else args[k := Normalize(args[k])]
  }

  /** The override changes at most one argument, the located image, and that
      one only by the normalisation rule. */
  lemma OverrideChangesOnlyImage(args: seq<string>)
    ensures |Overridden(args)| == |args|
    ensures forall j :: 0 <= j < |args| && Overridden(args)[j] != args[j] ==>
      j == OverrideIndex(args) && Overridden(args)[j] == DefaultRegistryPrefix + args[j]
    ensures OverrideIndex(args) >= 0 ==>
      Overridden(args)[OverrideIndex(args)] == Normalize(args[OverrideIndex(args)])
  {
  }

  /** Rewriting tokens at or after position `k` that keep their flag-ness does
      not move a scan that stopped at `k`. */
  lemma {:induction false} ScanStable(a: seq<string>, b: seq<string>, i: nat, skip: bool, k: nat)
    requires ScanFrom(a, i, skip) == k && k < |a| == |b|
    requires forall j :: i <= j < k ==> b[j] == a[j]
    requires !IsFlag(b[k])
    ensures ScanFrom(b, i, skip) == k
    decreases |a| - i
  {
    if i < k {
      if skip {
        ScanStable(a, b, i + 1, false, k);
      } else {
        ScanStable(a, b, i + 1, a[i] in OptionsWithArgs, k);
      }
    }
  }

  lemma IndexOfStable(a: seq<string>, b: seq<string>, x: string, k: nat)
    requires k < |a| == |b| && IndexOf(a, x) < k
    requires forall j :: 0 <= j < |a| && j != k ==> b[j] == a[j]
    requires b[k] == x ==> a[k] == x
    ensures IndexOf(b, x) == IndexOf(a, x)
  {
    if IndexOf(a, x) == -1 {
      assert x !in b by {
        forall j | 0 <= j < |b| ensures b[j] != x {
          if j != k { assert a[j] != x; }
        }
      }
    }
  }

  /** The rewritten image is still a non-flag that is neither `pull` nor `run`. */
  lemma NormalizedImageShape(ref: string)
    requires !IsFlag(ref)
    ensures !IsFlag(Normalize(ref))
    ensures Normalize(ref) == "pull" ==> ref == "pull"
    ensures Normalize(ref) == "run" ==> ref == "run"
  {
    if NeedsRegistry(ref) {
      var n := Normalize(ref);
      assert n[0] == 'd';
    }
  }

  /** A rewrite of the located image that keeps it a non-flag, and does not
      turn it into `pull` or `run`, leaves the located position where it was. */
  lemma OverrideIndexKept(args: seq<string>, b: seq<string>, k: nat)
    requires OverrideIndex(args) == k && k < |args|
    requires |b| == |args| && b == args[k := b[k]]
    requires !IsFlag(b[k])
    requires (b[k] == "pull" ==> args[k] == "pull") && (b[k] == "run" ==> args[k] == "run")
    ensures OverrideIndex(b) == k
  {
    var a := AnchorIndex(args);
    assert a >= 0 && ScanFrom(args, a + 1, false) == k;
    assert AnchorIndex(b) == a by {
      AnchorKept(args, b, k);
    }
    assert ScanFrom(b, a + 1, false) == k by {
      assert forall j :: a + 1 <= j < k ==> b[j] == args[j];
      ScanStable(args, b, a + 1, false, k);
    }
  }

  lemma AnchorKept(args: seq<string>, b: seq<string>, k: nat)
    requires AnchorIndex(args) < k < |args|
    requires |b| == |args| && b == args[k := b[k]]
    requires (b[k] == "pull" ==> args[k] == "pull") && (b[k] == "run" ==> args[k] == "run")
    ensures AnchorIndex(b) == AnchorIndex(args)
  {
    assert forall j :: 0 <= j < |args| && j != k ==> b[j] == args[j];
    IndexOfStable(args, b, "pull", k);
    IndexOfStable(args, b, "run", k);
  }

  lemma OverrideIndexStable(args: seq<string>)
    requires OverrideIndex(args) >= 0
    ensures OverrideIndex(Overridden(args)) == OverrideIndex(args)
  {
    var k := OverrideIndex(args);
    ScanSound(args, AnchorIndex(args) + 1);
    NormalizedImageShape(args[k]);
    OverrideIndexKept(args, args[k := Normalize(args[k])], k);
  }

  /** Applying the registry override twice is the same as applying it once. */
  lemma OverrideIdempotent(args: seq<string>)
    ensures Overridden(Overridden(args)) == Overridden(args)
  {
    var k := OverrideIndex(args);
    if k >= 0 {
      var b := Overridden(args);
      OverrideIndexStable(args);
      NormalizeIdempotent(args[k]);
      assert b[k := Normalize(b[k])] == b;
    }
  }

  /** For a `run` command without `pull`, the image createRunner rewrites is
      the one handleContainerPull pulled, and it is rewritten to exactly the
      reference that was pulled. */
  lemma PulledImageIsRunImage(args: seq<string>)
    requires "pull" !in args && "run" in args
    requires PullTarget(args).Some?
    ensures OverrideIndex(args) == PullImageIndex(args)
    ensures Overridden(args)[OverrideIndex(args)] == PullTarget(args).value
  {
  }

  /** The two copies of the locator disagree when `pull` is followed by a
      flag: handleContainerPull takes the flag itself as the image, while the
      override skips the flag and rewrites the argument after it. */
  lemma PullFlagDisagreement(flag: string, image: string)
    requires IsFlag(flag) && flag !in OptionsWithArgs && !LooksLikeMount(flag)
    requires !IsFlag(image) && image != "run"
    ensures PullTarget(["pull", flag, image]) == Some(Normalize(flag))
    ensures OverrideIndex(["pull", flag, image]) == 2
  {
    var args := ["pull", flag, image];
    assert flag != "pull" && flag != "run" by {
      assert flag[0] == '-';
    }
    assert IndexOf(args, "pull") == 0;
    assert IndexOf(args, "run") == -1;
    assert ScanFrom(args, 1, false) == 2;
  }

  /** The run locator on the worked example picks `alpine`, not a flag or a flag value. */
  lemma RunExample()
    ensures PullImageIndex(["run", "-v", "/a:/b", "--name", "x", "alpine"]) == 5
  {
    var args := ["run", "-v", "/a:/b", "--name", "x", "alpine"];
    assert IndexOf(args, "run") == 0;
    assert args[1][..1] == "-" && args[3][..1] == "-" && args[5][0] == 'a';
    assert ScanFrom(args, 1, false) == 5;
  }

  /** The in-place registry override of createRunner: the argument array is
      the caller's own, and at most one of its elements is rewritten. */
  method OverrideRegistry(finalArgs: array<string>)
    modifies finalArgs
    ensures finalArgs[..] == Overridden(old(finalArgs[..]))
  {
    ghost var s := finalArgs[..];
    var pullIndex := IndexOf(finalArgs[..], "pull");
    var runIndex := IndexOf(finalArgs[..], "run");
    var commandIndex := Max(pullIndex, runIndex);
    assert commandIndex == AnchorIndex(s);
    if commandIndex != -1 {
      var imageArgIndex := LocateImage(finalArgs[..], commandIndex + 1);
      assert imageArgIndex == OverrideIndex(s);
      if imageArgIndex != -1 {
        var imageName := finalArgs[imageArgIndex];
        if NeedsRegistry(imageName) {
          finalArgs[imageArgIndex] := DefaultRegistryPrefix + imageName;
        }
        assert finalArgs[..] == s[imageArgIndex := Normalize(imageName)];
      }
    }
  }
}
