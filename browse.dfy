/**
 * `grabbit browse` (src/commands/browse.ts): split the leading option flags
 * from the browser subcommand, choose an explicit or a `temp-<now>` session,
 * and drive the external browser process through close / launch / `har start`
 * / `reload` for navigations, or forward a single command otherwise.
 *
 * The external process is an oracle `run` from an argument vector to how that
 * child ended; `Date.now()` and `new Date().toISOString()` are parameters.
 */
module Browse {
  import opened Common
  import opened Config

  /** The options of the browser process that take the next token as their value. */
  const ValueFlags: set<string> := {
    "--session", "--profile", "--state", "--headers", "--executable-path",
    "--extension", "--args", "--user-agent", "--proxy", "--proxy-bypass",
    "--cdp", "--provider", "-p"
  }

  predicate IsFlag(arg: string) {
    StartsWith(arg, "-")
  }

  // ---------------------------------------------------------------------------
  // splitFlags

  /** Where the scan continues after the flag at `i`: past its value when it
      takes one and a value is there. */
  function Next(args: seq<string>, i: nat): (j: nat)
    requires i < |args|
    ensures i < j <= |args|
  {
    if args[i] in ValueFlags && i + 1 < |args| then i + 2 else i + 1
  }

  /** The first token at a scan position from `i` on that is not a flag. */
  function CommandFrom(args: seq<string>, i: nat): (r: Option<nat>)
    ensures r.Some? ==> i <= r.value < |args| && !IsFlag(args[r.value])
    decreases |args| - i
  {
    if i >= |args| then None
    else if IsFlag(args[i]) then CommandFrom(args, Next(args, i))
    else Some(i)
  }

  /** The scan positions reached from `i`: each is a flag (or the end) until a
      command token is met. */
  predicate Visits(args: seq<string>, i: nat, j: nat)
    decreases |args| - i
  {
    i == j || (i < j && i < |args| && IsFlag(args[i]) && Visits(args, Next(args, i), j))
  }

  datatype Split = Split(flagArgs: seq<string>, commandIndex: nat)

  /** What `splitFlags` returns: the tokens before the command, and the
      command's index (0 when there is none). */
  function SplitFlagsSpec(args: seq<string>): (s: Split)
    ensures s.commandIndex <= |args|
  {
    match CommandFrom(args, 0)
    case Some(k) => Split(args[..k], k)
    case None => Split(args, 0)
  }

  /** `splitFlags`: a left-to-right scan that pushes every flag, and the value
      of a value-taking flag, until the first token that is not a flag. */
  method SplitFlags(args: seq<string>) returns (flagArgs: seq<string>, commandIndex: nat)
    ensures Split(flagArgs, commandIndex) == SplitFlagsSpec(args)
    ensures || (commandIndex < |args| && !IsFlag(args[commandIndex]) && flagArgs == args[..commandIndex])
            || (flagArgs == args && commandIndex == 0)
  {
    flagArgs := [];
    var index: int := -1;
    var i := 0;
    while i < |args|
      invariant 0 <= i <= |args|
      invariant flagArgs == args[..i]
      invariant CommandFrom(args, 0) == CommandFrom(args, i)
    {
      var arg := args[i];
      if IsFlag(arg) {
        flagArgs := flagArgs + [arg];
        if arg in ValueFlags && i + 1 < |args| {
          flagArgs := flagArgs + [args[i + 1]];
          i := i + 1;
        }
        i := i + 1;
        continue;
      }
      index := i;
      break;
    }
    if index == -1 {
      index := 0;
      assert flagArgs == args;
    }
    commandIndex := index;
  }

  lemma {:induction false} VisitsCommandFrom(args: seq<string>, i: nat, j: nat)
    requires Visits(args, i, j)
    ensures CommandFrom(args, i) == CommandFrom(args, j)
    decreases |args| - i
  {
    if i != j {
      VisitsCommandFrom(args, Next(args, i), j);
    }
  }

  /** The token after a value-taking flag that the scan reaches goes into
      `flagArgs` and is never taken as the command, even when it does not
      start with `-`. */
  lemma ValueIsNeverCommand(args: seq<string>, j: nat)
    requires Visits(args, 0, j)
    requires j + 1 < |args| && args[j] in ValueFlags
    ensures SplitFlagsSpec(args).commandIndex != j + 1
    ensures j + 1 < |SplitFlagsSpec(args).flagArgs| && SplitFlagsSpec(args).flagArgs[j + 1] == args[j + 1]
  {
    VisitsCommandFrom(args, 0, j);
    assert IsFlag(args[j]);
    assert CommandFrom(args, j) == CommandFrom(args, j + 2);
  }

  /** A value-taking flag in last position takes nothing: the scan ends there
      with no command. */
  lemma LastFlagTakesNothing(args: seq<string>)
    requires |args| > 0 && Visits(args, 0, |args| - 1) && IsFlag(args[|args| - 1])
    ensures SplitFlagsSpec(args) == Split(args, 0)
  {
    VisitsCommandFrom(args, 0, |args| - 1);
  }

  /** When the scan reaches the end of the vector, every token is a flag or
      a flag's value: all of them are flag arguments, no command is found and
      the command region is the whole vector. */
  lemma AllFlags(args: seq<string>)
    requires Visits(args, 0, |args|)
    ensures SplitFlagsSpec(args) == Split(args, 0)
    ensures args[SplitFlagsSpec(args).commandIndex..] == args
  {
    VisitsCommandFrom(args, 0, |args|);
  }

  /** A vector made only of flags is scanned to its end. */
  lemma {:induction false} OnlyFlagsVisited(args: seq<string>, i: nat)
    requires i <= |args|
    requires forall k :: 0 <= k < |args| ==> IsFlag(args[k])
    ensures Visits(args, i, |args|)
    decreases |args| - i
  {
    if i < |args| {
      OnlyFlagsVisited(args, Next(args, i));
    }
  }

  /** `--session s` alone: the value `s` is not a command, so both tokens are
      flag arguments. */
  lemma SessionFlagAlone(name: string)
    ensures SplitFlagsSpec(["--session", name]) == Split(["--session", name], 0)
  {
    var args := ["--session", name];
    assert Next(args, 0) == 2;
    assert Visits(args, 2, 2);
    AllFlags(args);
  }

  // ---------------------------------------------------------------------------
  // getFlagValue, looksLikeUrl

  /** `xs.indexOf(x)`. */
  function IndexOf(xs: seq<string>, x: string): (r: int)
    ensures -1 <= r < |xs|
    ensures r == -1 <==> x !in xs
    ensures r >= 0 ==> xs[r] == x && x !in xs[..r]
  {
    if |xs| == 0 then -1
    else if xs[0] == x then 0
    else
      var k := IndexOf(xs[1..], x);
      assert xs[1..] == xs[1..|xs|];
      if k == -1 then -1
      else
        assert xs[..k + 1] == [xs[0]] + xs[1..][..k];
        k + 1
  }

  /** `getFlagValue`: the token after the first occurrence of `flag`;
      `undefined` when the flag is absent or is the last token. */
  function GetFlagValue(flagArgs: seq<string>, flag: string): (r: Option<string>)
    ensures r.Some? ==> exists i :: 0 <= i < |flagArgs| - 1 && flagArgs[i] == flag && flag !in flagArgs[..i]
                                    && r.value == flagArgs[i + 1]
    ensures r.None? <==> flag !in flagArgs || (flagArgs[|flagArgs| - 1] == flag && flag !in flagArgs[..|flagArgs| - 1])
  {
    var idx := IndexOf(flagArgs, flag);
    if idx == -1 || idx + 1 >= |flagArgs| then None else Some(flagArgs[idx + 1])
  }

  /** `looksLikeUrl`. */
  predicate LooksLikeUrl(value: Option<string>) {
    value.Some? && (StartsWith(value.value, "http://") || StartsWith(value.value, "https://"))
  }

  // ---------------------------------------------------------------------------
  // Session naming and the forwarded argument vector

  datatype SessionPlan = SessionPlan(explicit: bool, sessionName: string, effectiveFlags: seq<string>)

  function TempSessionName(now: nat): string {
    "temp-" + NatToString(now)
  }

  /** An explicit non-empty `--session` is used as given; otherwise a
      `temp-<now>` session is made up and its `--session` pair is put in front
      of the flags, so the child process always sees the chosen name. */
  function PlanSession(flagArgs: seq<string>, now: nat): (p: SessionPlan)
    ensures p.explicit <==> Truthy(GetFlagValue(flagArgs, "--session"))
    ensures p.explicit ==> p.effectiveFlags == flagArgs
    ensures !p.explicit ==>
              && p.sessionName == TempSessionName(now)
              && p.effectiveFlags == ["--session", p.sessionName] + flagArgs
    ensures GetFlagValue(p.effectiveFlags, "--session") == Some(p.sessionName)
    ensures p.sessionName != ""
  {
    var provided := GetFlagValue(flagArgs, "--session");
    if Truthy(provided) then SessionPlan(true, provided.value, flagArgs)
    else
      var name := TempSessionName(now);
      var flags := ["--session", name] + flagArgs;
      assert IndexOf(flags, "--session") == 0;
      SessionPlan(false, name, flags)
  }

  /** `isNavigation`: `open`, `navigate`, or a URL that is the very first token. */
  predicate IsNavigation(command: Option<string>, commandIndex: nat) {
    command == Some("open") || command == Some("navigate") || (commandIndex == 0 && LooksLikeUrl(command))
  }

  /** A URL after leading flags is forwarded as an ordinary command. */
  lemma UrlAfterFlagsIsNotNavigation(args: seq<string>)
    requires SplitFlagsSpec(args).commandIndex > 0
    requires StartsWith(args[SplitFlagsSpec(args).commandIndex], "http")
    ensures !IsNavigation(Some(args[SplitFlagsSpec(args).commandIndex]), SplitFlagsSpec(args).commandIndex)
  {
  }

  // ---------------------------------------------------------------------------
  // The command sequence of `browse`

  /** `runBrowseCommand`'s promise value. */
  function ExitCodeOf(o: RunOutcome): (code: int)
    ensures o.SpawnError? ==> code == 1
    ensures o == Exited(None) ==> code == 0
    ensures o.Exited? && o.code.Some? ==> code == o.code.value
  {
    match o
    case SpawnError => 1
    case Exited(c) => if c.Some? then c.value else 0
  }

  /** What `browse` does to the session marker. */
  datatype StoreEffect = KeepSession | RecordSession(session: Session) | ForgetSession

  datatype BrowseRun = BrowseRun(issued: seq<seq<string>>, exitCode: int, effect: StoreEffect)

  function CloseCommand(sessionName: string): seq<string> {
    ["--session", sessionName, "close"]
  }

  /** The parts of one invocation that the lifecycle depends on. */
  datatype Invocation = Invocation(commandArgs: seq<string>, command: Option<string>, commandIndex: nat,
                                   session: SessionPlan, effectiveArgs: seq<string>, navigation: bool)

  function Prepare(args: seq<string>, now: nat): (inv: Invocation)
    ensures inv.effectiveArgs == inv.session.effectiveFlags + inv.commandArgs
    ensures inv.commandIndex <= |args| && inv.commandArgs == args[inv.commandIndex..]
  {
    var split := SplitFlagsSpec(args);
    var commandArgs := args[split.commandIndex..];
    var command := if |commandArgs| > 0 then Some(commandArgs[0]) else None;
    var plan := PlanSession(split.flagArgs, now);
    Invocation(commandArgs, command, split.commandIndex, plan, plan.effectiveFlags + commandArgs,
               IsNavigation(command, split.commandIndex))
  }

  /** The commands `browse` issues for a prepared invocation, its exit code
      and its effect on the session marker. */
  function Lifecycle(inv: Invocation, startedAt: string, run: seq<string> -> RunOutcome): (b: BrowseRun)
    // Non-navigation: exactly the forwarded command; the marker is cleared
    // exactly for `close`, whatever the exit code.
    ensures !inv.navigation ==>
              && b.issued == [inv.effectiveArgs]
              && b.exitCode == ExitCodeOf(run(inv.effectiveArgs))
              && (b.effect == ForgetSession <==> inv.command == Some("close"))
              && (b.effect == ForgetSession || b.effect == KeepSession)
    // Navigation: an ephemeral session first closes `default` and its own
    // temp session. The launch is followed by `har start` only when it exits
    // 0; the marker is written and `reload` issued only after `har start`
    // exits 0. The exit code is reload's, otherwise launch's (so a failed
    // `har start` exits 0).
    ensures inv.navigation ==>
              var flags := inv.session.effectiveFlags;
              var closes := if inv.session.explicit then [] else [CloseCommand("default"), CloseCommand(inv.session.sessionName)];
              var launch := ExitCodeOf(run(inv.effectiveArgs));
              var harStart := ExitCodeOf(run(flags + ["har", "start"]));
              && (launch != 0 ==>
                    && b.issued == closes + [inv.effectiveArgs]
                    && b.exitCode == launch && b.effect == KeepSession)
              && (launch == 0 && harStart != 0 ==>
                    && b.issued == closes + [inv.effectiveArgs, flags + ["har", "start"]]
                    && b.exitCode == 0 && b.effect == KeepSession)
              && (launch == 0 && harStart == 0 ==>
                    && b.issued == closes + [inv.effectiveArgs, flags + ["har", "start"], flags + ["reload"]]
                    && b.exitCode == ExitCodeOf(run(flags + ["reload"]))
                    && b.effect == RecordSession(Session(true, Some(startedAt), Some(inv.session.sessionName))))
  {
    var flags := inv.session.effectiveFlags;
    if inv.navigation then
      var closes := if inv.session.explicit then [] else [CloseCommand("default"), CloseCommand(inv.session.sessionName)];
      var launch := ExitCodeOf(run(inv.effectiveArgs));
      if launch != 0 then
        BrowseRun(closes + [inv.effectiveArgs], launch, KeepSession)
      else
        var harStart := flags + ["har", "start"];
        if ExitCodeOf(run(harStart)) != 0 then
          BrowseRun(closes + [inv.effectiveArgs, harStart], launch, KeepSession)
        else
          var reload := flags + ["reload"];
          BrowseRun(closes + [inv.effectiveArgs, harStart, reload], ExitCodeOf(run(reload)),
                    RecordSession(Session(true, Some(startedAt), Some(inv.session.sessionName))))
    else
      BrowseRun([inv.effectiveArgs], ExitCodeOf(run(inv.effectiveArgs)),
                if inv.command == Some("close") then ForgetSession else KeepSession)
  }

  /** The whole of `browse` for its arguments. */
  function BrowsePlan(args: seq<string>, now: nat, startedAt: string, run: seq<string> -> RunOutcome): BrowseRun {
    Lifecycle(Prepare(args, now), startedAt, run)
  }

  /** `browse`, step by step: the commands it issues in order and the exit
      code, with the session marker written or cleared as `BrowsePlan` says. */
  method Browse(store: SessionStore, args: seq<string>, now: nat, startedAt: string, run: seq<string> -> RunOutcome)
    returns (issued: seq<seq<string>>, exitCode: int)
    modifies store
    ensures BrowsePlan(args, now, startedAt, run).issued == issued
    ensures BrowsePlan(args, now, startedAt, run).exitCode == exitCode
    ensures BrowsePlan(args, now, startedAt, run).effect == KeepSession ==> store.file == old(store.file)
    ensures BrowsePlan(args, now, startedAt, run).effect == ForgetSession ==> store.GetSession() == None
    ensures BrowsePlan(args, now, startedAt, run).effect.RecordSession? ==>
              store.GetSession() == Some(BrowsePlan(args, now, startedAt, run).effect.session)
  {
    var flagArgs, commandIndex := SplitFlags(args);
    var commandArgs := args[commandIndex..];
    var command := if |commandArgs| > 0 then Some(commandArgs[0]) else None;
    var plan := PlanSession(flagArgs, now);
    var effectiveArgs := plan.effectiveFlags + commandArgs;
    var isNavigation := IsNavigation(command, commandIndex);
    assert Prepare(args, now) == Invocation(commandArgs, command, commandIndex, plan, effectiveArgs, isNavigation);
    issued := [];
    ghost var closes: seq<seq<string>> := if plan.explicit then [] else [CloseCommand("default"), CloseCommand(plan.sessionName)];

    if !plan.explicit && isNavigation {
      // Best-effort cleanup: both results are discarded.
      issued := issued + [CloseCommand("default")];
      issued := issued + [CloseCommand(plan.sessionName)];
    }

    if isNavigation {
      assert issued == closes;
      issued := issued + [effectiveArgs];
      exitCode := ExitCodeOf(run(effectiveArgs));
      if exitCode == 0 {
        var harStart := plan.effectiveFlags + ["har", "start"];
        issued := issued + [harStart];
        assert issued == closes + [effectiveArgs, harStart];
        var harStarted := ExitCodeOf(run(harStart)) == 0;
        if harStarted {
          store.SaveSession(Session(true, Some(startedAt), Some(plan.sessionName)));
          var reload := plan.effectiveFlags + ["reload"];
          issued := issued + [reload];
          assert issued == closes + [effectiveArgs, harStart, reload];
          exitCode := ExitCodeOf(run(reload));
        }
      }
      return;
    }

    issued := issued + [effectiveArgs];
    exitCode := ExitCodeOf(run(effectiveArgs));
    if command == Some("close") {
      store.ClearSession();
    }
  }
}
