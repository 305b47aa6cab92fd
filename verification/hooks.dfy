/**
 * The user hook runner of src/wgtray/hooks.py: where the hook for an
 * (interface, event) pair lives, when it counts as present, and how the
 * fate of running it maps to an `(ok, error)` pair. The filesystem lookup
 * and the process are inputs.
 */
module Hooks {
  import opened Wrappers
  import opened Text

  /** What the filesystem reports for the hook's path. `Absent` also stands
      for the errors `Path.exists` turns into False (ENOENT, ENOTDIR, EBADF,
      ELOOP); `StatFailed` is any other `OSError` of the `stat` call, such as
      a hooks directory the user may not search, which `exists` re-raises
      (pathlib up to Python 3.13). */
  datatype FileInfo = Absent | Present(isFile: bool, mode: nat) | StatFailed(message: string)

  /** A value returned, or an exception that propagates to the caller. */
  datatype Raising<T> = Returns(value: T) | Propagates(error: string)

  /** What became of running a resolved hook. */
  datatype HookRun =
    | TimedOut                                              // still running after 30 seconds
    | PermissionDenied                                      // PermissionError when starting it
    | Raised(message: string)                               // any other exception, as its text
    | Exited(returncode: int, stdout: string, stderr: string)

  /** `run_hook`'s `(success, error_message)` pair. */
  datatype HookOutcome = HookOutcome(ok: bool, error: Option<string>)

  const InterfaceVariable: string := "WGTRAY_INTERFACE"
  const EventVariable: string := "WGTRAY_EVENT"

  /** The hook's file name inside the hooks directory: `<interface>.<event>`. */
  function HookName(iface: string, event: string): string {
    iface + "." + event
  }

  function HookPath(hooksDir: string, iface: string, event: string): string {
    hooksDir + "/" + HookName(iface, event)
  }

  /** The owner-execute permission bit, 0o100. */
  predicate OwnerExecutable(mode: nat) {
    (mode / 64) % 2 == 1
  }

  /** `get_hook_path`: a path only for an existing regular file whose owner
      may execute it; a failed `stat` propagates. */
  function GetHookPath(hooksDir: string, iface: string, event: string, info: FileInfo): (r: Raising<Option<string>>)
    ensures r.Propagates? <==> info.StatFailed?
    ensures r.Returns? && r.value.Some? <==> info.Present? && info.isFile && OwnerExecutable(info.mode)
    ensures r.Returns? && r.value.Some? ==> r.value.value == HookPath(hooksDir, iface, event)
  {
    match info
    case StatFailed(message) => Propagates(message)
    case Absent => Returns(None)
    case Present(isFile, mode) =>
      if !isFile then Returns(None)
      else if !OwnerExecutable(mode) then Returns(None)
      else Returns(Some(HookPath(hooksDir, iface, event)))
  }

  const ExitCodePrefix: string := "Exit code "

  /** `run_hook`: the hook lookup runs before the `try`, so only its failed
      `stat` propagates; inside the `try` nothing does. A missing hook is not a
      failure; only a zero exit of a present hook succeeds, and every other
      outcome carries a message (stderr, the exit code, or a fixed text for
      timeout and denial). */
  function RunHook(hooksDir: string, iface: string, event: string, info: FileInfo, run: HookRun): (r: Raising<HookOutcome>)
    ensures r.Propagates? <==> info.StatFailed?
    ensures info.StatFailed? ==> r == Propagates(info.message)
    ensures r.Returns? ==> (r.value.ok <==> r.value.error.None?)
    ensures r.Returns? ==>
      (r.value.ok <==> GetHookPath(hooksDir, iface, event, info) == Returns(None) || (run.Exited? && run.returncode == 0))
    ensures r.Returns? && !r.value.ok && run.Exited? ==> r.value.error.Some? && r.value.error.value != ""
    ensures r.Returns? && !r.value.ok && run.Exited? && Strip(run.stderr) != "" ==> r.value.error == Some(Strip(run.stderr))
    ensures r.Returns? && !r.value.ok && run.TimedOut? ==> r.value.error == Some("Timeout (30s)")
    ensures r.Returns? && !r.value.ok && run.PermissionDenied? ==> r.value.error == Some("Permission denied")
    ensures r.Returns? && !r.value.ok && run.Raised? ==> r.value.error == Some(run.message)
  {
    match GetHookPath(hooksDir, iface, event, info)
    case Propagates(message) => Propagates(message)
    case Returns(path) =>
      if path.None? then Returns(HookOutcome(true, None))
      else
        match run
        case Exited(returncode, stdout, stderr) =>
          if returncode != 0 then
            var err := Strip(stderr);
            Returns(HookOutcome(false, Some(if err != "" then err else ExitCodePrefix + IntToString(returncode))))
          else Returns(HookOutcome(true, None))
        case TimedOut => Returns(HookOutcome(false, Some("Timeout (30s)")))
        case PermissionDenied => Returns(HookOutcome(false, Some("Permission denied")))
        case Raised(message) => Returns(HookOutcome(false, Some(message)))
  }

  /** With nothing on stderr, the message names the exit code, which can be read back. */
  lemma ExitCodeReadBack(hooksDir: string, iface: string, event: string, info: FileInfo, rc: int, stdout: string, stderr: string)
    requires GetHookPath(hooksDir, iface, event, info).Returns? && GetHookPath(hooksDir, iface, event, info).value.Some?
    requires rc != 0 && Strip(stderr) == ""
    ensures var r := RunHook(hooksDir, iface, event, info, Exited(rc, stdout, stderr));
      r.Returns? && r.value.error.Some? &&
      (var e := r.value.error.value;
       StartsWith(e, ExitCodePrefix) && ParseInt(e[|ExitCodePrefix|..]) == Some(rc))
  {
    var e := ExitCodePrefix + IntToString(rc);
    assert e[|ExitCodePrefix|..] == IntToString(rc);
    ParseIntOfString(rc);
  }

  /** The hook's environment: the current one with the two hook variables set. */
  function HookEnvironment(env: map<string, string>, iface: string, event: string): (e: map<string, string>)
    ensures e.Keys == env.Keys + {InterfaceVariable, EventVariable}
    ensures e[InterfaceVariable] == iface && e[EventVariable] == event
    ensures forall k :: k in env && k != InterfaceVariable && k != EventVariable ==> e[k] == env[k]
  {
    env[InterfaceVariable := iface][EventVariable := event]
  }

  /** The index of the last '.' in `s`, if any. */
  function LastDot(s: string): (r: Option<nat>)
    ensures r.Some? ==> r.value < |s| && s[r.value] == '.' && '.' !in s[r.value + 1..]
    ensures r.None? ==> '.' !in s
  {
    if s == [] then None
    else if s[|s| - 1] == '.' then Some(|s| - 1)
    else
      var r := LastDot(s[..|s| - 1]);
      assert s == s[..|s| - 1] + [s[|s| - 1]];
      if r.Some? then
        assert s[r.value + 1..] == s[..|s| - 1][r.value + 1..] + [s[|s| - 1]];
        r
      else r
  }

  lemma {:induction false} LastDotOfHookName(iface: string, event: string)
    requires '.' !in event
    ensures LastDot(HookName(iface, event)) == Some(|iface|)
  {
    var s := HookName(iface, event);
    if event != [] {
      assert s[..|s| - 1] == HookName(iface, event[..|event| - 1]);
      LastDotOfHookName(iface, event[..|event| - 1]);
    }
  }

  /** For event names without a dot (all three events are such), the hook
      name determines both the interface and the event. */
  lemma HookNameInjective(i1: string, e1: string, i2: string, e2: string)
    requires '.' !in e1 && '.' !in e2
    requires HookName(i1, e1) == HookName(i2, e2)
    ensures i1 == i2 && e1 == e2
  {
    var s := HookName(i1, e1);
    LastDotOfHookName(i1, e1);
    LastDotOfHookName(i2, e2);
    assert i1 == s[..|i1|] && i2 == s[..|i2|];
    assert e1 == s[|i1| + 1..] && e2 == s[|i2| + 1..];
  }
}
