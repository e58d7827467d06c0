/**
 * The process entry point `main`: with an action word it installs or
 * uninstalls the built-in service descriptor (any other word is reported
 * as unknown); without one it runs the control loop when started by the
 * service manager, and otherwise calls the start hook in the foreground.
 */
module Cli {
  import opened Svc
  import opened Registry
  import Lifecycle
  import Installer

  /** The descriptor `main` builds. */
  const Server: Installer.WinService :=
    Installer.WinService("AATestGoServer", "AATestGoServer 服务", "AATestGoServer 描述", true, true)

  /** What `main` decides to do. */
  datatype Mode =
    | DoInstall
    | DoUninstall
    | UnknownAction(action: string)
    | RunAsService
    | RunForeground

  /** ASCII lower-casing of one character. */
  function LowerChar(c: char): char {
    if 'A' <= c <= 'Z' then (c as int + 32) as char else c
  }

  /** `strings.ToLower`, restricted to ASCII letters: every character lower-cased in place. */
  function ToLower(s: string): (r: string)
    ensures |r| == |s|
    ensures forall i :: 0 <= i < |s| ==> r[i] == LowerChar(s[i])
    decreases |s|
  {
    if s == [] then [] else [LowerChar(s[0])] + ToLower(s[1..])
  }

  /** Two words that agree letter by letter once both are lower-cased. */
  ghost predicate EqualsIgnoringCase(a: string, b: string) {
    |a| == |b| && forall i :: 0 <= i < |a| ==> LowerChar(a[i]) == LowerChar(b[i])
  }

  /**
   * The decision of `main` for command line `args` (args[0] is the program):
   * an action word is always acted on or reported, and only without one
   * does the service-manager check matter.
   */
  function Dispatch(args: seq<string>, isWindowsService: bool): (mode: Mode)
    ensures (mode == RunAsService || mode == RunForeground) <==> |args| <= 1
    ensures mode == RunAsService ==> isWindowsService
    ensures mode == RunForeground ==> !isWindowsService
    ensures mode.UnknownAction? ==> |args| > 1 && mode.action == ToLower(args[1]) &&
                                    mode.action != "install" && mode.action != "uninstall"
  {
    if |args| > 1 then
      var action := ToLower(args[1]);
      if action == "install" then DoInstall
      else if action == "uninstall" then DoUninstall
      else UnknownAction(action)
    else if isWindowsService then RunAsService
    else RunForeground
  }

  lemma LowerCharIdempotent(c: char)
    ensures LowerChar(LowerChar(c)) == LowerChar(c)
  {
  }

  /** The lower-cased word equals a lower-case word exactly when the two agree ignoring case. */
  lemma ToLowerMatches(s: string, word: string)
    requires forall i :: 0 <= i < |word| ==> LowerChar(word[i]) == word[i]
    ensures ToLower(s) == word <==> EqualsIgnoringCase(s, word)
  {
    if EqualsIgnoringCase(s, word) {
      assert forall i :: 0 <= i < |s| ==> ToLower(s)[i] == word[i];
    }
  }

  /** An action word selects install exactly when it spells "install" in any mix of cases. */
  lemma DispatchInstall(args: seq<string>, isWindowsService: bool)
    ensures Dispatch(args, isWindowsService) == DoInstall <==> |args| > 1 && EqualsIgnoringCase(args[1], "install")
  {
    if |args| > 1 {
      ToLowerMatches(args[1], "install");
      ToLowerMatches(args[1], "uninstall");
    }
  }

  /** An action word selects uninstall exactly when it spells "uninstall" in any mix of cases. */
  lemma DispatchUninstall(args: seq<string>, isWindowsService: bool)
    ensures Dispatch(args, isWindowsService) == DoUninstall <==> |args| > 1 && EqualsIgnoringCase(args[1], "uninstall")
  {
    if |args| > 1 {
      ToLowerMatches(args[1], "install");
      ToLowerMatches(args[1], "uninstall");
    }
  }

  /** Any other action word is reported, lower-cased, as unknown; a word is never ignored. */
  lemma DispatchUnknown(args: seq<string>, isWindowsService: bool)
    ensures Dispatch(args, isWindowsService).UnknownAction? <==>
            |args| > 1 && !EqualsIgnoringCase(args[1], "install") && !EqualsIgnoringCase(args[1], "uninstall")
    ensures Dispatch(args, isWindowsService).UnknownAction? ==>
            Dispatch(args, isWindowsService).action == ToLower(args[1])
  {
    if |args| > 1 {
      ToLowerMatches(args[1], "install");
      ToLowerMatches(args[1], "uninstall");
    }
  }

  /** Without an action word the service-manager check alone decides; extra words after the first are ignored. */
  lemma DispatchWithoutAction(args: seq<string>, isWindowsService: bool)
    ensures |args| <= 1 ==> Dispatch(args, isWindowsService) == if isWindowsService then RunAsService else RunForeground
    ensures |args| > 1 ==> Dispatch(args, isWindowsService) == Dispatch(args[..2], !isWindowsService)
  {
  }

  /** Lower-casing twice is lower-casing once, so the decision is the same on a lower-cased command line. */
  lemma {:induction false} DispatchCaseInsensitive(args: seq<string>, isWindowsService: bool)
    requires |args| > 1
    ensures Dispatch(args, isWindowsService) == Dispatch(args[1 := ToLower(args[1])], isWindowsService)
  {
    var s := args[1];
    forall i | 0 <= i < |s| ensures ToLower(ToLower(s))[i] == ToLower(s)[i] {
      LowerCharIdempotent(s[i]);
    }
    assert ToLower(ToLower(s)) == ToLower(s);
  }

  /**
   * `main`: dispatch on the command line, then install or uninstall `Server`
   * against the manager `m`, or run the control loop, or call the start hook.
   */
  method Launch(args: seq<string>, isWindowsService: bool, exe: Option<string>,
                m: Manager, sc: Lifecycle.ServiceControl)
    returns (mode: Mode, err: Outcome)
    modifies m, sc
    ensures mode == Dispatch(args, isWindowsService)
    ensures mode == DoInstall ==>
              var r := Installer.InstallRun(Server, exe, old(m.services), m.faults);
              err == r.outcome && m.services == r.services && m.calls == old(m.calls) + r.calls
    ensures mode == DoUninstall ==>
              var r := Installer.UninstallRun(Server.serviceName, old(m.services), m.faults);
              err == r.outcome && m.services == r.services && m.calls == old(m.calls) + r.calls
    ensures mode.UnknownAction? || mode == RunAsService || mode == RunForeground ==>
              err == Pass && m.services == old(m.services) && m.calls == old(m.calls)
    ensures mode == RunAsService ==>
              sc.events == old(sc.events) + Lifecycle.ExecTrace(old(sc.requests)) &&
              sc.requests == old(sc.requests)[Lifecycle.Received(old(sc.requests))..]
    ensures mode == RunForeground ==>
              sc.events == old(sc.events) + [Lifecycle.StartHook] && sc.requests == old(sc.requests)
    ensures mode == DoInstall || mode == DoUninstall || mode.UnknownAction? ==>
              sc.events == old(sc.events) && sc.requests == old(sc.requests)
  {
    mode := Dispatch(args, isWindowsService);
    err := Pass;
    match mode
    case DoInstall =>
      err := Installer.Install(Server, exe, m);
    case DoUninstall =>
      err := Installer.Uninstall(Server, m);
    case UnknownAction(_) =>
    case RunAsService =>
      var _, _ := Lifecycle.Execute(sc);
    case RunForeground =>
      sc.StartApp();
  }
}
