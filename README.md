# Windows service lifecycle controller — a Dafny model

This project models the service lifecycle controller of `windows_svc.go`.
The controller registers a long-running executable with the Windows service
control manager. It also bridges the manager's control protocol to the
application's start and stop hooks. The model has four parts:

- **Control loop** (`Lifecycle`). `WinService.Execute` reports StartPending,
  launches the start hook and reports Running, accepting Stop and Shutdown.
  It then answers requests in order: an Interrogate re-emits the request's
  CurrentStatus, and a Stop or Shutdown reports StopPending, runs the stop
  hook, reports Stopped and ends the loop. Every other command is ignored.
  The two channels are the fields of a `ServiceControl` object: the queued
  requests, and one ordered log of status reports and hook calls.
  `Execute` is a `while` loop proved equal to the pure trace `ExecTrace`.
- **Service manager** (`Registry`). The manager is a `Manager` class. It
  holds a map from service name to registration (binary path, display name,
  description, start type, run state), a fixed set of operations it refuses,
  and a log of the calls made. Each `mgr` call is a method on it. Service
  names are matched exactly (see "Left out").
- **Install and uninstall** (`Installer`). `Install` and `Uninstall` are
  imperative methods over a `Manager`. Each is proved equal to a pure run
  function (`InstallRun`, `UninstallRun`) giving the outcome, the
  registrations afterwards and the calls made. The properties are lemmas
  about those functions: duplicate refusal, forced reinstall, start-type
  choice, stop before delete, early returns, connection release, and the
  install-then-uninstall round trip. The duplicate scan over the listed
  names is its own loop, `FindService`. Install acts on its answer after the
  scan ends; the source acts inside the loop and then always leaves it, so
  the two behave the same.
- **Entry point** (`Cli`). `main` lower-cases its first argument and
  dispatches to install, uninstall or an unknown-action warning. Without an
  argument it runs the control loop under the service manager, or else
  calls the start hook.

Three behaviours of the code are easy to misread; the model follows the code:

- Once Running, the service accepts only `AcceptStop | AcceptShutdown`.
  Interrogate is not in the mask.
- An Interrogate re-emits the `CurrentStatus` carried by the request. That is
  not necessarily "Running". `ForwardTransitions` shows that the states move
  only forward when the manager supplies the Running status.
- In `Uninstall`, a refused Stop control returns at once. It does not attempt
  Delete (windows_svc.go:138-141).

## Model

| member | source | states |
|---|---|---|
| `Lifecycle.ControlLoop` | windows_svc.go:40-54 | the events per request: an Interrogate emits its own CurrentStatus and the loop goes on; a Stop or Shutdown emits StopPending, the stop hook and Stopped and ends the loop; any other command emits nothing; the start hook never appears, and the stop hook appears only when the last request taken was a Stop or Shutdown |
| `Lifecycle.ExecTrace` | windows_svc.go:35-56 | one activation: StartPending, the start hook, Running accepting Stop and Shutdown, then the loop's events; the start hook appears at position 1 and nowhere else |
| `Lifecycle.Execute` | windows_svc.go:35-56 | the log grows by exactly `ExecTrace` of the queued requests; only the requests up to and including the first Stop/Shutdown are taken off the channel; the result is always `(false, 0)` |
| `Lifecycle.ServiceControl.Receive` | windows_svc.go:43 | takes the oldest queued request off the channel |
| `Lifecycle.ServiceControl.Publish` | windows_svc.go:37 | a status send appends exactly that report to the log |
| `Lifecycle.ServiceControl.StartApp` | windows_svc.go:27-29 | the start hook appends one start-hook event |
| `Lifecycle.ServiceControl.StopApp` | windows_svc.go:31-33 | the stop hook appends one stop-hook event |
| `Lifecycle.Received` | windows_svc.go:40-54 | the number of requests consumed is at most the number queued; when some remain unread, the last one read was Stop or Shutdown |
| `Lifecycle.OpeningSequence` | windows_svc.go:36-39 | every trace starts with StartPending, then the start hook, then Running with accept mask exactly AcceptStop plus AcceptShutdown (0x5), with no pause/continue or pre-shutdown bit |
| `Lifecycle.InterrogateEchoes` | windows_svc.go:45-46 | an Interrogate re-emits its own CurrentStatus unchanged, calls no hook, and the loop continues on the rest |
| `Lifecycle.OtherCommandIgnored` | windows_svc.go:44-53 | any command other than Interrogate, Stop and Shutdown emits nothing and is skipped |
| `Lifecycle.LoopShape` | windows_svc.go:40-54 | the loop's events are the echoes of the Interrogates before the first Stop/Shutdown, then StopPending, stop hook and Stopped if such a request exists; it consumes exactly up to that request |
| `Lifecycle.TraceShape` | windows_svc.go:35-56 | the whole trace is the opening, the echoes, then the closing if a Stop/Shutdown arrived |
| `Lifecycle.ShutdownLikeStop` | windows_svc.go:47-51 | replacing Stop by Shutdown, with any statuses and any later requests, gives the same events and consumes the same number of requests |
| `Lifecycle.HookCounts` | windows_svc.go:37-51 | the start hook runs exactly once per activation; the stop hook exactly once if a Stop/Shutdown arrives, otherwise never |
| `Lifecycle.StopHookBetween` | windows_svc.go:47-51 | wherever the stop hook appears, StopPending comes right before it and Stopped right after it, as the last event |
| `Lifecycle.ExampleShape` | windows_svc.go:44-51 | in [Interrogate, Interrogate, Stop] the Stop is the first terminal request, and the two Interrogates are echoed |
| `Lifecycle.ExampleTrace` | windows_svc.go:37-51 | [Interrogate cs1, Interrogate cs2, Stop] gives StartPending, start hook, Running, cs1, cs2, StopPending, stop hook, Stopped |
| `Lifecycle.ExampleStatuses` | windows_svc.go:37-51 | for that input the statuses on `changes` are exactly StartPending, Running, cs1, cs2, StopPending, Stopped |
| `Lifecycle.StatusesOfTrace` | windows_svc.go:37-51 | the statuses sent are StartPending, Running, each echoed status, then StopPending and Stopped if the loop ended |
| `Lifecycle.ForwardTransitions` | windows_svc.go:37-51 | if every Interrogate carries a Running status, only those four lifecycle states are reported, and they never go back along StartPending, Running, StopPending, Stopped |
| `Registry.Manager.Connect` | windows_svc.go:71 | connecting is logged and fails exactly when the manager refuses connections |
| `Registry.Manager.Disconnect` | windows_svc.go:75-77 | disconnecting is logged; its error is discarded |
| `Registry.Manager.ListServices` | windows_svc.go:79 | when not refused, the listed names are exactly the registered names, each once |
| `Registry.Manager.CreateService` | windows_svc.go:104-108 | refused, or fails on a registered name; otherwise adds exactly that registration, stopped, and changes nothing else |
| `Registry.Manager.OpenService` | windows_svc.go:127 | refused, or fails on an unregistered name; changes no registration |
| `Registry.Manager.Query` | windows_svc.go:133 | when not refused, reports the registration's current state |
| `Registry.Manager.ControlStop` | windows_svc.go:138 | refused, or fails on a service that is not running; otherwise moves it to StopPending |
| `Registry.Manager.Delete` | windows_svc.go:144 | when not refused, removes exactly that name |
| `Installer.UninstallRun` | windows_svc.go:117-148 | per branch: a refused Connect fails with that one call; a refused OpenService or an unregistered name fails after Connect, OpenService, Disconnect; a refused Query fails after Query; a running service is sent Stop, and a refused Stop fails with no Delete; otherwise Delete, removing the name unless refused, then Disconnect. Every run starts with Connect and, once connected, ends with Disconnect; success leaves exactly the old registrations minus the name, failure removes none |
| `Installer.InstallRun` | windows_svc.go:59-115 | per branch: no path fails with no call and no change; a refused Connect or listing fails early; a listed name without force fails as already installed; with force the nested Uninstall runs and its failure is returned; then CreateService, refused, failing on an existing name, or adding the new entry, and Disconnect. Success leaves the name registered at the resolved path; without force no Delete is ever made and no registration disappears |
| `Installer.FindService` | windows_svc.go:83-98 | the scan of the listed names finds the service exactly when its name is listed |
| `Installer.Uninstall` | windows_svc.go:117-148 | the outcome, the registrations and the calls made are exactly those of `UninstallRun` |
| `Installer.Install` | windows_svc.go:59-115 | the outcome, the registrations and the calls made are exactly those of `InstallRun` |
| `Installer.UninstallFrame` | windows_svc.go:117-148 | Uninstall changes no registration other than its own name, on every path |
| `Installer.UninstallAbsent` | windows_svc.go:126-130 | an unregistered name fails at OpenService, changes nothing and never reaches Query or Delete |
| `Installer.UninstallStopsBeforeDelete` | windows_svc.go:137-146 | for a running service that reaches Delete, the calls are Connect, OpenService, Query, Stop, Delete, Disconnect |
| `Installer.UninstallIdleNoStop` | windows_svc.go:137 | a service that is not running is never sent Stop |
| `Installer.UninstallFailedStop` | windows_svc.go:138-141 | a refused Stop returns that error at once, attempts no Delete and changes nothing |
| `Installer.UninstallSucceeds` | windows_svc.go:117-148 | Uninstall succeeds exactly when the name is registered and none of Connect, OpenService, Query, Delete is refused, nor Stop for a running service; success removes exactly that name |
| `Installer.UninstallFailureKeepsEntry` | windows_svc.go:117-148 | after a failed Uninstall the registration is still there, with at most its run state changed |
| `Installer.UninstallReleases` | windows_svc.go:123-125 | once connected, Uninstall disconnects exactly once, as its last call |
| `Installer.InstallEarlyFailure` | windows_svc.go:60-82 | an unresolvable path, a refused connection or a refused listing fails with no change, no CreateService and no Delete |
| `Installer.InstallDuplicateRefused` | windows_svc.go:84-95 | a listed name without force fails as already installed, changes nothing, and reaches neither Uninstall nor CreateService |
| `Installer.InstallReinstallFails` | windows_svc.go:85-89 | with force, a failed Uninstall's error is returned unchanged, its registrations are kept, and CreateService is never called |
| `Installer.InstallResult` | windows_svc.go:99-112 | a successful Install leaves the registrations as before except one entry for the name, at the resolved path; its start type is Automatic iff AutoStart, Manual otherwise |
| `Installer.InstallSucceeds` | windows_svc.go:59-115 | Install succeeds exactly when the path resolves, none of Connect, ListServices, CreateService is refused, and a listed duplicate is forced and then uninstalled |
| `Installer.InstallFrame` | windows_svc.go:59-115 | Install changes no registration other than its own name, on every path |
| `Installer.InstallReleases` | windows_svc.go:75-77 | once connected, Install ends with a Disconnect, and that includes the nested Uninstall's connection |
| `Installer.InstallThenUninstall` | windows_svc.go:59-148 | after a successful Install, an Uninstall that is not refused succeeds, removes the name and restores every other registration |
| `Cli.ToLower` | windows_svc.go:164 | lower-casing keeps the length and lower-cases each character in place |
| `Cli.ToLowerMatches` | windows_svc.go:164-166 | the lower-cased word equals a lower-case keyword exactly when the two agree ignoring case |
| `Cli.Dispatch` | windows_svc.go:163-193 | the mode per first argument: with an argument, install or uninstall for those words in any case, else that word lower-cased as unknown; without one, run under the manager exactly when started by it, else run in the foreground |
| `Cli.DispatchInstall` | windows_svc.go:163-173 | the install action is chosen exactly when the first argument is "install" in any mix of cases |
| `Cli.DispatchUninstall` | windows_svc.go:174-180 | the uninstall action is chosen exactly when the first argument is "uninstall" in any mix of cases |
| `Cli.DispatchUnknown` | windows_svc.go:181-184 | any other first argument is reported, lower-cased, as an unknown action |
| `Cli.DispatchWithoutAction` | windows_svc.go:163-193 | without an action word only the service-manager check decides; with one, the check and the later arguments play no part |
| `Cli.DispatchCaseInsensitive` | windows_svc.go:164 | lower-casing the first argument beforehand does not change the decision |
| `Cli.Launch` | windows_svc.go:150-194 | `main` installs or uninstalls the built-in descriptor exactly as `InstallRun`/`UninstallRun` say, runs `Execute` under the manager, or calls only the start hook; paths that do not pick an action touch neither the manager nor the service channels |

## Left out

- Connecting to the real service manager (`mgr.Connect`, `svc.Run`, `svc.IsWindowsService`) is abstracted. The manager is the `Manager` class. Whether the process runs under the manager is an input.
- Manager failures: a fixed set of refused operations stands for them. One manager never refuses an operation once and then allows it later.
- `os.Executable` and `filepath.Abs` are folded into one input. It is the resolved path, or none.
- The settle delay after a forced uninstall (line 90) and the grace delay after Stop (line 142) are no-ops. The model has no time. It does not capture the manager deleting a service asynchronously: `Delete` removes the registration at once.
- The start hook runs concurrently in the source (`go w.StartApp()`). Here it is one event, logged between StartPending and Running. The model cannot say that Running is reported without waiting for the hook.
- The hook bodies (`cmd.Start`, `cmd.Stop`) are not part of this model. They are opaque events.
- Channel blocking: a finite request sequence that runs out stands for `Execute` waiting forever. The trace then has no Stopped.
- `Execute` ignores its receiver and `args`. So the model's `Execute` takes neither, and `svc.Run`'s fresh `&WinService{}` makes no difference.
- A service status carries only state, accept mask, check point and wait hint. The exit-code and process-id fields are always zero here.
- `Registry.Manager.CreateService`: names are matched exactly, but the Windows service manager compares service names ignoring case. With "aatestgoserver" registered, a real CreateService of "AATestGoServer" fails as an existing service; here it succeeds and both names stay registered. Install's duplicate scan (windows_svc.go:84) compares exactly, so on the real manager such a differently-cased duplicate is neither refused nor reinstalled but fails at CreateService (windows_svc.go:104-108). `Installer.InstallSucceeds` and `Installer.InstallResult` hold only for exact matching.
- `Registry.Manager.OpenService`: names are matched exactly as well. An Uninstall of a differently-cased name opens the real service, while the model fails with ServiceDoesNotExist; `Installer.UninstallSucceeds` and `Installer.UninstallAbsent` hold only for exact matching.
- `Registry.Manager.Query` records only the run state of a registration.
- Closing service handles (`tools.Close`), logging (`vlog`) and the context (`gctx`) are left out. They are plumbing with no effect on the decisions.
- `Cli.ToLower`: only ASCII letters are lower-cased. Go's `strings.ToLower` uses Unicode case mapping, so a non-ASCII letter that lower-cases to an ASCII one is not folded here.
- `Cli.Launch`: a failure of `svc.Run` itself is not modelled. Nor are the log messages that report success or failure.
- xhr.js is not part of this model. It is a browser user script, unrelated to the service controller.
