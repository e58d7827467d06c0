/**
 * `WinService.Install` and `WinService.Uninstall`: registering the running
 * executable with the service manager (refusing or replacing a duplicate)
 * and removing the registration (stopping the service first if it runs).
 *
 * Each procedure is an imperative method over a `Registry.Manager`, proved
 * equal to a pure run function (`InstallRun`, `UninstallRun`) that gives the
 * outcome, the registrations afterwards and the manager calls made; the
 * properties of install and uninstall are lemmas about those functions.
 */
module Installer {
  import opened Svc
  import opened Registry

  /** The service descriptor: fixed configuration, read-only after start. */
  datatype WinService = WinService(
    serviceName: string,
    serviceDisplayName: string,
    serviceDescription: string,
    autoStart: bool,
    forceReinstallOnDuplicate: bool)

  /** The start type Install asks for: Automatic when autoStart holds, else Manual. */
  function StartTypeOf(w: WinService): StartType {
    if w.autoStart then Automatic else Manual
  }

  /** The registration Install creates for `w` at `exePath`. */
  function NewEntry(w: WinService, exePath: string): Entry {
    Entry(exePath, w.serviceDisplayName, w.serviceDescription, StartTypeOf(w), Stopped)
  }

  /** The result of one procedure: its error, the registrations afterwards, the calls it made. */
  datatype Run = Run(outcome: Outcome, services: map<string, Entry>, calls: seq<Op>)

  /**
   * Uninstall of `name` against registrations `services` on a manager
   * refusing `faults`. It always starts by connecting and, once connected,
   * ends by disconnecting; success removes exactly `name`, and failure
   * removes no registration.
   */
  function UninstallRun(name: string, services: map<string, Entry>, faults: set<Op>): (r: Run)
    ensures r.calls != [] && r.calls[0] == Op.Connect
    ensures Op.Connect !in faults ==> r.calls[|r.calls| - 1] == Op.Disconnect
    ensures r.outcome.Pass? ==> r.services == services - {name}
    ensures r.outcome.Fail? ==> r.services.Keys == services.Keys
  {
    if Op.Connect in faults then
      Run(Fail(Denied(Op.Connect)), services, [Op.Connect])
    else if Op.OpenService in faults then
      Run(Fail(Denied(Op.OpenService)), services, [Op.Connect, Op.OpenService, Op.Disconnect])
    else if name !in services then
      Run(Fail(ServiceDoesNotExist(name)), services, [Op.Connect, Op.OpenService, Op.Disconnect])
    else if Op.Query in faults then
      Run(Fail(Denied(Op.Query)), services, [Op.Connect, Op.OpenService, Op.Query, Op.Disconnect])
    else
      var running := services[name].state == Running;
      if running && Op.ControlStop in faults then
        Run(Fail(Denied(Op.ControlStop)), services,
            [Op.Connect, Op.OpenService, Op.Query, Op.ControlStop, Op.Disconnect])
      else
        var stopped := if running then services[name := services[name].(state := StopPending)] else services;
        var prefix := [Op.Connect, Op.OpenService, Op.Query] + (if running then [Op.ControlStop] else []);
        if Op.Delete in faults then
          Run(Fail(Denied(Op.Delete)), stopped, prefix + [Op.Delete, Op.Disconnect])
        else
          Run(Pass, stopped - {name}, prefix + [Op.Delete, Op.Disconnect])
  }

  /**
   * Install of `w` against registrations `services` on a manager refusing
   * `faults`; `exe` is the resolved absolute path of the running executable,
   * or None when it cannot be determined. Without a path nothing is
   * attempted; success leaves the name registered at that path; without
   * force no registration is ever deleted.
   */
  function InstallRun(w: WinService, exe: Option<string>, services: map<string, Entry>, faults: set<Op>): (r: Run)
    ensures exe.None? ==> r.outcome == Fail(PathUnavailable) && r.services == services && r.calls == []
    ensures r.outcome.Pass? ==>
              exe.Some? && w.serviceName in r.services && r.services[w.serviceName] == NewEntry(w, exe.value)
    ensures !w.forceReinstallOnDuplicate ==> Op.Delete !in r.calls && r.services.Keys >= services.Keys
  {
    var name := w.serviceName;
    if exe.None? then
      Run(Fail(PathUnavailable), services, [])
    else if Op.Connect in faults then
      Run(Fail(Denied(Op.Connect)), services, [Op.Connect])
    else if Op.ListServices in faults then
      Run(Fail(Denied(Op.ListServices)), services, [Op.Connect, Op.ListServices, Op.Disconnect])
    else if name in services && !w.forceReinstallOnDuplicate then
      Run(Fail(AlreadyInstalled(name)), services, [Op.Connect, Op.ListServices, Op.Disconnect])
    else
      var u := if name in services then UninstallRun(name, services, faults) else Run(Pass, services, []);
      var prefix := [Op.Connect, Op.ListServices] + u.calls;
      if u.outcome.Fail? then
        Run(u.outcome, u.services, prefix + [Op.Disconnect])
      else if Op.CreateService in faults then
        Run(Fail(Denied(Op.CreateService)), u.services, prefix + [Op.CreateService, Op.Disconnect])
      else if name in u.services then
        Run(Fail(ServiceExists(name)), u.services, prefix + [Op.CreateService, Op.Disconnect])
      else
        Run(Pass, u.services[name := NewEntry(w, exe.value)], prefix + [Op.CreateService, Op.Disconnect])
  }

  // ---------------------------------------------------------------------
  // The imperative procedures
  // ---------------------------------------------------------------------

  /** The duplicate scan of Install: walk the listed names until one equals `name`. */
  method FindService(services: seq<string>, name: string) returns (found: bool)
    ensures found <==> name in services
  {
    found := false;
    var i := 0;
    while i < |services| && !found
      invariant 0 <= i <= |services|
      invariant found <==> i > 0 && services[i - 1] == name
      invariant !found ==> name !in services[..i]
      decreases |services| - i
    {
      if services[i] == name {
        found := true;
      }
      i := i + 1;
    }
    assert !found ==> services[..i] == services;
  }

  /** `WinService.Uninstall`; the grace delay after Stop is a no-op here. */
  method Uninstall(w: WinService, m: Manager) returns (err: Outcome)
    modifies m
    ensures var r := UninstallRun(w.serviceName, old(m.services), m.faults);
            err == r.outcome && m.services == r.services && m.calls == old(m.calls) + r.calls
  {
    err := m.Connect();
    if err.Fail? {
      return;
    }
    err := m.OpenService(w.serviceName);
    if err.Fail? {
      m.Disconnect();
      return;
    }
    var status;
    status, err := m.Query(w.serviceName);
    if err.Fail? {
      m.Disconnect();
      return;
    }
    if status.state == Running {
      err := m.ControlStop(w.serviceName);
      if err.Fail? {
        m.Disconnect();
        return;
      }
    }
    err := m.Delete(w.serviceName);
    m.Disconnect();
  }

  /** `WinService.Install`; the settle delay after a forced Uninstall is a no-op here. */
  method Install(w: WinService, exe: Option<string>, m: Manager) returns (err: Outcome)
    modifies m
    ensures var r := InstallRun(w, exe, old(m.services), m.faults);
            err == r.outcome && m.services == r.services && m.calls == old(m.calls) + r.calls
  {
    if exe.None? {
      return Fail(PathUnavailable);
    }
    var exePath := exe.value;
    ghost var before := m.services;
    err := m.Connect();
    if err.Fail? {
      return;
    }
    var names;
    names, err := m.ListServices();
    if err.Fail? {
      m.Disconnect();
      return;
    }
    ghost var listed := m.calls;
    var found := FindService(names, w.serviceName);
    assert found <==> w.serviceName in before;
    if found {
      if w.forceReinstallOnDuplicate {
        err := Uninstall(w, m);
        if err.Fail? {
          m.Disconnect();
          return;
        }
      } else {
        err := Fail(AlreadyInstalled(w.serviceName));
        m.Disconnect();
        return;
      }
    }
    ghost var u := if found then UninstallRun(w.serviceName, before, m.faults) else Run(Pass, before, []);
    assert u.outcome.Pass? && m.services == u.services && m.calls == listed + u.calls;
    var startType := Manual;
    if w.autoStart {
      startType := Automatic;
    }
    err := m.CreateService(w.serviceName, exePath, w.serviceDisplayName, w.serviceDescription, startType);
    m.Disconnect();
  }

  // ---------------------------------------------------------------------
  // Properties of Uninstall
  // ---------------------------------------------------------------------

  /** Uninstall touches no registration but `name`. */
  lemma UninstallFrame(name: string, services: map<string, Entry>, faults: set<Op>, other: string)
    requires other != name
    ensures other in UninstallRun(name, services, faults).services <==> other in services
    ensures other in services ==> UninstallRun(name, services, faults).services[other] == services[other]
  {
  }

  /** Uninstall of an unregistered name fails at OpenService and deletes nothing. */
  lemma UninstallAbsent(name: string, services: map<string, Entry>, faults: set<Op>)
    requires name !in services && Op.Connect !in faults && Op.OpenService !in faults
    ensures UninstallRun(name, services, faults) ==
            Run(Fail(ServiceDoesNotExist(name)), services, [Op.Connect, Op.OpenService, Op.Disconnect])
  {
  }

  /** A running service is sent Stop, and the Stop comes right before Delete. */
  lemma UninstallStopsBeforeDelete(name: string, services: map<string, Entry>, faults: set<Op>)
    requires name in services && services[name].state == Running
    requires Op.Delete in UninstallRun(name, services, faults).calls
    ensures UninstallRun(name, services, faults).calls ==
            [Op.Connect, Op.OpenService, Op.Query, Op.ControlStop, Op.Delete, Op.Disconnect]
  {
  }

  /** A service that is not running is deleted without a Stop control. */
  lemma UninstallIdleNoStop(name: string, services: map<string, Entry>, faults: set<Op>)
    requires name in services && services[name].state != Running
    ensures Op.ControlStop !in UninstallRun(name, services, faults).calls
  {
  }

  /** A refused Stop ends Uninstall at once: no Delete, nothing changed. */
  lemma UninstallFailedStop(name: string, services: map<string, Entry>, faults: set<Op>)
    requires name in services && services[name].state == Running
    requires Op.Connect !in faults && Op.OpenService !in faults && Op.Query !in faults
    requires Op.ControlStop in faults
    ensures UninstallRun(name, services, faults) ==
            Run(Fail(Denied(Op.ControlStop)), services,
                [Op.Connect, Op.OpenService, Op.Query, Op.ControlStop, Op.Disconnect])
  {
  }

  /**
   * Uninstall succeeds exactly when the name is registered and the manager
   * refuses none of the operations on its path; success removes that name only.
   */
  lemma UninstallSucceeds(name: string, services: map<string, Entry>, faults: set<Op>)
    ensures UninstallRun(name, services, faults).outcome.Pass? <==>
            name in services &&
            Op.Connect !in faults && Op.OpenService !in faults && Op.Query !in faults && Op.Delete !in faults &&
            (services[name].state == Running ==> Op.ControlStop !in faults)
    ensures UninstallRun(name, services, faults).outcome.Pass? ==>
            UninstallRun(name, services, faults).services == services - {name}
  {
  }

  /** A failed Uninstall leaves the name registered. */
  lemma UninstallFailureKeepsEntry(name: string, services: map<string, Entry>, faults: set<Op>)
    requires name in services && UninstallRun(name, services, faults).outcome.Fail?
    ensures name in UninstallRun(name, services, faults).services
    ensures UninstallRun(name, services, faults).services[name] ==
            services[name].(state := UninstallRun(name, services, faults).services[name].state)
  {
  }

  // ---------------------------------------------------------------------
  // Properties of Install
  // ---------------------------------------------------------------------

  /** An unresolvable path, an unreachable manager or a refused listing fail before any change. */
  lemma InstallEarlyFailure(w: WinService, exe: Option<string>, services: map<string, Entry>, faults: set<Op>)
    requires exe.None? || Op.Connect in faults || Op.ListServices in faults
    ensures InstallRun(w, exe, services, faults).outcome.Fail?
    ensures InstallRun(w, exe, services, faults).services == services
    ensures Op.CreateService !in InstallRun(w, exe, services, faults).calls
    ensures Op.Delete !in InstallRun(w, exe, services, faults).calls
  {
  }

  /** A duplicate without force is refused as already installed, with no change and no CreateService. */
  lemma InstallDuplicateRefused(w: WinService, exePath: string, services: map<string, Entry>, faults: set<Op>)
    requires w.serviceName in services && !w.forceReinstallOnDuplicate
    requires Op.Connect !in faults && Op.ListServices !in faults
    ensures InstallRun(w, Some(exePath), services, faults) ==
            Run(Fail(AlreadyInstalled(w.serviceName)), services, [Op.Connect, Op.ListServices, Op.Disconnect])
  {
  }

  /** A forced reinstall whose Uninstall fails returns that error and creates nothing. */
  lemma InstallReinstallFails(w: WinService, exePath: string, services: map<string, Entry>, faults: set<Op>)
    requires w.serviceName in services && w.forceReinstallOnDuplicate
    requires Op.Connect !in faults && Op.ListServices !in faults
    requires UninstallRun(w.serviceName, services, faults).outcome.Fail?
    ensures InstallRun(w, Some(exePath), services, faults).outcome == UninstallRun(w.serviceName, services, faults).outcome
    ensures InstallRun(w, Some(exePath), services, faults).services == UninstallRun(w.serviceName, services, faults).services
    ensures Op.CreateService !in InstallRun(w, Some(exePath), services, faults).calls
  {
  }

  /**
   * A successful Install leaves exactly one registration for the name, at the
   * resolved path, Automatic exactly when autoStart holds and Manual otherwise,
   * with every other registration as it was.
   */
  lemma InstallResult(w: WinService, exe: Option<string>, services: map<string, Entry>, faults: set<Op>)
    requires InstallRun(w, exe, services, faults).outcome.Pass?
    ensures exe.Some?
    ensures InstallRun(w, exe, services, faults).services == services[w.serviceName := NewEntry(w, exe.value)]
    ensures InstallRun(w, exe, services, faults).services[w.serviceName].exePath == exe.value
    ensures InstallRun(w, exe, services, faults).services[w.serviceName].startType == Automatic <==> w.autoStart
    ensures InstallRun(w, exe, services, faults).services[w.serviceName].startType == Manual <==> !w.autoStart
  {
    var name := w.serviceName;
    if name in services {
      assert (services - {name})[name := NewEntry(w, exe.value)] == services[name := NewEntry(w, exe.value)];
    }
  }

  /**
   * Install succeeds exactly when the path resolves, the manager refuses none
   * of Connect, ListServices and CreateService, and a duplicate is forced
   * and its Uninstall succeeds.
   */
  lemma InstallSucceeds(w: WinService, exe: Option<string>, services: map<string, Entry>, faults: set<Op>)
    ensures InstallRun(w, exe, services, faults).outcome.Pass? <==>
            exe.Some? &&
            Op.Connect !in faults && Op.ListServices !in faults && Op.CreateService !in faults &&
            (w.serviceName in services ==>
               w.forceReinstallOnDuplicate && UninstallRun(w.serviceName, services, faults).outcome.Pass?)
  {
    if w.serviceName in services {
      UninstallSucceeds(w.serviceName, services, faults);
    }
  }

  /** Install touches no registration but its own name. */
  lemma InstallFrame(w: WinService, exe: Option<string>, services: map<string, Entry>, faults: set<Op>, other: string)
    requires other != w.serviceName
    ensures other in InstallRun(w, exe, services, faults).services <==> other in services
    ensures other in services ==> InstallRun(w, exe, services, faults).services[other] == services[other]
  {
    if w.serviceName in services {
      UninstallFrame(w.serviceName, services, faults, other);
    }
  }

  /** Uninstall closes the connection it opens, as its last call, on every path. */
  lemma UninstallReleases(name: string, services: map<string, Entry>, faults: set<Op>)
    requires Op.Connect !in faults
    ensures var c := UninstallRun(name, services, faults).calls;
            |c| > 0 && c[|c| - 1] == Op.Disconnect && multiset(c)[Op.Connect] == 1 && multiset(c)[Op.Disconnect] == 1
  {
    var c := UninstallRun(name, services, faults).calls;
    if Op.OpenService in faults || name !in services || Op.Query in faults {
    } else {
      var running := services[name].state == Running;
      var prefix := [Op.Connect, Op.OpenService, Op.Query] + (if running then [Op.ControlStop] else []);
      assert multiset(prefix)[Op.Connect] == 1 && multiset(prefix)[Op.Disconnect] == 0;
      if !(running && Op.ControlStop in faults) {
        assert c == prefix + [Op.Delete, Op.Disconnect];
      }
    }
  }

  /** Install closes the connection it opens, as its last call, on every path that connects. */
  lemma InstallReleases(w: WinService, exe: Option<string>, services: map<string, Entry>, faults: set<Op>)
    requires exe.Some? && Op.Connect !in faults
    ensures var c := InstallRun(w, exe, services, faults).calls;
            |c| > 0 && c[|c| - 1] == Op.Disconnect && multiset(c)[Op.Connect] == multiset(c)[Op.Disconnect]
  {
    if Op.ListServices !in faults && w.serviceName in services && w.forceReinstallOnDuplicate {
      ReinstallReleases(w, exe, services, faults);
    } else {
      DirectReleases(w, exe, services, faults);
    }
  }

  /** Without a nested Uninstall, Install's one session is Connect ... Disconnect. */
  lemma DirectReleases(w: WinService, exe: Option<string>, services: map<string, Entry>, faults: set<Op>)
    requires exe.Some? && Op.Connect !in faults
    requires !(Op.ListServices !in faults && w.serviceName in services && w.forceReinstallOnDuplicate)
    ensures var c := InstallRun(w, exe, services, faults).calls;
            c == [Op.Connect, Op.ListServices, Op.Disconnect] ||
            c == [Op.Connect, Op.ListServices, Op.CreateService, Op.Disconnect]
  {
  }

  /** A forced reinstall nests Uninstall's balanced session inside its own. */
  lemma ReinstallReleases(w: WinService, exe: Option<string>, services: map<string, Entry>, faults: set<Op>)
    requires exe.Some? && Op.Connect !in faults && Op.ListServices !in faults
    requires w.serviceName in services && w.forceReinstallOnDuplicate
    ensures var c := InstallRun(w, exe, services, faults).calls;
            |c| > 0 && c[|c| - 1] == Op.Disconnect && multiset(c)[Op.Connect] == multiset(c)[Op.Disconnect]
  {
    var u := UninstallRun(w.serviceName, services, faults);
    ReinstallCalls(w, exe, services, faults);
    UninstallReleases(w.serviceName, services, faults);
    BalancedCalls(u.calls, if u.outcome.Fail? then [Op.Disconnect] else [Op.CreateService, Op.Disconnect]);
  }

  /** The calls of a forced reinstall: the listing, the whole nested Uninstall, then CreateService unless it failed. */
  lemma ReinstallCalls(w: WinService, exe: Option<string>, services: map<string, Entry>, faults: set<Op>)
    requires exe.Some? && Op.Connect !in faults && Op.ListServices !in faults
    requires w.serviceName in services && w.forceReinstallOnDuplicate
    ensures var u := UninstallRun(w.serviceName, services, faults);
            InstallRun(w, exe, services, faults).calls ==
            [Op.Connect, Op.ListServices] + u.calls +
            (if u.outcome.Fail? then [Op.Disconnect] else [Op.CreateService, Op.Disconnect])
  {
  }

  /** Wrapping balanced calls in a Connect ... Disconnect session keeps them balanced. */
  lemma BalancedCalls(inner: seq<Op>, tail: seq<Op>)
    requires multiset(inner)[Op.Connect] == multiset(inner)[Op.Disconnect]
    requires tail == [Op.Disconnect] || tail == [Op.CreateService, Op.Disconnect]
    ensures var c := [Op.Connect, Op.ListServices] + inner + tail;
            c[|c| - 1] == Op.Disconnect && multiset(c)[Op.Connect] == multiset(c)[Op.Disconnect]
  {
    assert multiset([Op.Connect, Op.ListServices] + inner + tail) ==
           multiset([Op.Connect, Op.ListServices]) + multiset(inner) + multiset(tail);
  }

  /** Install followed by Uninstall removes the name and leaves every other registration as it was. */
  lemma InstallThenUninstall(w: WinService, exe: Option<string>, services: map<string, Entry>, faults: set<Op>)
    requires InstallRun(w, exe, services, faults).outcome.Pass?
    requires Op.OpenService !in faults && Op.Query !in faults && Op.Delete !in faults
    ensures UninstallRun(w.serviceName, InstallRun(w, exe, services, faults).services, faults) ==
            Run(Pass, services - {w.serviceName}, [Op.Connect, Op.OpenService, Op.Query, Op.Delete, Op.Disconnect])
  {
    InstallResult(w, exe, services, faults);
    var name := w.serviceName;
    assert services[name := NewEntry(w, exe.value)] - {name} == services - {name};
  }
}
