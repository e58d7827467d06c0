/**
 * An abstract Windows service control manager: the registrations it
 * persists, the operations the controller calls on it (those of
 * golang.org/x/sys/windows/svc/mgr), and the calls made so far.
 *
 * Which operations the manager refuses (no rights, manager unreachable,
 * the service in a state the operation does not allow) is a fixed set
 * `faults`, given when the manager is built; apart from that every
 * operation is decided by the registrations themselves.
 */
module Registry {
  import opened Svc

  datatype Option<T> = None | Some(value: T)

  /** mgr.StartAutomatic (SERVICE_AUTO_START), mgr.StartManual (SERVICE_DEMAND_START), mgr.StartDisabled. */
  datatype StartType = Automatic | Manual | Disabled

  /** One persisted registration: its binary, its metadata and the state the manager reports for it. */
  datatype Entry = Entry(exePath: string, displayName: string, description: string, startType: StartType, state: State)

  /** The manager operations, also used as the call log's entries. */
  datatype Op = Connect | ListServices | CreateService | OpenService | Query | ControlStop | Delete | Disconnect

  datatype Error =
    | PathUnavailable                  // os.Executable or filepath.Abs failed
    | AlreadyInstalled(name: string)   // "service %s is already installed"
    | ServiceExists(name: string)      // CreateService on a registered name
    | ServiceDoesNotExist(name: string) // OpenService on an unregistered name
    | NotActive(name: string)          // a Stop control sent to a service that is not running
    | Denied(op: Op)                   // the manager refused the operation

  /** A Go `error` result: nil or an error. */
  datatype Outcome = Pass | Fail(error: Error)

  class Manager {
    /** The registrations, by service name, matched exactly (the real manager ignores case). */
    var services: map<string, Entry>
    /** The operations this manager refuses. */
    const faults: set<Op>
    /** Every operation attempted against the manager, in order. */
    var calls: seq<Op>

    constructor (installed: map<string, Entry>, refused: set<Op>)
      ensures services == installed && faults == refused && calls == []
    {
      services := installed;
      faults := refused;
      calls := [];
    }

    /** `mgr.Connect()`. */
    method Connect() returns (o: Outcome)
      modifies this`calls
      ensures calls == old(calls) + [Op.Connect]
      ensures o == if Op.Connect in faults then Fail(Denied(Op.Connect)) else Pass
    {
      calls := calls + [Op.Connect];
      o := if Op.Connect in faults then Fail(Denied(Op.Connect)) else Pass;
    }

    /** `m.Disconnect()`; its error is discarded by every caller. */
    method Disconnect()
      modifies this`calls
      ensures calls == old(calls) + [Op.Disconnect]
    {
      calls := calls + [Op.Disconnect];
    }

    /** `m.ListServices()`: every registered name, each once, in no particular order. */
    method ListServices() returns (names: seq<string>, o: Outcome)
      modifies this`calls
      ensures calls == old(calls) + [Op.ListServices]
      ensures o == if Op.ListServices in faults then Fail(Denied(Op.ListServices)) else Pass
      ensures o.Pass? ==> forall n :: n in names <==> n in services
      ensures o.Pass? ==> |names| == |services|
    {
      calls := calls + [Op.ListServices];
      names := [];
      if Op.ListServices in faults {
        return [], Fail(Denied(Op.ListServices));
      }
      var rest := services.Keys;
      while rest != {}
        invariant rest <= services.Keys
        invariant forall n :: n in names <==> n in services.Keys - rest
        invariant |names| + |rest| == |services.Keys|
        decreases rest
      {
        var n :| n in rest;
        names := names + [n];
        rest := rest - {n};
      }
      o := Pass;
    }

    /** `m.CreateService(name, exePath, mgr.Config{...})`: a new registration, initially stopped. */
    method CreateService(name: string, exePath: string, displayName: string, description: string, startType: StartType)
      returns (o: Outcome)
      modifies this
      ensures calls == old(calls) + [Op.CreateService]
      ensures o == if Op.CreateService in faults then Fail(Denied(Op.CreateService))
                   else if name in old(services) then Fail(ServiceExists(name))
                   else Pass
      ensures services == if o.Pass? then old(services)[name := Entry(exePath, displayName, description, startType, Stopped)]
                          else old(services)
    {
      calls := calls + [Op.CreateService];
      if Op.CreateService in faults {
        o := Fail(Denied(Op.CreateService));
      } else if name in services {
        o := Fail(ServiceExists(name));
      } else {
        services := services[name := Entry(exePath, displayName, description, startType, Stopped)];
        o := Pass;
      }
    }

    /** `m.OpenService(name)`. */
    method OpenService(name: string) returns (o: Outcome)
      modifies this`calls
      ensures calls == old(calls) + [Op.OpenService]
      ensures o == if Op.OpenService in faults then Fail(Denied(Op.OpenService))
                   else if name !in services then Fail(ServiceDoesNotExist(name))
                   else Pass
    {
      calls := calls + [Op.OpenService];
      o := if Op.OpenService in faults then Fail(Denied(Op.OpenService))
           else if name !in services then Fail(ServiceDoesNotExist(name))
           else Pass;
    }

    /** `s.Query()` on an opened service: its current state (other status fields are not recorded). */
    method Query(name: string) returns (status: Status, o: Outcome)
      requires name in services
      modifies this`calls
      ensures calls == old(calls) + [Op.Query]
      ensures o == if Op.Query in faults then Fail(Denied(Op.Query)) else Pass
      ensures o.Pass? ==> status == Bare(services[name].state)
    {
      calls := calls + [Op.Query];
      if Op.Query in faults {
        return Bare(Stopped), Fail(Denied(Op.Query));
      }
      return Bare(services[name].state), Pass;
    }

    /** `s.Control(svc.Stop)` on an opened service: a running service moves to StopPending. */
    method ControlStop(name: string) returns (o: Outcome)
      requires name in services
      modifies this
      ensures calls == old(calls) + [Op.ControlStop]
      ensures o == if Op.ControlStop in faults then Fail(Denied(Op.ControlStop))
                   else if old(services)[name].state != Running then Fail(NotActive(name))
                   else Pass
      ensures services == if o.Pass? then old(services)[name := old(services)[name].(state := StopPending)]
                          else old(services)
    {
      calls := calls + [Op.ControlStop];
      if Op.ControlStop in faults {
        o := Fail(Denied(Op.ControlStop));
      } else if services[name].state != Running {
        o := Fail(NotActive(name));
      } else {
        services := services[name := services[name].(state := StopPending)];
        o := Pass;
      }
    }

    /** `s.Delete()` on an opened service: the registration is removed. */
    method Delete(name: string) returns (o: Outcome)
      requires name in services
      modifies this
      ensures calls == old(calls) + [Op.Delete]
      ensures o == if Op.Delete in faults then Fail(Denied(Op.Delete)) else Pass
      ensures services == if o.Pass? then old(services) - {name} else old(services)
    {
      calls := calls + [Op.Delete];
      if Op.Delete in faults {
        o := Fail(Denied(Op.Delete));
      } else {
        services := services - {name};
        o := Pass;
      }
    }
  }
}
