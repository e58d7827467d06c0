/**
 * The vocabulary of the Windows service control protocol that the
 * lifecycle controller speaks: service states, accepted-control bits,
 * control commands and the status record published to the service
 * control manager (the constants of golang.org/x/sys/windows/svc).
 */
module Svc {

  /** Windows' unsigned 32-bit integers (DWORD). */
  newtype u32 = x: int | 0 <= x < 0x1_0000_0000

  /** SERVICE_STOPPED (1) .. SERVICE_PAUSED (7). */
  datatype State =
    | Stopped
    | StartPending
    | StopPending
    | Running
    | ContinuePending
    | PausePending
    | Paused

  /** The SERVICE_ACCEPT_* bits of the `Accepts` mask. */
  type Accepted = bv32
  const AcceptStop: Accepted := 0x1
  const AcceptPauseAndContinue: Accepted := 0x2
  const AcceptShutdown: Accepted := 0x4
  const AcceptParamChange: Accepted := 0x8
  const AcceptNetBindChange: Accepted := 0x10
  const AcceptHardwareProfileChange: Accepted := 0x20
  const AcceptPowerEvent: Accepted := 0x40
  const AcceptSessionChange: Accepted := 0x80
  const AcceptPreShutdown: Accepted := 0x100

  /** A status report; the fields not listed here are always zero in this program. */
  datatype Status = Status(state: State, accepts: Accepted, checkPoint: u32, waitHint: u32)

  /** A status carrying only a state, as `svc.Status{State: s}` builds it. */
  function Bare(s: State): Status
  {
    Status(s, 0, 0, 0)
  }

  /** SERVICE_CONTROL_* codes; any other u32 may also arrive. */
  type Cmd = u32
  const Stop: Cmd := 1
  const Pause: Cmd := 2
  const Continue: Cmd := 3
  const Interrogate: Cmd := 4
  const Shutdown: Cmd := 5
  const ParamChange: Cmd := 6
  const PreShutdown: Cmd := 0xF

  /** An inbound control request together with the status the manager last saw. */
  datatype ChangeRequest = ChangeRequest(cmd: Cmd, currentStatus: Status)
}
