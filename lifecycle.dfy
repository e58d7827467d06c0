/**
 * The control loop of `WinService.Execute`: it reports StartPending, fires
 * the application's start hook, reports Running, and then answers control
 * requests in arrival order until a Stop or Shutdown request ends it.
 *
 * The two channels of the Go signature become the two fields of a
 * `ServiceControl` object: the requests still queued on `r`, and a log of
 * everything observable, in order (status reports pushed on `changes`
 * interleaved with the start and stop hook calls).
 */
module Lifecycle {
  import opened Svc

  /** One observable step: a status published on `changes`, or a hook call. */
  datatype Event = Report(status: Status) | StartHook | StopHook

  /** The controls the service accepts once Running: `svc.AcceptStop | svc.AcceptShutdown`. */
  const CmdAccepted: Accepted := AcceptStop | AcceptShutdown

  /** The two commands that end the loop. */
  predicate Terminal(c: Cmd) {
    c == Stop || c == Shutdown
  }

  /** What `Execute` does before it first waits for a request. */
  function Opening(): seq<Event> {
    [Report(Bare(StartPending)), StartHook, Report(Status(Running, CmdAccepted, 0, 0))]
  }

  /** What the Stop/Shutdown arm does before it breaks out of the loop. */
  function Closing(): seq<Event> {
    [Report(Bare(StopPending)), StopHook, Report(Bare(Stopped))]
  }

  /**
   * The events the `for`/`select` loop produces while it consumes `reqs`:
   * the start hook never runs again, and the stop hook runs only when the
   * last request taken off the channel was a Stop or Shutdown.
   */
  function ControlLoop(reqs: seq<ChangeRequest>): (es: seq<Event>)
    ensures StartHook !in es
    ensures StopHook in es ==> Received(reqs) > 0 && Terminal(reqs[Received(reqs) - 1].cmd)
    decreases |reqs|
  {
    if reqs == [] then []
    else if reqs[0].cmd == Interrogate then [Report(reqs[0].currentStatus)] + ControlLoop(reqs[1..])
    else if Terminal(reqs[0].cmd) then Closing()
    else ControlLoop(reqs[1..])
  }

  /** How many requests the loop takes off the channel: up to and including the first Stop/Shutdown. */
  function Received(reqs: seq<ChangeRequest>): (n: nat)
    ensures n <= |reqs|
    ensures n < |reqs| ==> 0 < n && Terminal(reqs[n - 1].cmd)
    decreases |reqs|
  {
    if reqs == [] then 0
    else if Terminal(reqs[0].cmd) then 1
    else 1 + Received(reqs[1..])
  }

  /**
   * The whole observable trace of one activation of `Execute` on the request
   * stream `reqs`: StartPending, the start hook (there and nowhere else), and
   * Running accepting Stop and Shutdown, before any request is answered.
   */
  function ExecTrace(reqs: seq<ChangeRequest>): (tr: seq<Event>)
    ensures |tr| >= 3 && tr[0] == Report(Bare(StartPending)) && tr[2] == Report(Status(Running, CmdAccepted, 0, 0))
    ensures forall k :: 0 <= k < |tr| ==> (tr[k] == StartHook <==> k == 1)
  {
    Opening() + ControlLoop(reqs)
  }

  // ---------------------------------------------------------------------
  // Reference definitions, stated independently of the loop
  // ---------------------------------------------------------------------

  /** Index of the first Stop or Shutdown request, or |reqs| when there is none. */
  function FirstTerminal(reqs: seq<ChangeRequest>): (t: nat)
    ensures t <= |reqs|
    ensures t < |reqs| ==> Terminal(reqs[t].cmd)
    ensures forall j :: 0 <= j < t ==> !Terminal(reqs[j].cmd)
    decreases |reqs|
  {
    if reqs == [] || Terminal(reqs[0].cmd) then 0 else 1 + FirstTerminal(reqs[1..])
  }

  /** The Interrogate requests of `reqs`, each answered by its own CurrentStatus. */
  function Echoes(reqs: seq<ChangeRequest>): (es: seq<Event>)
    ensures forall k :: 0 <= k < |es| ==> es[k].Report?
    ensures |es| <= |reqs|
    decreases |reqs|
  {
    if reqs == [] then []
    else if reqs[0].cmd == Interrogate then [Report(reqs[0].currentStatus)] + Echoes(reqs[1..])
    else Echoes(reqs[1..])
  }

  /** The statuses of a trace, as the manager reads them off `changes`. */
  function Statuses(tr: seq<Event>): (ss: seq<Status>)
    ensures |ss| <= |tr|
    decreases |tr|
  {
    if tr == [] then []
    else if tr[0].Report? then [tr[0].status] + Statuses(tr[1..])
    else Statuses(tr[1..])
  }

  /** The four states `Execute` goes through; it never reports the pause states. */
  predicate LifecycleState(s: State) {
    s == StartPending || s == Running || s == StopPending || s == Stopped
  }

  /** Position of a lifecycle state in StartPending, Running, StopPending, Stopped. */
  function Rank(s: State): nat
    requires LifecycleState(s)
  {
    match s
    case StartPending => 0
    case Running => 1
    case StopPending => 2
    case Stopped => 3
  }

  /** Only lifecycle states are reported, and they never go back along StartPending, Running, StopPending, Stopped. */
  ghost predicate ForwardOnly(ss: seq<Status>) {
    (forall i :: 0 <= i < |ss| ==> LifecycleState(ss[i].state)) &&
    forall i, j :: 0 <= i < j < |ss| ==> Rank(ss[i].state) <= Rank(ss[j].state)
  }

  /** Every Interrogate carries the Running status last reported, as the manager supplies it. */
  ghost predicate EchoesRunning(reqs: seq<ChangeRequest>) {
    forall i :: 0 <= i < |reqs| && reqs[i].cmd == Interrogate ==> reqs[i].currentStatus.state == Running
  }

  // ---------------------------------------------------------------------
  // Properties of the control loop
  // ---------------------------------------------------------------------

  /** The trace starts with StartPending, the start hook, then Running accepting exactly Stop and Shutdown. */
  lemma OpeningSequence(reqs: seq<ChangeRequest>)
    ensures |ExecTrace(reqs)| >= 3
    ensures ExecTrace(reqs)[0] == Report(Bare(StartPending))
    ensures ExecTrace(reqs)[1] == StartHook
    ensures ExecTrace(reqs)[2] == Report(Status(Running, CmdAccepted, 0, 0))
    ensures CmdAccepted == 0x5
    ensures CmdAccepted & AcceptPauseAndContinue == 0 && CmdAccepted & AcceptPreShutdown == 0
  {
  }

  /** An Interrogate request re-emits its own CurrentStatus unchanged, calls no hook, and the loop goes on. */
  lemma InterrogateEchoes(cs: Status, rest: seq<ChangeRequest>)
    ensures ControlLoop([ChangeRequest(Interrogate, cs)] + rest) == [Report(cs)] + ControlLoop(rest)
    ensures Received([ChangeRequest(Interrogate, cs)] + rest) == 1 + Received(rest)
  {
    assert ([ChangeRequest(Interrogate, cs)] + rest)[1..] == rest;
  }

  /** A command other than Interrogate, Stop and Shutdown emits nothing and is otherwise ignored. */
  lemma OtherCommandIgnored(c: ChangeRequest, rest: seq<ChangeRequest>)
    requires c.cmd != Interrogate && !Terminal(c.cmd)
    ensures ControlLoop([c] + rest) == ControlLoop(rest)
    ensures Received([c] + rest) == 1 + Received(rest)
  {
    assert ([c] + rest)[1..] == rest;
  }

  /**
   * The loop answers every Interrogate before the first Stop/Shutdown and,
   * if there is one, ends with StopPending, the stop hook and Stopped; it
   * takes nothing off the channel after that request.
   */
  lemma {:induction false} LoopShape(reqs: seq<ChangeRequest>)
    ensures ControlLoop(reqs) ==
            Echoes(reqs[..FirstTerminal(reqs)]) + (if FirstTerminal(reqs) < |reqs| then Closing() else [])
    ensures Received(reqs) == if FirstTerminal(reqs) < |reqs| then FirstTerminal(reqs) + 1 else |reqs|
    decreases |reqs|
  {
    if reqs == [] {
    } else if Terminal(reqs[0].cmd) {
      assert reqs[..0] == [];
    } else {
      LoopShape(reqs[1..]);
      assert reqs[..FirstTerminal(reqs)] == [reqs[0]] + reqs[1..][..FirstTerminal(reqs[1..])];
      assert ([reqs[0]] + reqs[1..][..FirstTerminal(reqs[1..])])[1..] == reqs[1..][..FirstTerminal(reqs[1..])];
    }
  }

  /** The whole trace: the opening, the echoed Interrogates, and the closing if a Stop/Shutdown arrived. */
  lemma TraceShape(reqs: seq<ChangeRequest>)
    ensures ExecTrace(reqs) ==
            Opening() + Echoes(reqs[..FirstTerminal(reqs)]) + (if FirstTerminal(reqs) < |reqs| then Closing() else [])
  {
    LoopShape(reqs);
  }

  /** Shutdown produces exactly the transitions Stop produces, whatever surrounds it. */
  lemma {:induction false} ShutdownLikeStop(p: seq<ChangeRequest>, cs1: Status, cs2: Status,
                                             q1: seq<ChangeRequest>, q2: seq<ChangeRequest>)
    ensures ControlLoop(p + [ChangeRequest(Stop, cs1)] + q1) == ControlLoop(p + [ChangeRequest(Shutdown, cs2)] + q2)
    ensures Received(p + [ChangeRequest(Stop, cs1)] + q1) == Received(p + [ChangeRequest(Shutdown, cs2)] + q2)
    decreases |p|
  {
    var a := p + [ChangeRequest(Stop, cs1)] + q1;
    var b := p + [ChangeRequest(Shutdown, cs2)] + q2;
    if p == [] {
      assert a[0].cmd == Stop && b[0].cmd == Shutdown;
    } else {
      ShutdownLikeStop(p[1..], cs1, cs2, q1, q2);
      assert a[0] == b[0] == p[0];
      assert a[1..] == p[1..] + [ChangeRequest(Stop, cs1)] + q1;
      assert b[1..] == p[1..] + [ChangeRequest(Shutdown, cs2)] + q2;
    }
  }

  /** The start hook runs exactly once; the stop hook exactly once if a Stop/Shutdown arrives, else never. */
  lemma HookCounts(reqs: seq<ChangeRequest>)
    ensures multiset(ExecTrace(reqs))[StartHook] == 1
    ensures multiset(ExecTrace(reqs))[StopHook] == if FirstTerminal(reqs) < |reqs| then 1 else 0
  {
    TraceShape(reqs);
    HookCountsOfParts(Echoes(reqs[..FirstTerminal(reqs)]), FirstTerminal(reqs) < |reqs|);
  }

  lemma HookCountsOfParts(es: seq<Event>, closed: bool)
    requires forall k :: 0 <= k < |es| ==> es[k].Report?
    ensures multiset(Opening() + es + (if closed then Closing() else []))[StartHook] == 1
    ensures multiset(Opening() + es + (if closed then Closing() else []))[StopHook] == if closed then 1 else 0
  {
    assert StartHook !in es && StopHook !in es;
    assert multiset(es)[StartHook] == 0 && multiset(es)[StopHook] == 0;
  }

  /** The stop hook is called right after StopPending is reported and right before Stopped, as the last step. */
  lemma StopHookBetween(reqs: seq<ChangeRequest>, k: nat)
    requires k < |ExecTrace(reqs)| && ExecTrace(reqs)[k] == StopHook
    ensures 3 < k && k + 2 == |ExecTrace(reqs)|
    ensures ExecTrace(reqs)[k - 1] == Report(Bare(StopPending))
    ensures ExecTrace(reqs)[k + 1] == Report(Bare(Stopped))
  {
    TraceShape(reqs);
    var head := Opening() + Echoes(reqs[..FirstTerminal(reqs)]);
    var tail := if FirstTerminal(reqs) < |reqs| then Closing() else [];
    assert ExecTrace(reqs) == head + tail;
    assert forall i :: 0 <= i < |head| ==> head[i] != StopHook;
  }

  lemma StatusesCons(e: Event, rest: seq<Event>)
    ensures Statuses([e] + rest) == (if e.Report? then [e.status] else []) + Statuses(rest)
  {
    assert ([e] + rest)[1..] == rest;
  }

  /** The Stop request of [Interrogate, Interrogate, Stop] is its first terminal one; two echoes precede it. */
  lemma ExampleShape(cs1: Status, cs2: Status, cs3: Status)
    ensures FirstTerminal([ChangeRequest(Interrogate, cs1), ChangeRequest(Interrogate, cs2), ChangeRequest(Stop, cs3)]) == 2
    ensures Echoes([ChangeRequest(Interrogate, cs1), ChangeRequest(Interrogate, cs2), ChangeRequest(Stop, cs3)][..2]) ==
            [Report(cs1), Report(cs2)]
  {
    var reqs := [ChangeRequest(Interrogate, cs1), ChangeRequest(Interrogate, cs2), ChangeRequest(Stop, cs3)];
    assert reqs[1..] == [ChangeRequest(Interrogate, cs2), ChangeRequest(Stop, cs3)];
    assert reqs[1..][1..] == [ChangeRequest(Stop, cs3)];
    assert FirstTerminal(reqs[1..][1..]) == 0;
    assert FirstTerminal(reqs[1..]) == 1;
    var p := reqs[..2];
    assert p == [ChangeRequest(Interrogate, cs1), ChangeRequest(Interrogate, cs2)];
    assert p[1..] == [ChangeRequest(Interrogate, cs2)];
    assert p[1..][1..] == [];
  }

  /** The input [Interrogate, Interrogate, Stop] yields exactly this trace. */
  lemma ExampleTrace(cs1: Status, cs2: Status, cs3: Status)
    ensures ExecTrace([ChangeRequest(Interrogate, cs1), ChangeRequest(Interrogate, cs2), ChangeRequest(Stop, cs3)]) ==
            [Report(Bare(StartPending)), StartHook, Report(Status(Running, CmdAccepted, 0, 0)),
             Report(cs1), Report(cs2), Report(Bare(StopPending)), StopHook, Report(Bare(Stopped))]
  {
    ExampleShape(cs1, cs2, cs3);
    TraceShape([ChangeRequest(Interrogate, cs1), ChangeRequest(Interrogate, cs2), ChangeRequest(Stop, cs3)]);
  }

  /** ... and the manager reads exactly these statuses off `changes`. */
  lemma ExampleStatuses(cs1: Status, cs2: Status, cs3: Status)
    ensures Statuses(ExecTrace([ChangeRequest(Interrogate, cs1), ChangeRequest(Interrogate, cs2), ChangeRequest(Stop, cs3)])) ==
            [Bare(StartPending), Status(Running, CmdAccepted, 0, 0), cs1, cs2, Bare(StopPending), Bare(Stopped)]
  {
    ExampleShape(cs1, cs2, cs3);
    StatusesOfTrace([ChangeRequest(Interrogate, cs1), ChangeRequest(Interrogate, cs2), ChangeRequest(Stop, cs3)]);
    StatusesCons(Report(cs1), [Report(cs2)]);
    StatusesCons(Report(cs2), []);
  }

  lemma {:induction false} StatusesAppend(a: seq<Event>, b: seq<Event>)
    ensures Statuses(a + b) == Statuses(a) + Statuses(b)
    decreases |a|
  {
    if a == [] {
      assert a + b == b;
    } else {
      StatusesAppend(a[1..], b);
      assert (a + b)[1..] == a[1..] + b;
    }
  }

  lemma {:induction false} EchoStatusesRunning(reqs: seq<ChangeRequest>)
    requires EchoesRunning(reqs)
    ensures forall k :: 0 <= k < |Statuses(Echoes(reqs))| ==> Statuses(Echoes(reqs))[k].state == Running
    decreases |reqs|
  {
    if reqs != [] {
      EchoStatusesRunning(reqs[1..]);
    }
  }

  lemma ForwardOnlyParts(se: seq<Status>, st: seq<Status>)
    requires forall k :: 0 <= k < |se| ==> se[k].state == Running
    requires st == [] || st == [Bare(StopPending), Bare(Stopped)]
    ensures ForwardOnly([Bare(StartPending), Status(Running, CmdAccepted, 0, 0)] + se + st)
  {
    var ss := [Bare(StartPending), Status(Running, CmdAccepted, 0, 0)] + se + st;
    var n := 2 + |se|;
    assert forall i :: 0 <= i < |ss| ==>
      LifecycleState(ss[i].state) && Rank(ss[i].state) == if i == 0 then 0 else if i < n then 1 else if i == n then 2 else 3;
  }

  /** The statuses of a trace: StartPending, Running, the echoes, then StopPending and Stopped if the loop ended. */
  lemma StatusesOfTrace(reqs: seq<ChangeRequest>)
    ensures Statuses(ExecTrace(reqs)) ==
            [Bare(StartPending), Status(Running, CmdAccepted, 0, 0)] + Statuses(Echoes(reqs[..FirstTerminal(reqs)])) +
            (if FirstTerminal(reqs) < |reqs| then [Bare(StopPending), Bare(Stopped)] else [])
  {
    TraceShape(reqs);
    StatusesOfParts(Echoes(reqs[..FirstTerminal(reqs)]), FirstTerminal(reqs) < |reqs|);
  }

  lemma StatusesOfParts(es: seq<Event>, closed: bool)
    ensures Statuses(Opening() + es + (if closed then Closing() else [])) ==
            [Bare(StartPending), Status(Running, CmdAccepted, 0, 0)] + Statuses(es) +
            (if closed then [Bare(StopPending), Bare(Stopped)] else [])
  {
    OpeningClosingStatuses();
    StatusesAppend(Opening(), es);
    StatusesAppend(Opening() + es, if closed then Closing() else []);
  }

  lemma OpeningClosingStatuses()
    ensures Statuses(Opening()) == [Bare(StartPending), Status(Running, CmdAccepted, 0, 0)]
    ensures Statuses(Closing()) == [Bare(StopPending), Bare(Stopped)]
    ensures Statuses([]) == []
  {
    StatusesCons(Report(Bare(StartPending)), [StartHook, Report(Status(Running, CmdAccepted, 0, 0))]);
    StatusesCons(StartHook, [Report(Status(Running, CmdAccepted, 0, 0))]);
    StatusesCons(Report(Status(Running, CmdAccepted, 0, 0)), []);
    StatusesCons(Report(Bare(StopPending)), [StopHook, Report(Bare(Stopped))]);
    StatusesCons(StopHook, [Report(Bare(Stopped))]);
    StatusesCons(Report(Bare(Stopped)), []);
  }

  /**
   * When every Interrogate carries the Running status (what the manager
   * hands back after the service reported Running), the reported states
   * only move forward along StartPending, Running, StopPending, Stopped.
   */
  lemma ForwardTransitions(reqs: seq<ChangeRequest>)
    requires EchoesRunning(reqs)
    ensures ForwardOnly(Statuses(ExecTrace(reqs)))
  {
    var t := FirstTerminal(reqs);
    StatusesOfTrace(reqs);
    assert EchoesRunning(reqs[..t]);
    EchoStatusesRunning(reqs[..t]);
    ForwardOnlyParts(Statuses(Echoes(reqs[..t])), if t < |reqs| then [Bare(StopPending), Bare(Stopped)] else []);
  }

  // ---------------------------------------------------------------------
  // The imperative control loop
  // ---------------------------------------------------------------------

  /** The two channels of one service activation, as seen from the service. */
  class ServiceControl {
    /** Requests queued on the request channel, oldest first. */
    var requests: seq<ChangeRequest>
    /** Everything observable so far: reports on `changes` and hook calls, in order. */
    var events: seq<Event>

    constructor (queued: seq<ChangeRequest>)
      ensures requests == queued && events == []
    {
      requests := queued;
      events := [];
    }

    /** `c := <-r`: take the oldest queued request. */
    method Receive() returns (c: ChangeRequest)
      requires requests != []
      modifies this`requests
      ensures c == old(requests)[0] && requests == old(requests)[1..]
    {
      c := requests[0];
      requests := requests[1..];
    }

    /** `changes <- s`. */
    method Publish(s: Status)
      modifies this`events
      ensures events == old(events) + [Report(s)]
    {
      events := events + [Report(s)];
    }

    /** The application's start hook (`cmd.Start`), launched without waiting for it. */
    method StartApp()
      modifies this`events
      ensures events == old(events) + [StartHook]
    {
      events := events + [StartHook];
    }

    /** The application's stop hook (`cmd.Stop`), awaited. */
    method StopApp()
      modifies this`events
      ensures events == old(events) + [StopHook]
    {
      events := events + [StopHook];
    }
  }

  /**
   * `WinService.Execute`. Running out of queued requests stands for the
   * loop blocking on the channel forever; the trace then has no Stopped.
   */
  method Execute(sc: ServiceControl) returns (svcSpecificExitCode: bool, exitCode: u32)
    modifies sc
    ensures sc.events == old(sc.events) + ExecTrace(old(sc.requests))
    ensures sc.requests == old(sc.requests)[Received(old(sc.requests))..]
    ensures !svcSpecificExitCode && exitCode == 0
  {
    ghost var queued := sc.requests;
    ghost var before := sc.events;
    sc.Publish(Bare(StartPending));
    sc.StartApp();
    sc.Publish(Status(Running, CmdAccepted, 0, 0));
    var stopped := false;
    ghost var taken := 0;
    while !stopped && sc.requests != []
      invariant taken <= |queued| && sc.requests == queued[taken..]
      invariant stopped ==> taken == Received(queued) && sc.events == before + ExecTrace(queued)
      invariant !stopped ==> taken + Received(sc.requests) == Received(queued)
      invariant !stopped ==> sc.events + ControlLoop(sc.requests) == before + ExecTrace(queued)
      decreases |sc.requests|
    {
      ghost var pending, seen := sc.requests, sc.events;
      var c := sc.Receive();
      taken := taken + 1;
      assert pending[1..] == sc.requests && pending[0] == c;
      if c.cmd == Interrogate {
        sc.Publish(c.currentStatus);
        assert ControlLoop(pending) == [Report(c.currentStatus)] + ControlLoop(sc.requests);
        assert sc.events + ControlLoop(sc.requests) == seen + ControlLoop(pending);
      } else if c.cmd == Stop || c.cmd == Shutdown {
        sc.Publish(Bare(StopPending));
        sc.StopApp();
        sc.Publish(Bare(Stopped));
        stopped := true;
        assert sc.events == seen + ControlLoop(pending);
      } else {
        assert ControlLoop(pending) == ControlLoop(sc.requests);
      }
    }
    return false, 0;
  }
}
