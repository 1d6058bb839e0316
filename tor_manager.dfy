/** Tor identity rotation behind a cooldown, and the probe/start/restart
    sequence that keeps the service running. Shell commands and the control
    port are boolean inputs; the clock is an integer `now`. */
module TorManager {
  /** The shortest time between two identity changes. */
  const MinIdentityChangeInterval := 30

  /** The shell commands the manager issues, in the order it issues them. */
  datatype Command = ProbeProcess | StartService | RestartService | CheckStatus

  /** The outcome of one identity-change request: whether it happened and the new timestamp. */
  datatype Rotation = Rotation(changed: bool, last: int)

  /** One identity-change request at `now` whose command or control-port
      exchange succeeds iff `ok`: refused inside the interval, and the
      timestamp is committed only on success. */
  function Rotate(last: int, interval: int, now: int, ok: bool): (r: Rotation)
    ensures r.changed <==> now - last >= interval && ok
    ensures r.last == if r.changed then now else last
  {
    if now - last < interval then Rotation(false, last)
    else if ok then Rotation(true, now)
    else Rotation(false, last)
  }

  /** One request: when it is made and whether its command would succeed. */
  datatype Request = Request(now: int, ok: bool)

  /** The times at which a series of requests changed the identity. */
  function Changes(last: int, interval: int, requests: seq<Request>): seq<int>
    decreases |requests|
  {
    if requests == [] then []
    else
      var step := Rotate(last, interval, requests[0].now, requests[0].ok);
      (if step.changed then [requests[0].now] else []) + Changes(step.last, interval, requests[1..])
  }

  /** Successive identity changes are at least `interval` apart, the first at least `interval` after `last`. */
  lemma {:induction false} ChangesAreSpaced(last: int, interval: int, requests: seq<Request>)
    ensures var c := Changes(last, interval, requests);
      && (c != [] ==> c[0] - last >= interval)
      && forall i :: 0 < i < |c| ==> c[i] - c[i - 1] >= interval
    decreases |requests|
  {
    if requests != [] {
      var step := Rotate(last, interval, requests[0].now, requests[0].ok);
      ChangesAreSpaced(step.last, interval, requests[1..]);
    }
  }

  /** A request that fails leaves the next one exactly as eligible as it was. */
  lemma FailureKeepsEligibility(last: int, interval: int, now: int, next: int)
    ensures Rotate(last, interval, now, false).last == last
    ensures Rotate(Rotate(last, interval, now, false).last, interval, next, true).changed <==> next - last >= interval
  {
  }

  /** The commands of `ensure_tor_running` for a probe and a first status check. */
  function Issued(processFound: bool, firstOk: bool): (issued: seq<Command>)
  {
    (if processFound then [ProbeProcess] else [ProbeProcess, StartService])
      + (if firstOk then [CheckStatus] else [CheckStatus, RestartService]) + [CheckStatus]
  }

  lemma IssuedInOrder(processFound: bool, firstOk: bool)
    ensures var issued := Issued(processFound, firstOk);
      && (StartService in issued <==> !processFound)
      && (RestartService in issued <==> !firstOk)
      && multiset(issued)[StartService] <= 1 && multiset(issued)[RestartService] <= 1
      && |issued| >= 1 && issued[0] == ProbeProcess && issued[|issued| - 1] == CheckStatus
  {
  }

  class TorManager {
    var lastIdentityChange: int
    const minIdentityChangeInterval: int

    /** A manager created at `now`: its first change is possible only once the interval has passed. */
    constructor (now: int)
      ensures lastIdentityChange == now
      ensures minIdentityChangeInterval == MinIdentityChangeInterval
    {
      lastIdentityChange := now;
      minIdentityChangeInterval := MinIdentityChangeInterval;
    }

    /** `change_identity` at `now`, the `killall -HUP tor` command succeeding iff
        `commandOk`; the command runs only outside the cooldown. */
    method ChangeIdentity(now: int, commandOk: bool) returns (changed: bool, ranCommand: bool)
      modifies this`lastIdentityChange
      ensures ranCommand <==> now - old(lastIdentityChange) >= minIdentityChangeInterval
      ensures Rotation(changed, lastIdentityChange) == Rotate(old(lastIdentityChange), minIdentityChangeInterval, now, commandOk)
    {
      if now - lastIdentityChange < minIdentityChangeInterval {
        return false, false;
      }
      ranCommand := true;
      if commandOk {
        lastIdentityChange := now;
        return true, ranCommand;
      }
      changed := false;
    }

    /** `change_identity_via_control_port` at `now`, authentication and the
        NEWNYM signal succeeding iff `controlOk`; the port is contacted only outside the cooldown. */
    method ChangeIdentityViaControlPort(now: int, controlOk: bool) returns (changed: bool, contacted: bool)
      modifies this`lastIdentityChange
      ensures contacted <==> now - old(lastIdentityChange) >= minIdentityChangeInterval
      ensures Rotation(changed, lastIdentityChange) == Rotate(old(lastIdentityChange), minIdentityChangeInterval, now, controlOk)
    {
      if now - lastIdentityChange < minIdentityChangeInterval {
        return false, false;
      }
      contacted := true;
      if controlOk {
        lastIdentityChange := now;
        changed := true;
      } else {
        changed := false;
      }
    }

    /** `ensure_tor_running`, the process probe succeeding iff `processFound`
        and the i-th status check succeeding iff `status(i)`. */
    method EnsureTorRunning(processFound: bool, status: nat -> bool) returns (running: bool, issued: seq<Command>)
      ensures issued == Issued(processFound, status(0))
      ensures running == status(1)
    {
      var probe := [ProbeProcess];
      if !processFound {
        probe := probe + [StartService];
      }
      var checks := 0;
      var restart := [CheckStatus];
      var ok := status(checks);
      checks := checks + 1;
      if !ok {
        restart := restart + [RestartService];
      }
      issued := probe + restart + [CheckStatus];
      running := status(checks);
    }

    /** `restart_tor_if_needed`: a restart iff the status check fails. */
    method RestartTorIfNeeded(statusOk: bool) returns (issued: seq<Command>)
      ensures RestartService in issued <==> !statusOk
      ensures |issued| >= 1 && issued[0] == CheckStatus && multiset(issued)[RestartService] <= 1
    {
      issued := [CheckStatus];
      if !statusOk {
        issued := issued + [RestartService];
      }
    }
  }

  /** A fresh manager refuses every change during its first interval. */
  method FreshManagerWaits(created: int, now: int, ok: bool) returns (changed: bool)
    requires created <= now < created + MinIdentityChangeInterval
    ensures !changed
  {
    var t := new TorManager(created);
    var ran;
    changed, ran := t.ChangeIdentity(now, ok);
  }
}
