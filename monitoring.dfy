/** Operation counters: requests sent, split into successes and failures,
    errors collected per type, and the integer part of the status report. */
module Monitoring {
  import opened Options

  /** One logged error. */
  datatype ErrorEntry = ErrorEntry(time: int, details: string)

  /** The integer fields of `get_current_status`. `NoSample` is the
      `ZeroDivisionError` it raises for a started monitor whose sampler has
      not yet recorded a CPU and memory reading: the averages divide by
      `min(10, len(...))`. */
  datatype Status = NotStarted | NoSample | Running(runningTime: int, requestsSent: nat, activeThreads: nat)

  /** `timedelta.seconds` keeps only the part of a day: it lies in [0, 86400). */
  const SecondsPerDay := 86400

  /** `get_current_status` at `now`, after `samples` readings of the sampler. */
  function StatusAt(startTime: Option<int>, now: int, requestsSent: nat, activeThreads: nat, samples: nat): (s: Status)
    ensures s.NotStarted? <==> startTime.None?
    ensures s.NoSample? <==> startTime.Some? && samples == 0
    ensures s.Running? ==> 0 <= s.runningTime < SecondsPerDay && s.requestsSent == requestsSent && s.activeThreads == activeThreads
    ensures s.Running? ==> (now - startTime.value) - s.runningTime == SecondsPerDay * ((now - startTime.value) / SecondsPerDay)
  {
    match startTime
    case None => NotStarted
    case Some(t) => if samples == 0 then NoSample else Running((now - t) % SecondsPerDay, requestsSent, activeThreads)
  }

  /** `verify_operation` on a status: a monitor that has run for a positive
      time must have sent a request and have an active thread. The
      low-success-rate check only logs a warning. `None` when the status
      itself raises. */
  function Verify(s: Status): (ok: Option<bool>)
    ensures ok.None? <==> s.NoSample?
    ensures ok == Some(false) <==> s.Running? && s.runningTime > 0 && (s.requestsSent == 0 || s.activeThreads < 1)
  {
    if s.NoSample? then None
    else if s.Running? && s.runningTime > 0 then
      if s.requestsSent == 0 then Some(false)
      else if s.activeThreads < 1 then Some(false)
      else Some(true)
    else Some(true)
  }

  /** A monitor that has not started, or that started less than a second
      ago, verifies, unless its sampler has recorded nothing yet. */
  lemma VerifyBeforeFirstSecond(startTime: Option<int>, now: int, sent: nat, threads: nat, samples: nat)
    requires startTime.Some? ==> startTime.value <= now < startTime.value + 1
    ensures Verify(StatusAt(startTime, now, sent, threads, samples))
      == if startTime.Some? && samples == 0 then None else Some(true)
  {
  }

  /** The running time drops the whole days, so an idle monitor verifies again at exactly one day. */
  lemma RunningTimeWrapsDaily(start: int, samples: nat)
    requires samples > 0
    ensures StatusAt(Some(start), start + SecondsPerDay, 0, 0, samples) == Running(0, 0, 0)
    ensures Verify(StatusAt(Some(start), start + SecondsPerDay, 0, 0, samples)) == Some(true)
    ensures Verify(StatusAt(Some(start), start + 1, 0, 0, samples)) == Some(false)
  {
  }

  /** `log_error` on the error map: one entry appended to the bucket of
      `errorType`, which is created if needed; no other bucket changes. */
  function AddError(errors: Option<map<string, seq<ErrorEntry>>>, errorType: string, entry: ErrorEntry)
    : (r: map<string, seq<ErrorEntry>>)
    ensures errorType in r
    ensures r.Keys == (if errors.Some? then errors.value.Keys else {}) + {errorType}
    ensures errors.Some? && errorType in errors.value ==> r[errorType] == errors.value[errorType] + [entry]
    ensures !(errors.Some? && errorType in errors.value) ==> r[errorType] == [entry]
    ensures errors.Some? ==> forall k :: k in errors.value && k != errorType ==> r[k] == errors.value[k]
  {
    var m := if errors.Some? then errors.value else map[];
    var bucket := if errorType in m then m[errorType] else [];
    m[errorType := bucket + [entry]]
  }

  /** The number of entries in all buckets. */
  ghost function TotalErrors(m: map<string, seq<ErrorEntry>>): nat
    decreases m.Keys
  {
    if m.Keys == {} then 0
    else
      var k :| k in m.Keys;
      |m[k]| + TotalErrors(m - {k})
  }

  lemma {:induction false} TotalErrorsSplit(m: map<string, seq<ErrorEntry>>, k: string)
    requires k in m
    ensures TotalErrors(m) == |m[k]| + TotalErrors(m - {k})
    decreases m.Keys
  {
    var j :| j in m.Keys && TotalErrors(m) == |m[j]| + TotalErrors(m - {j});
    if j != k {
      TotalErrorsSplit(m - {j}, k);
      TotalErrorsSplit(m - {k}, j);
      assert m - {j} - {k} == m - {k} - {j};
    }
  }

  /** Every logged error is kept: each `log_error` raises the total number of entries by one. */
  lemma AddErrorCounts(errors: Option<map<string, seq<ErrorEntry>>>, errorType: string, entry: ErrorEntry)
    ensures TotalErrors(AddError(errors, errorType, entry)) == (if errors.Some? then TotalErrors(errors.value) else 0) + 1
  {
    var m := if errors.Some? then errors.value else map[];
    var r := AddError(errors, errorType, entry);
    TotalErrorsSplit(r, errorType);
    assert r - {errorType} == m - {errorType};
    if errorType in m {
      TotalErrorsSplit(m, errorType);
    } else {
      assert m - {errorType} == m;
    }
    if errors.None? {
      assert m - {errorType} == map[];
    }
  }

  class OperationMonitor {
    var active: bool
    var requestsSent: nat
    var successfulRequests: nat
    var failedRequests: nat
    var lastRequestTime: Option<int>
    var startTime: Option<int>
    var activeThreads: nat
    /** How many CPU and memory readings the sampler has appended; both lists grow together. */
    var samples: nat
    var errors: Option<map<string, seq<ErrorEntry>>>

    /** Every request sent is counted exactly once, as a success or as a failure. */
    ghost predicate Valid()
      reads this
    {
      requestsSent == successfulRequests + failedRequests
    }

    constructor ()
      ensures Valid() && !active
      ensures requestsSent == 0 && successfulRequests == 0 && failedRequests == 0
      ensures lastRequestTime == None && startTime == None && activeThreads == 0 && samples == 0 && errors == None
    {
      active := false;
      requestsSent := 0;
      successfulRequests := 0;
      failedRequests := 0;
      lastRequestTime := None;
      startTime := None;
      activeThreads := 0;
      samples := 0;
      errors := None;
    }

    /** `start_monitoring` at `now`. The sampling thread it launches is not modelled. */
    method StartMonitoring(now: int)
      modifies this`active, this`startTime
      ensures active && startTime == Some(now)
    {
      active := true;
      startTime := Some(now);
    }

    /** `stop_monitoring` at `now`: clears `active` and builds the report
        from `get_current_status`. The report fails with a `KeyError` on
        `running_time` for a monitor that never started, and with the
        `ZeroDivisionError` of the averages for one with no sample yet. */
    method StopMonitoring(now: int) returns (reported: bool)
      modifies this`active
      ensures !active
      ensures reported <==> startTime.Some? && samples > 0
      ensures reported <==> GetCurrentStatus(now).Running?
    {
      active := false;
      var status := GetCurrentStatus(now);
      reported := status.Running?;
    }

    /** One pass of the sampling loop while monitoring is active: a CPU and a
        memory reading are appended and the thread count is stored. */
    method Sample(threads: nat)
      modifies this`activeThreads, this`samples
      ensures activeThreads == threads && samples == old(samples) + 1
    {
      samples := samples + 1;
      activeThreads := threads;
    }

    /** `log_request(success)` at `now`. */
    method LogRequest(success: bool, now: int)
      requires Valid()
      modifies this`requestsSent, this`successfulRequests, this`failedRequests, this`lastRequestTime
      ensures Valid()
      ensures requestsSent == old(requestsSent) + 1
      ensures success ==> successfulRequests == old(successfulRequests) + 1 && failedRequests == old(failedRequests)
      ensures !success ==> failedRequests == old(failedRequests) + 1 && successfulRequests == old(successfulRequests)
      ensures lastRequestTime == Some(now)
    {
      requestsSent := requestsSent + 1;
      lastRequestTime := Some(now);
      if success {
        successfulRequests := successfulRequests + 1;
      } else {
        failedRequests := failedRequests + 1;
      }
    }

    /** `log_error(error_type, details)` at `now`. */
    method LogError(errorType: string, details: string, now: int)
      modifies this`errors
      ensures errors == Some(AddError(old(errors), errorType, ErrorEntry(now, details)))
    {
      if errors.None? {
        errors := Some(map[]);
      }
      var m := errors.value;
      if errorType !in m {
        m := m[errorType := []];
      }
      var bucket := m[errorType];
      assert bucket == if old(errors).Some? && errorType in old(errors).value then old(errors).value[errorType] else [];
      m := m[errorType := bucket + [ErrorEntry(now, details)]];
      assert m == (if old(errors).Some? then old(errors).value else map[])[errorType := bucket + [ErrorEntry(now, details)]];
      errors := Some(m);
    }

    /** `get_current_status` at `now` on the monitor's counters. */
    function GetCurrentStatus(now: int): (s: Status)
      reads this
      ensures s.NotStarted? <==> startTime.None?
      ensures s.NoSample? <==> startTime.Some? && samples == 0
      ensures s.Running? ==> s.runningTime == (now - startTime.value) % SecondsPerDay
      ensures s.Running? ==> s.requestsSent == requestsSent && s.activeThreads == activeThreads
    {
      StatusAt(startTime, now, requestsSent, activeThreads, samples)
    }

    /** `verify_operation` at `now`: `None` when `get_current_status` raises. */
    function VerifyOperation(now: int): (ok: Option<bool>)
      reads this
      ensures ok.None? <==> startTime.Some? && samples == 0
      ensures ok == Some(false) <==>
        (startTime.Some? && samples > 0 && (now - startTime.value) % SecondsPerDay > 0 && (requestsSent == 0 || activeThreads < 1))
    {
      Verify(GetCurrentStatus(now))
    }
  }

  /** A monitor stopped before its sampler has taken a reading fails to
      report, however long it ran. */
  method StopWithoutSample(started: int, stopped: int) returns (reported: bool)
    ensures !reported
  {
    var m := new OperationMonitor();
    m.StartMonitoring(started);
    reported := m.StopMonitoring(stopped);
  }

  /** After one sample the same monitor reports. */
  method StopAfterSample(started: int, stopped: int, threads: nat) returns (reported: bool)
    ensures reported
  {
    var m := new OperationMonitor();
    m.StartMonitoring(started);
    m.Sample(threads);
    reported := m.StopMonitoring(stopped);
  }
}
