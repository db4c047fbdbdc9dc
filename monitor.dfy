/** The RTSP monitor: a running flag with start/stop, and the capture loop
    that reconnects on a failed read, throttles detection to one run per
    interval, and raises an alarm (annotate, save, commit, schedule a
    broadcast) for a non-empty detector result. Time is integer ticks;
    every camera read, detector call, file write and commit is an oracle
    outcome carried by the loop's input. */
module Monitor {
  import opened Outcomes
  import opened Text
  import opened Records

  /** What the alarm handler's collaborators do for one alarm: whether the
      annotated rendering and the image directory succeed, the clock text
      and uuid hex used in the file name, the row's creation time, and the
      commit (the assigned id, or an exception). */
  datatype AlarmEnv = AlarmEnv(
    annotateOk: bool,
    dirOk: bool,
    stamp: string,
    uuidHex: string,
    createdAt: string,
    commit: Result<int>)

  /** One pass of the loop body as the outside world plays it. */
  datatype Frame = Frame(readOk: bool, now: int, predicted: Result<seq<Detection>>, alarm: AlarmEnv)

  /** What the loop sees at its `while self.running` check: either `stop()`
      has cleared the flag, or another pass runs with the given frame. */
  datatype Tick = StopRequested | Iteration(frame: Frame)

  /** What a detection run came to. `Alarmed` carries the message handed to
      the broadcast hub's event loop. */
  datatype Check = DetectorFailed | Clear | AlarmFailed | Alarmed(message: AlertMessage)

  /** What one pass did: reconnected the capture, skipped the frame, or ran
      the detector at time `at`. */
  datatype Step = Reconnected | Skipped | Checked(at: int, check: Check)

  /** `rtsp_<stamp>_<first six hex digits>.jpg`. */
  function AlarmFileName(stamp: string, uuidHex: string): (name: string)
    ensures |name| >= 10
    ensures |uuidHex| >= 6 ==> |name| == |stamp| + 16
    ensures name[..5] == "rtsp_" && name[|name| - 4..] == ".jpg"
  {
    "rtsp_" + stamp + "_" + PrefixSlice(uuidHex, 6) + ".jpg"
  }

  /** `_trigger_alarm`: any failure before the broadcast is scheduled is
      caught and ends the alarm with nothing scheduled. */
  function TriggerAlarm(top: Detection, env: AlarmEnv): (r: Check)
    ensures r.Alarmed? || r.AlarmFailed?
    ensures r.Alarmed? <==> env.annotateOk && env.dirOk && env.commit.Ok?
    ensures r.Alarmed? ==>
              && r.message.kind == AlertKind
              && r.message.id == env.commit.value
              && r.message.timestamp == env.createdAt
              && r.message.topObject == top.cls
              && r.message.conf == top.confidence
              && r.message.imageUrl == "/" + SavePath(AlarmFileName(env.stamp, env.uuidHex))
  {
    if !env.annotateOk || !env.dirOk then AlarmFailed
    else
      var url := ImageUrl(AlarmFileName(env.stamp, env.uuidHex));
      var log := NewDetectionLog(top.cls, top.confidence, Some(url), env.createdAt);
      match env.commit
      case Raised(_) => AlarmFailed
      case Ok(id) => Alarmed(AlertFor(Committed(log, id), top))
  }

  /** The detector's result handled inside the loop's try block: a raise
      is caught, an empty list does nothing, otherwise the FIRST hit (not
      the most confident one) is alarmed on. */
  function Detect(predicted: Result<seq<Detection>>, env: AlarmEnv): (r: Check)
    ensures r == DetectorFailed <==> predicted.Raised?
    ensures r == Clear <==> predicted.Ok? && predicted.value == []
    ensures (r.Alarmed? || r.AlarmFailed?) <==> predicted.Ok? && predicted.value != []
    ensures r.Alarmed? ==>
              r.message.topObject == predicted.value[0].cls && r.message.conf == predicted.value[0].confidence
  {
    match predicted
    case Raised(_) => DetectorFailed
    case Ok(results) => if |results| > 0 then TriggerAlarm(results[0], env) else Clear
  }

  /** One pass of the loop body from gate state `last`: the step taken and
      the new `last_check_time`. */
  function StepFrame(f: Frame, last: int, interval: int): (r: (Step, int))
    ensures !f.readOk ==> r == (Reconnected, last)
    ensures f.readOk && f.now - last < interval ==> r == (Skipped, last)
    ensures f.readOk && f.now - last >= interval ==>
              r.0.Checked? && r.0.at == f.now && r.1 == f.now
    ensures r.0.Checked? ==> r.0.check == Detect(f.predicted, f.alarm)
  {
    if !f.readOk then (Reconnected, last)
    else if f.now - last < interval then (Skipped, last)
    else (Checked(f.now, Detect(f.predicted, f.alarm)), f.now)
  }

  datatype Run = Run(steps: seq<Step>, last: int, stopped: bool)

  /** The loop over a horizon of ticks: it ends at the first cleared flag
      (`stopped`) or when the horizon runs out. */
  function RunLoop(ticks: seq<Tick>, last: int, interval: int): Run
  {
    if ticks == [] then Run([], last, false)
    else
      match ticks[0]
      case StopRequested => Run([], last, true)
      case Iteration(f) =>
        var (step, last') := StepFrame(f, last, interval);
        var rest := RunLoop(ticks[1..], last', interval);
        Run([step] + rest.steps, rest.last, rest.stopped)
  }

  /** `RunLoop` after one iteration. */
  lemma RunLoopStep(ticks: seq<Tick>, last: int, interval: int)
    requires ticks != [] && ticks[0].Iteration?
    ensures var (step, last') := StepFrame(ticks[0].frame, last, interval);
            var rest := RunLoop(ticks[1..], last', interval);
            RunLoop(ticks, last, interval).steps == [step] + rest.steps
            && RunLoop(ticks, last, interval).stopped == rest.stopped
  {
  }

  class RTSPMonitor {
    const url: string
    const interval: int
    var running: bool
    /** Whether a worker thread object exists (`self.thread`). */
    var hasThread: bool
    /** How many worker threads `start` has launched. */
    var launches: nat

    constructor (url: string, interval: int)
      ensures this.url == url && this.interval == interval
      ensures !running && !hasThread && launches == 0
    {
      this.url := url;
      this.interval := interval;
      running := false;
      hasThread := false;
      launches := 0;
    }

    /** `start`: a no-op while running; otherwise sets the flag and
        launches a worker thread. */
    method Start()
      modifies this
      ensures old(running) ==> running && hasThread == old(hasThread) && launches == old(launches)
      ensures !old(running) ==> running && hasThread && launches == old(launches) + 1
    {
      if running {
        return;
      }
      running := true;
      hasThread := true;
      launches := launches + 1;
    }

    /** `stop`: clears the flag; the join that waits for the worker is not
        modelled. */
    method Stop()
      modifies this
      ensures !running
      ensures hasThread == old(hasThread) && launches == old(launches)
    {
      running := false;
    }

    /** `_monitor_loop` over a horizon of ticks, starting with
        `last_check_time = 0`. A `StopRequested` tick is `stop()` having
        cleared the flag before the loop re-checks it. */
    method MonitorLoop(ticks: seq<Tick>) returns (steps: seq<Step>)
      modifies this
      ensures old(running) ==>
                steps == RunLoop(ticks, 0, interval).steps && running == !RunLoop(ticks, 0, interval).stopped
      ensures !old(running) ==> steps == [] && !running
      ensures hasThread == old(hasThread) && launches == old(launches)
    {
      var lastCheck := 0;
      var k := 0;
      steps := [];
      ghost var whole := RunLoop(ticks, 0, interval);
      while running && k < |ticks|
        invariant 0 <= k <= |ticks|
        invariant hasThread == old(hasThread) && launches == old(launches)
        invariant !old(running) ==> steps == [] && !running
        invariant old(running) && running ==>
                    whole.steps == steps + RunLoop(ticks[k..], lastCheck, interval).steps
                    && whole.stopped == RunLoop(ticks[k..], lastCheck, interval).stopped
        invariant old(running) && !running ==> whole.steps == steps && whole.stopped
      {
        ghost var rest := RunLoop(ticks[k..], lastCheck, interval);
        assert ticks[k..][0] == ticks[k] && ticks[k..][1..] == ticks[k + 1..];
        match ticks[k]
        case StopRequested =>
          assert rest == Run([], lastCheck, true);
          assert steps + [] == steps;
          running := false;
        case Iteration(f) =>
          var step;
          ghost var before := lastCheck;
          step, lastCheck := Iterate(f, lastCheck);
          RunLoopStep(ticks[k..], before, interval);
          assert steps + rest.steps == (steps + [step]) + RunLoop(ticks[k + 1..], lastCheck, interval).steps;
          steps := steps + [step];
        k := k + 1;
      }
      assert running ==> k == |ticks| && ticks[k..] == [];
    }

    /** One pass of the `while self.running` body after the flag check:
        reconnect on a failed read, skip inside the interval, otherwise
        detect and move the gate. */
    method Iterate(f: Frame, lastCheck: int) returns (step: Step, newCheck: int)
      ensures (step, newCheck) == StepFrame(f, lastCheck, interval)
    {
      newCheck := lastCheck;
      if !f.readOk {
        // the capture is released and reopened after a three-second pause
        step := Reconnected;
      } else if f.now - lastCheck < interval {
        // a short pause before the next read
        step := Skipped;
      } else {
        newCheck := f.now;
        var check: Check;
        match f.predicted {
          case Raised(_) =>
            check := DetectorFailed;
          case Ok(results) =>
            if |results| > 0 {
              check := TriggerAlarm(results[0], f.alarm);
            } else {
              check := Clear;
            }
        }
        step := Checked(f.now, check);
      }
    }
  }

  /** Once the flag is seen cleared the loop runs no further pass: whatever
      follows the stop contributes nothing. */
  lemma {:induction false} NothingAfterStop(pre: seq<Tick>, post: seq<Tick>, last: int, interval: int)
    requires StopRequested !in pre
    ensures RunLoop(pre + [StopRequested] + post, last, interval)
            == Run(RunLoop(pre, last, interval).steps, RunLoop(pre, last, interval).last, true)
    ensures |RunLoop(pre, last, interval).steps| == |pre|
  {
    if pre == [] {
      assert pre + [StopRequested] + post == [StopRequested] + post;
    } else {
      assert (pre + [StopRequested] + post)[1..] == pre[1..] + [StopRequested] + post;
      var (_, last') := StepFrame(pre[0].frame, last, interval);
      NothingAfterStop(pre[1..], post, last', interval);
    }
  }

  /** Detection times, in order, of the passes that ran the detector. */
  function CheckTimes(steps: seq<Step>): seq<int>
  {
    if steps == [] then []
    else (if steps[0].Checked? then [steps[0].at] else []) + CheckTimes(steps[1..])
  }

  /** Each detector run is at least one interval after the previous one
      (or after the initial gate value). */
  predicate Spaced(times: seq<int>, last: int, interval: int)
  {
    times == [] || (times[0] - last >= interval && Spaced(times[1..], times[0], interval))
  }

  /** The sampling gate over a whole run: the detector is never invoked
      sooner than one interval after its previous invocation, and the gate
      value at the end is the time of the last invocation. */
  lemma {:induction false} GateSpacesDetections(ticks: seq<Tick>, last: int, interval: int)
    ensures Spaced(CheckTimes(RunLoop(ticks, last, interval).steps), last, interval)
    ensures var ts := CheckTimes(RunLoop(ticks, last, interval).steps);
            RunLoop(ticks, last, interval).last == if ts == [] then last else ts[|ts| - 1]
  {
    if ticks != [] && ticks[0].Iteration? {
      var (step, last') := StepFrame(ticks[0].frame, last, interval);
      var rest := RunLoop(ticks[1..], last', interval);
      GateSpacesDetections(ticks[1..], last', interval);
      assert RunLoop(ticks, last, interval).steps == [step] + rest.steps;
      assert ([step] + rest.steps)[1..] == rest.steps;
      var ts := CheckTimes(rest.steps);
      if step.Checked? {
        assert CheckTimes([step] + rest.steps) == [step.at] + ts;
        assert ([step.at] + ts)[1..] == ts;
      } else {
        assert CheckTimes([step] + rest.steps) == ts;
      }
    }
  }

  /** No alarm and no scheduled broadcast ever comes out of passes whose
      detector returns nothing or raises. */
  lemma {:induction false} QuietFramesRaiseNoAlarm(ticks: seq<Tick>, last: int, interval: int)
    requires forall k :: 0 <= k < |ticks| && ticks[k].Iteration? ==>
               !(ticks[k].frame.predicted.Ok? && ticks[k].frame.predicted.value != [])
    ensures forall k :: 0 <= k < |RunLoop(ticks, last, interval).steps| ==>
              !(RunLoop(ticks, last, interval).steps[k].Checked? &&
                RunLoop(ticks, last, interval).steps[k].check.Alarmed?)
  {
    if ticks != [] && ticks[0].Iteration? {
      var (step, last') := StepFrame(ticks[0].frame, last, interval);
      QuietFramesRaiseNoAlarm(ticks[1..], last', interval);
      assert RunLoop(ticks, last, interval).steps == [step] + RunLoop(ticks[1..], last', interval).steps;
    }
  }

  /** Any number of failed reads followed by a good frame at or past the
      interval: one reconnect per failed read, then a detection at that
      frame, because reconnects leave the gate where it was. */
  lemma {:induction false} FailuresThenResume(n: nat, bad: Frame, good: Frame, last: int, interval: int)
    requires !bad.readOk && good.readOk && good.now - last >= interval
    ensures RunLoop(seq(n, _ => Iteration(bad)) + [Iteration(good)], last, interval).steps
            == seq(n, _ => Reconnected) + [Checked(good.now, Detect(good.predicted, good.alarm))]
  {
    var ticks := seq(n, _ => Iteration(bad)) + [Iteration(good)];
    var c := Checked(good.now, Detect(good.predicted, good.alarm));
    if n == 0 {
      assert ticks == [Iteration(good)];
      assert ticks[1..] == [];
      assert seq(0, _ => Reconnected) + [c] == [c];
    } else {
      FailuresThenResume(n - 1, bad, good, last, interval);
      assert ticks[0] == Iteration(bad);
      assert ticks[1..] == seq(n - 1, _ => Iteration(bad)) + [Iteration(good)];
      assert seq(n, _ => Reconnected) + [c] == [Reconnected] + (seq(n - 1, _ => Reconnected) + [c]);
    }
  }
}
