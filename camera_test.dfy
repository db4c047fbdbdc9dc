/** The overload camera: per frame it counts contours of area at least
    1000, reports "Count: n / Limit: m", and when the count exceeds the
    limit it posts an alarm, at most once per strictly-more-than-five
    seconds. The image pipeline and the GUI are outside the model; time is
    integer ticks; the HTTP post is fire-and-forget (its errors are
    swallowed, so its outcome changes nothing). */
module CameraTest {
  import opened Outcomes
  import opened Text
  import opened Geometry
  import opened Clock

  const CooldownTicks: int := 5 * TicksPerSecond
  /** `contourArea < 1000`, doubled. */
  const MinArea2: nat := 2000

  predicate IsProduct(c: Contour)
  {
    Area2(c) >= MinArea2
  }

  /** Number of contours not below the area threshold. */
  function CountLarge(cs: seq<Contour>): nat
  {
    if cs == [] then 0
    else CountLarge(cs[..|cs| - 1]) + (if IsProduct(cs[|cs| - 1]) then 1 else 0)
  }

  /** The counting loop with its `continue` on small contours. */
  method CountProducts(contours: seq<Contour>) returns (count: nat)
    ensures count == CountLarge(contours)
  {
    count := 0;
    var i := 0;
    while i < |contours|
      invariant 0 <= i <= |contours|
      invariant count == CountLarge(contours[..i])
    {
      assert contours[..i + 1][..i] == contours[..i];
      if Area2(contours[i]) < MinArea2 {
        i := i + 1;
        continue;
      }
      count := count + 1;
      i := i + 1;
    }
    assert contours[..i] == contours;
  }

  /** The count is the number of positions holding a product. */
  lemma {:induction false} CountIsPositions(cs: seq<Contour>)
    ensures CountLarge(cs) == |set i | 0 <= i < |cs| && IsProduct(cs[i])|
  {
    if cs != [] {
      var n := |cs| - 1;
      var front := cs[..n];
      CountIsPositions(front);
      var before := set i | 0 <= i < n && IsProduct(front[i]);
      var all := set i | 0 <= i < |cs| && IsProduct(cs[i]);
      assert forall i :: 0 <= i < n ==> front[i] == cs[i];
      assert all - {n} == before;
      if IsProduct(cs[n]) {
        assert all == before + {n};
      } else {
        assert all == before;
      }
    }
  }

  /** The count never exceeds the number of contours, and reaches it
      exactly when every contour is a product. */
  lemma {:induction false} CountBounds(cs: seq<Contour>)
    ensures CountLarge(cs) <= |cs|
    ensures CountLarge(cs) == |cs| <==> forall i :: 0 <= i < |cs| ==> IsProduct(cs[i])
  {
    if cs != [] {
      var front := cs[..|cs| - 1];
      CountBounds(front);
      assert forall i :: 0 <= i < |cs| - 1 ==> front[i] == cs[i];
    }
  }

  datatype Payload = Payload(deviceId: string, errorType: string, currentCount: int, limit: int, timestamp: int)

  /** `send_alarm`'s body: `timestamp` is its own clock reading. */
  function AlarmPayload(count: int, limit: int, clock: int): (p: Payload)
    ensures p.deviceId == "CAMERA_001" && p.errorType == "OVERLOAD"
    ensures p.currentCount == count && p.limit == limit && p.timestamp == clock
  {
    Payload("CAMERA_001", "OVERLOAD", count, limit, clock)
  }

  function StatusText(count: nat, limit: int): string
  {
    "Count: " + IntToString(count) + " / Limit: " + IntToString(limit)
  }

  /** A run of digits followed by a non-digit is split the same way in
      any equal string. */
  lemma {:induction false} DigitRunSplit(a: string, rest: string, a': string, rest': string)
    requires forall i :: 0 <= i < |a| ==> IsDigit(a[i])
    requires forall i :: 0 <= i < |a'| ==> IsDigit(a'[i])
    requires |rest| > 0 && !IsDigit(rest[0]) && |rest'| > 0 && !IsDigit(rest'[0])
    requires a + rest == a' + rest'
    ensures a == a' && rest == rest'
  {
    var t := a + rest;
    assert forall i :: 0 <= i < |a| ==> t[i] == a[i];
    assert forall i :: 0 <= i < |a'| ==> t[i] == a'[i];
    assert t[|a|] == rest[0] && t[|a'|] == rest'[0];
    assert |a| == |a'|;
    assert a == t[..|a|] == a';
    assert rest == t[|a|..] == rest';
  }

  /** What follows "Count: " in the status line. */
  lemma StatusTextTail(count: nat, limit: nat)
    ensures StatusText(count, limit)[7..] == NatToString(count) + (" / Limit: " + NatToString(limit))
  {
    var t := StatusText(count, limit);
    assert t == "Count: " + (NatToString(count) + (" / Limit: " + NatToString(limit)));
  }

  /** The status line determines both numbers: two frames with different
      counts or limits never show the same text. */
  lemma StatusTextInjective(count: nat, limit: nat, count': nat, limit': nat)
    requires StatusText(count, limit) == StatusText(count', limit')
    ensures count == count' && limit == limit'
  {
    var a, b := NatToString(count), NatToString(limit);
    var a', b' := NatToString(count'), NatToString(limit');
    var sep := " / Limit: ";
    StatusTextTail(count, limit);
    StatusTextTail(count', limit');
    DigitRunSplit(a, sep + b, a', sep + b');
    assert b == (sep + b)[10..] == (sep + b')[10..] == b';
    NatToStringInjective(count, count');
    NatToStringInjective(limit, limit');
  }

  /** One frame as the outside world plays it: the read, the contours of
      the thresholded image, the trackbar limit, `time.time()` at the
      overload check and inside `send_alarm`, and the key press. */
  datatype CameraFrame = CameraFrame(
    readOk: bool, contours: seq<Contour>, maxLimit: int, now: int, sendClock: int, quit: bool)

  datatype Alarm = Alarm(at: int, payload: Payload)
  datatype FrameReport = FrameReport(statusText: string, overloaded: bool, alarm: Option<Alarm>)

  /** One frame from cooldown state `last`: the report and the new
      `last_alarm_time`. */
  function FrameStep(f: CameraFrame, last: int): (r: (FrameReport, int))
    ensures r.0.overloaded <==> CountLarge(f.contours) > f.maxLimit
    ensures r.0.alarm.Some? <==> r.0.overloaded && f.now - last > CooldownTicks
    ensures r.0.alarm.Some? ==>
              r.1 == f.now && r.0.alarm.value.at == f.now
              && r.0.alarm.value.payload == AlarmPayload(CountLarge(f.contours), f.maxLimit, f.sendClock)
    ensures r.0.alarm.None? ==> r.1 == last
    ensures r.0.statusText == StatusText(CountLarge(f.contours), f.maxLimit)
  {
    var count := CountLarge(f.contours);
    var over := count > f.maxLimit;
    var status := StatusText(count, f.maxLimit);
    if over && f.now - last > CooldownTicks then
      (FrameReport(status, true, Some(Alarm(f.now, AlarmPayload(count, f.maxLimit, f.sendClock)))), f.now)
    else
      (FrameReport(status, over, None), last)
  }

  /** The `while True` loop: a failed read ends it before any processing,
      a 'q' key press ends it after the frame. */
  function CameraRun(frames: seq<CameraFrame>, last: int): seq<FrameReport>
  {
    if frames == [] || !frames[0].readOk then []
    else
      var step := FrameStep(frames[0], last);
      if frames[0].quit then [step.0] else [step.0] + CameraRun(frames[1..], step.1)
  }

  /** The body of the `while True` loop for a frame that was read: count,
      build the status line, and run the cooldown check. */
  method ProcessFrame(f: CameraFrame, lastAlarmTime: int) returns (report: FrameReport, newAlarmTime: int)
    ensures (report, newAlarmTime) == FrameStep(f, lastAlarmTime)
  {
    var productCount := CountProducts(f.contours);
    var statusText := StatusText(productCount, f.maxLimit);
    var alarm: Option<Alarm> := None;
    newAlarmTime := lastAlarmTime;
    if productCount > f.maxLimit {
      var currentTime := f.now;
      if currentTime - lastAlarmTime > CooldownTicks {
        alarm := Some(Alarm(currentTime, AlarmPayload(productCount, f.maxLimit, f.sendClock)));
        newAlarmTime := currentTime;
      }
    }
    report := FrameReport(statusText, productCount > f.maxLimit, alarm);
  }

  /** `CameraRun` from frame `k` when that frame could not be read. */
  lemma CameraRunStopsAt(frames: seq<CameraFrame>, k: nat, last: int)
    requires k < |frames| && !frames[k].readOk
    ensures CameraRun(frames[k..], last) == []
  {
    assert frames[k..][0] == frames[k];
  }

  /** `CameraRun` from frame `k` when that frame was read. */
  lemma CameraRunStepAt(frames: seq<CameraFrame>, k: nat, last: int)
    requires k < |frames| && frames[k].readOk
    ensures var step := FrameStep(frames[k], last);
            CameraRun(frames[k..], last)
            == [step.0] + (if frames[k].quit then [] else CameraRun(frames[k + 1..], step.1))
  {
    assert frames[k..][0] == frames[k] && frames[k..][1..] == frames[k + 1..];
  }

  method CameraLoop(frames: seq<CameraFrame>) returns (reports: seq<FrameReport>)
    ensures reports == CameraRun(frames, 0)
  {
    var lastAlarmTime := 0;
    reports := [];
    var k := 0;
    ghost var whole := CameraRun(frames, 0);
    assert frames[0..] == frames;
    while k < |frames|
      invariant 0 <= k <= |frames|
      invariant whole == reports + CameraRun(frames[k..], lastAlarmTime)
    {
      var f := frames[k];
      if !f.readOk {
        CameraRunStopsAt(frames, k, lastAlarmTime);
        assert reports + [] == reports;
        break;
      }
      ghost var before := lastAlarmTime;
      var report;
      report, lastAlarmTime := ProcessFrame(f, lastAlarmTime);
      CameraRunStepAt(frames, k, before);
      ghost var tail := if f.quit then [] else CameraRun(frames[k + 1..], lastAlarmTime);
      assert reports + ([report] + tail) == (reports + [report]) + tail;
      reports := reports + [report];
      if f.quit {
        assert reports + [] == reports;
        break;
      }
      k := k + 1;
    }
    assert k == |frames| ==> frames[k..] == [] && reports + [] == reports;
  }

  /** Times of the alarms in a run, in order. */
  function AlarmTimes(reports: seq<FrameReport>): seq<int>
  {
    if reports == [] then []
    else (if reports[0].alarm.Some? then [reports[0].alarm.value.at] else []) + AlarmTimes(reports[1..])
  }

  /** Each alarm comes strictly more than the cooldown after the previous
      one (or after the initial `last_alarm_time`). */
  predicate Throttled(times: seq<int>, last: int)
  {
    times == [] || (times[0] - last > CooldownTicks && Throttled(times[1..], times[0]))
  }

  lemma {:induction false} AlarmsAreThrottled(frames: seq<CameraFrame>, last: int)
    ensures Throttled(AlarmTimes(CameraRun(frames, last)), last)
  {
    if frames != [] && frames[0].readOk {
      var step := FrameStep(frames[0], last);
      var report, last' := step.0, step.1;
      var rest := if frames[0].quit then [] else CameraRun(frames[1..], last');
      assert CameraRun(frames, last) == [report] + rest;
      assert ([report] + rest)[1..] == rest;
      if !frames[0].quit {
        AlarmsAreThrottled(frames[1..], last');
      }
      if report.alarm.Some? {
        assert AlarmTimes([report] + rest) == [report.alarm.value.at] + AlarmTimes(rest);
        assert ([report.alarm.value.at] + AlarmTimes(rest))[1..] == AlarmTimes(rest);
      } else {
        assert AlarmTimes([report] + rest) == AlarmTimes(rest);
      }
    }
  }
}
