/** The API server's own decisions: the `/predict` endpoint (log, alert and
    response built from the detector's list), the `/` status document, and
    the lifespan rule that starts a stream monitor only when an RTSP URL is
    configured. */
module Api {
  import opened Outcomes
  import opened Text
  import opened Records
  import opened Hub
  import opened Monitor
  import opened Clock

  /** What `/predict`'s collaborators do: the rendering call, the clock
      text and uuid hex of the file name, the row's creation time, and the
      commit (the assigned id, or an exception). */
  datatype PersistEnv = PersistEnv(
    annotateOk: bool,
    stamp: string,
    uuidHex: string,
    createdAt: string,
    commit: Result<int>)

  datatype PredictResponse = PredictResponse(filename: Option<string>, count: nat, detections: seq<Detection>)

  /** The endpoint's effects and its answer. `response` is `Raised` when an
      exception escapes the handler (the framework then answers 500);
      effects that happened before the exception stay. */
  datatype PredictOutcome = PredictOutcome(
    savedImage: Option<string>,
    log: Option<DetectionLog>,
    alert: Option<AlertMessage>,
    response: Result<PredictResponse>)

  /** `<stamp>_<first six hex digits>.jpg`. */
  function UploadFileName(stamp: string, uuidHex: string): string
  {
    stamp + "_" + PrefixSlice(uuidHex, 6) + ".jpg"
  }

  /** `predict_endpoint` after the upload is read and decoded. */
  function PredictEndpoint(filename: Option<string>, predicted: Result<seq<Detection>>,
                           env: PersistEnv): (r: PredictOutcome)
    // a log row and a broadcast exist only together, and only for a
    // non-empty detector result whose rendering and commit succeed
    ensures r.alert.Some? <==> r.log.Some?
    ensures r.alert.Some? <==>
              predicted.Ok? && predicted.value != [] && env.annotateOk && env.commit.Ok?
    ensures predicted.Ok? && predicted.value == [] ==> r.savedImage == None && r.alert == None
    // the alert describes results[0] and the stored image
    ensures r.alert.Some? ==>
              && r.alert.value.kind == AlertKind
              && r.alert.value.topObject == predicted.value[0].cls
              && r.alert.value.conf == predicted.value[0].confidence
              && r.savedImage.Some?
              && r.alert.value.imageUrl == "/" + r.savedImage.value
              && r.log.value.imageUrl == r.alert.value.imageUrl
              && r.log.value.isAlert
              && r.log.value.id == Some(r.alert.value.id)
    // the answer: every detection, unchanged, and their number
    ensures r.response.Ok? <==>
              predicted.Ok? && (predicted.value == [] || (env.annotateOk && env.commit.Ok?))
    ensures r.response.Ok? ==>
              r.response.value == PredictResponse(filename, |predicted.value|, predicted.value)
  {
    match predicted
    case Raised(e) => PredictOutcome(None, None, None, Raised(e))
    case Ok(results) =>
      var response := PredictResponse(filename, |results|, results);
      if results == [] then PredictOutcome(None, None, None, Ok(response))
      else if !env.annotateOk then PredictOutcome(None, None, None, Raised("rendering failed"))
      else
        var top := results[0];
        var name := UploadFileName(env.stamp, env.uuidHex);
        var log := NewDetectionLog(top.cls, top.confidence, Some(ImageUrl(name)), env.createdAt);
        match env.commit
        case Raised(e) => PredictOutcome(Some(SavePath(name)), None, None, Raised(e))
        case Ok(id) =>
          var stored := Committed(log, id);
          PredictOutcome(Some(SavePath(name)), Some(stored), Some(AlertFor(stored, top)), Ok(response))
  }

  /** `predict_endpoint` against the live hub: the alert, when there is one,
      is fanned out before the answer is returned. */
  method HandlePredict(manager: ConnectionManager, filename: Option<string>,
                       predicted: Result<seq<Detection>>, env: PersistEnv, fails: ConnId -> bool)
    returns (response: Result<PredictResponse>, attempted: seq<ConnId>)
    modifies manager
    ensures response == PredictEndpoint(filename, predicted, env).response
    ensures PredictEndpoint(filename, predicted, env).alert.Some? ==>
              Walk(manager.active, attempted) == BroadcastWalk(old(manager.active), |old(manager.active)| - 1, fails)
    ensures PredictEndpoint(filename, predicted, env).alert.None? ==>
              manager.active == old(manager.active) && attempted == []
  {
    var outcome := PredictEndpoint(filename, predicted, env);
    attempted := [];
    if outcome.alert.Some? {
      attempted := manager.Broadcast(fails);
    }
    response := outcome.response;
  }

  /** The `/` status document. */
  datatype RootInfo = RootInfo(status: string, mode: string, rtspUrl: Option<string>)

  const IntervalTicks: int := 2 * TicksPerSecond

  /** Python truthiness of `os.getenv("RTSP_URL")`: unset or empty means no
      stream. */
  predicate Configured(rtspUrl: Option<string>)
  {
    rtspUrl.Some? && rtspUrl.value != ""
  }

  class App {
    const rtspUrl: Option<string>
    var monitor: RTSPMonitor?

    constructor (rtspUrl: Option<string>)
      ensures this.rtspUrl == rtspUrl && monitor == null
    {
      this.rtspUrl := rtspUrl;
      monitor := null;
    }

    /** Startup half of `lifespan`: with a configured URL, a monitor with a
        two-second interval is created and started; otherwise the server
        stays passive. */
    method Startup()
      modifies this
      ensures Configured(rtspUrl) ==>
                monitor != null && fresh(monitor) && monitor.running && monitor.launches == 1
                && monitor.url == rtspUrl.value && monitor.interval == IntervalTicks
      ensures !Configured(rtspUrl) ==> monitor == old(monitor)
    {
      if Configured(rtspUrl) {
        var m := new RTSPMonitor(rtspUrl.value, IntervalTicks);
        m.Start();
        monitor := m;
      }
    }

    /** Shutdown half of `lifespan`: stops the monitor if there is one. */
    method Shutdown()
      modifies this, monitor
      ensures monitor == old(monitor)
      ensures monitor != null ==> !monitor.running
    {
      if monitor != null {
        monitor.Stop();
      }
    }

    /** `read_root`. */
    function Root(): (r: RootInfo)
      reads this, monitor
      ensures r.status == "running" && r.rtspUrl == rtspUrl
      ensures r.mode == "RTSP Active" <==> monitor != null && monitor.running
      ensures r.mode == "Passive" <==> !(monitor != null && monitor.running)
    {
      RootInfo("running", if monitor != null && monitor.running then "RTSP Active" else "Passive", rtspUrl)
    }
  }

  /** A configured server reports "RTSP Active" right after startup, an
      unconfigured one "Passive", and both report "Passive" after shutdown. */
  method LifespanModes(rtspUrl: Option<string>) returns (atStart: RootInfo, atEnd: RootInfo)
    ensures atStart.mode == (if Configured(rtspUrl) then "RTSP Active" else "Passive")
    ensures atEnd.mode == "Passive"
  {
    var app := new App(rtspUrl);
    app.Startup();
    atStart := app.Root();
    app.Shutdown();
    atEnd := app.Root();
  }
}
