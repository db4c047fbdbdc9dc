/** The index page of the WeChat mini-program: it shows the socket status,
    the latest alert and the detection history. Each `wx` callback is a
    method of the page; the parsed socket payload and the history response
    body are their inputs. Timers are not modelled as time: an alert
    reports that it scheduled the history refresh and the reset, and the
    reset is its own method. */
module MiniProgram {
  import opened Outcomes
  import opened Text
  import opened Json
  import opened Records

  const ServerIp := "192.168.219.78:8000"
  const WsUrl := "ws://" + ServerIp + "/ws"
  const ApiUrl := "http://" + ServerIp + "/history"
  const StaticBaseUrl := "http://" + ServerIp

  const Monitoring := "监控正常"
  const UnknownTarget := "未知目标"
  const NoClock := "--:--:--"

  /** `fetchHistory`'s cache-busting URL for clock reading `now`
      (milliseconds since the epoch). */
  function HistoryRequestUrl(now: nat): (url: string)
    ensures |url| > |ApiUrl| + 3 && url[..|ApiUrl| + 3] == ApiUrl + "?t="
    ensures forall i :: |ApiUrl| + 3 <= i < |url| ==> IsDigit(url[i])
    ensures DigitsValue(url[|ApiUrl| + 3..]) == now
  {
    DigitsRoundTrip(now);
    var url := ApiUrl + "?t=" + IntToString(now);
    assert url[|ApiUrl| + 3..] == NatToString(now);
    url
  }

  /** What an alert message puts on the page. */
  datatype Alert = Alert(targetName: Json, confidence: Json, alertImage: string)

  /** The `onSocketMessage` decision: None when parsing failed, when the
      payload is `null` (reading `data.type` throws), or when it is neither
      typed "detection_alert" nor carries truthy `detections`. */
  function ReadAlert(parsed: Result<Json>): (r: Option<Alert>)
    ensures r.Some? <==>
              parsed.Ok? && !parsed.value.Null? && !parsed.value.Undefined?
              && (JsGet(parsed.value, "type") == Ok(Str(AlertKind))
                  || JsTruthy(JsGet(parsed.value, "detections").value))
    ensures r.Some? ==>
              var data := parsed.value;
              r.value.targetName == JsOr(JsGet(data, "top_object").value, Str(UnknownTarget))
              && r.value.confidence == JsOr(JsGet(data, "conf").value, Str("0.0"))
              && r.value.alertImage == StaticBaseUrl + JsToString(JsGet(data, "image_url").value)
  {
    if parsed.Raised? then None
    else
      var data := parsed.value;
      var kind := JsGet(data, "type");
      if kind.Raised? then None
      else if kind.value == Str(AlertKind) || JsTruthy(JsGet(data, "detections").value) then
        Some(Alert(
          JsOr(JsGet(data, "top_object").value, Str(UnknownTarget)),
          JsOr(JsGet(data, "conf").value, Str("0.0")),
          StaticBaseUrl + JsToString(JsGet(data, "image_url").value)))
      else None
  }

  /** The server's alert as the socket carries it; `idText` and `confText`
      are how the page's JavaScript renders the two numbers. */
  function AlertJson(m: AlertMessage, idText: string, confText: string): Json
  {
    Obj(map[
      "type" := Str(m.kind),
      "id" := Num(m.id as real, idText),
      "timestamp" := Str(m.timestamp),
      "top_object" := Str(m.topObject),
      "conf" := Num(m.conf, confText),
      "image_url" := Str(m.imageUrl)])
  }

  /** Every alert the server broadcasts is shown: its class (or the
      placeholder for an empty one), its confidence (or "0.0" for zero) and
      its image under the server's static base URL. */
  lemma ServerAlertShown(m: AlertMessage, idText: string, confText: string)
    requires m.kind == AlertKind
    ensures ReadAlert(Ok(AlertJson(m, idText, confText))) == Some(Alert(
              if m.topObject != "" then Str(m.topObject) else Str(UnknownTarget),
              if m.conf != 0.0 then Num(m.conf, confText) else Str("0.0"),
              StaticBaseUrl + m.imageUrl))
  {
    var data := AlertJson(m, idText, confText);
    assert JsGet(data, "type") == Ok(Str(AlertKind));
    assert JsGet(data, "top_object") == Ok(Str(m.topObject));
    assert JsGet(data, "conf") == Ok(Num(m.conf, confText));
    assert JsGet(data, "image_url") == Ok(Str(m.imageUrl));
  }

  /** A message without the alert type and without `detections` changes
      nothing, whatever else it carries. */
  lemma PlainMessageIgnored(fields: map<string, Json>)
    requires "type" !in fields && "detections" !in fields
    ensures ReadAlert(Ok(Obj(fields))) == None
  {
    assert JsGet(Obj(fields), "type") == Ok(Undefined);
    assert JsGet(Obj(fields), "detections") == Ok(Undefined);
  }

  /** `item.timestamp.substring(11, 19)`, or the placeholder for a falsy
      timestamp; a truthy timestamp that is not a string has no
      `substring` and throws. */
  function ShortTime(timestamp: Json): (r: Result<string>)
    ensures !JsTruthy(timestamp) ==> r == Ok(NoClock)
    ensures JsTruthy(timestamp) && !timestamp.Str? ==> r.Raised?
    ensures timestamp.Str? && |timestamp.s| >= 19 ==> r == Ok(timestamp.s[11..19])
    ensures timestamp.Str? && |timestamp.s| <= 11 && timestamp.s != "" ==> r == Ok("")
    ensures timestamp.Str? && 11 <= |timestamp.s| <= 19 ==> r == Ok(timestamp.s[11..])
  {
    if !JsTruthy(timestamp) then Ok(NoClock)
    else if !timestamp.Str? then Raised("TypeError")
    else Ok(Substring(timestamp.s, 11, 19))
  }

  function Field(fields: map<string, Json>, key: string): Json
  {
    if key in fields then fields[key] else Undefined
  }

  /** The `map` callback for one history entry: the entry itself with
      `shortTime` set and, when `image_url` is truthy, `fullImageUrl`.
      An array entry has no `timestamp` or `image_url`; it gains a
      `shortTime` property that JSON cannot carry, so it reaches the page
      unchanged. `null` and `undefined` throw on the property read;
      strings, numbers and booleans throw on the property write (strict
      mode). */
  function HistoryItem(item: Json): (r: Result<Json>)
    ensures r.Ok? <==> item.Arr? || (item.Obj? && ShortTime(Field(item.fields, "timestamp")).Ok?)
    ensures item.Arr? ==> r == Ok(item)
    ensures r.Ok? && item.Obj? ==> r.value.Obj?
    ensures r.Ok? && item.Obj? ==>
              r.value.fields.Keys == item.fields.Keys + {"shortTime"}
                + (if JsTruthy(Field(item.fields, "image_url")) then {"fullImageUrl"} else {})
    ensures r.Ok? && item.Obj? ==>
              forall k :: k in item.fields && k != "shortTime" && k != "fullImageUrl" ==>
                r.value.fields[k] == item.fields[k]
    ensures r.Ok? && item.Obj? ==>
              r.value.fields["shortTime"] == Str(ShortTime(Field(item.fields, "timestamp")).value)
    ensures r.Ok? && item.Obj? && JsTruthy(Field(item.fields, "image_url")) ==>
              r.value.fields["fullImageUrl"] == Str(StaticBaseUrl + JsToString(Field(item.fields, "image_url")))
    ensures r.Ok? && item.Obj? && !JsTruthy(Field(item.fields, "image_url")) ==>
              Field(r.value.fields, "fullImageUrl") == Field(item.fields, "fullImageUrl")
  {
    if item.Arr? then Ok(item)
    else if !item.Obj? then Raised("TypeError")
    else
      var short := ShortTime(Field(item.fields, "timestamp"));
      if short.Raised? then Raised(short.error)
      else
        var f1 := item.fields["shortTime" := Str(short.value)];
        var image := Field(item.fields, "image_url");
        var f2 := if JsTruthy(image) then f1["fullImageUrl" := Str(StaticBaseUrl + JsToString(image))] else f1;
        Ok(Obj(f2))
  }

  /** `res.data.map(...)`: every entry mapped in order, or the first
      entry's failure. */
  function MapItems(items: seq<Json>): Result<seq<Json>>
  {
    if items == [] then Ok([])
    else
      var front := MapItems(items[..|items| - 1]);
      if front.Raised? then front
      else
        var last := HistoryItem(items[|items| - 1]);
        if last.Raised? then Raised(last.error) else Ok(front.value + [last.value])
  }

  /** A history body `[[1, 2]]` maps to itself: the array entry passes
      through the callback unchanged. */
  lemma ArrayEntryPassesThrough()
    ensures var entry := Arr([Num(1.0, "1"), Num(2.0, "2")]);
            MapItems([entry]) == Ok([entry])
  {
    var entry := Arr([Num(1.0, "1"), Num(2.0, "2")]);
    var body := [entry];
    assert body[..0] == [];
    assert MapItems(body[..0]) == Ok([]);
    assert HistoryItem(body[0]) == Ok(entry);
    assert [] + [entry] == [entry];
  }

  /** When every entry maps, so does the list. */
  lemma {:induction false} MapItemsAllOk(items: seq<Json>)
    requires forall i :: 0 <= i < |items| ==> HistoryItem(items[i]).Ok?
    ensures MapItems(items).Ok?
  {
    if items != [] {
      var n := |items| - 1;
      assert forall i :: 0 <= i < n ==> items[..n][i] == items[i];
      MapItemsAllOk(items[..n]);
    }
  }

  /** A successful mapping keeps length and order: entry `i` of the result
      is entry `i` of the input, mapped, so every entry mapped. */
  lemma {:induction false} MapItemsValues(items: seq<Json>)
    requires MapItems(items).Ok?
    ensures |MapItems(items).value| == |items|
    ensures forall i :: 0 <= i < |items| ==>
              HistoryItem(items[i]).Ok? && MapItems(items).value[i] == HistoryItem(items[i]).value
  {
    if items != [] {
      var n := |items| - 1;
      var front := MapItems(items[..n]);
      var last := HistoryItem(items[n]);
      MapItemsValues(items[..n]);
      var v := MapItems(items).value;
      assert v == front.value + [last.value];
      forall i | 0 <= i < |items|
        ensures HistoryItem(items[i]).Ok? && v[i] == HistoryItem(items[i]).value
      {
        if i < n {
          assert items[..n][i] == items[i];
          assert v[i] == front.value[i];
        }
      }
    }
  }

  /** The mapping succeeds iff every entry maps. */
  lemma MapItemsOk(items: seq<Json>)
    ensures MapItems(items).Ok? <==> forall i :: 0 <= i < |items| ==> HistoryItem(items[i]).Ok?
  {
    if MapItems(items).Ok? {
      MapItemsValues(items);
    } else if forall i :: 0 <= i < |items| ==> HistoryItem(items[i]).Ok? {
      MapItemsAllOk(items);
    }
  }

  class IndexPage {
    var statusText: string
    var isAlarm: bool
    var targetName: Json
    var confidence: Json
    var alertImage: string
    var historyLogs: seq<Json>

    /** The page's initial `data`. */
    constructor ()
      ensures statusText == "等待连接..." && !isAlarm
      ensures targetName == Str("") && confidence == Str("") && alertImage == ""
      ensures historyLogs == []
    {
      statusText := "等待连接...";
      isAlarm := false;
      targetName := Str("");
      confidence := Str("");
      alertImage := "";
      historyLogs := [];
    }

    /** `wx.connectSocket`'s success callback. */
    method OnConnectSuccess()
      modifies this
      ensures statusText == "连接中..."
      ensures isAlarm == old(isAlarm) && targetName == old(targetName) && confidence == old(confidence)
      ensures alertImage == old(alertImage) && historyLogs == old(historyLogs)
    {
      statusText := "连接中...";
    }

    method OnSocketOpen()
      modifies this
      ensures statusText == Monitoring && !isAlarm
      ensures targetName == old(targetName) && confidence == old(confidence)
      ensures alertImage == old(alertImage) && historyLogs == old(historyLogs)
    {
      statusText := Monitoring;
      isAlarm := false;
    }

    method OnSocketClose()
      modifies this
      ensures statusText == "连接断开"
      ensures isAlarm == old(isAlarm) && targetName == old(targetName) && confidence == old(confidence)
      ensures alertImage == old(alertImage) && historyLogs == old(historyLogs)
    {
      statusText := "连接断开";
    }

    method OnSocketError()
      modifies this
      ensures statusText == "连接失败"
      ensures isAlarm == old(isAlarm) && targetName == old(targetName) && confidence == old(confidence)
      ensures alertImage == old(alertImage) && historyLogs == old(historyLogs)
    {
      statusText := "连接失败";
    }

    /** `wx.onSocketMessage` for a payload that `JSON.parse` turned into
        `parsed`. On an alert the page switches to the alarm view and
        `scheduled` says that the history refresh and the reset were
        queued; otherwise nothing changes. */
    method OnSocketMessage(parsed: Result<Json>) returns (scheduled: bool)
      modifies this
      ensures scheduled <==> ReadAlert(parsed).Some?
      ensures scheduled ==>
                var a := ReadAlert(parsed).value;
                statusText == "⚠️ 发现目标！" && isAlarm
                && targetName == a.targetName && confidence == a.confidence && alertImage == a.alertImage
      ensures !scheduled ==>
                statusText == old(statusText) && isAlarm == old(isAlarm) && targetName == old(targetName)
                && confidence == old(confidence) && alertImage == old(alertImage)
      ensures historyLogs == old(historyLogs)
    {
      var alert := ReadAlert(parsed);
      scheduled := false;
      if alert.Some? {
        statusText := "⚠️ 发现目标！";
        isAlarm := true;
        targetName := alert.value.targetName;
        confidence := alert.value.confidence;
        alertImage := alert.value.alertImage;
        scheduled := true;
      }
    }

    /** The reset five seconds after an alert: back to the monitoring
        status, keeping the last target and confidence on show. */
    method ResetAfterAlert()
      modifies this
      ensures statusText == Monitoring && !isAlarm && alertImage == ""
      ensures targetName == old(targetName) && confidence == old(confidence)
      ensures historyLogs == old(historyLogs)
    {
      statusText := Monitoring;
      isAlarm := false;
      alertImage := "";
    }

    /** `fetchHistory`'s success callback with response body `body`: only
        an array is mapped; any throw leaves the page as it was. */
    method OnHistory(body: Json)
      modifies this
      ensures body.Arr? && MapItems(body.items).Ok? ==> historyLogs == MapItems(body.items).value
      ensures !(body.Arr? && MapItems(body.items).Ok?) ==> historyLogs == old(historyLogs)
      ensures statusText == old(statusText) && isAlarm == old(isAlarm) && targetName == old(targetName)
      ensures confidence == old(confidence) && alertImage == old(alertImage)
    {
      if body.Arr? {
        var logs := MapHistory(body.items);
        if logs.Ok? {
          historyLogs := logs.value;
        }
      }
    }
  }

  /** The `map` loop, entry by entry, stopping at the first throw. */
  method MapHistory(items: seq<Json>) returns (logs: Result<seq<Json>>)
    ensures logs == MapItems(items)
  {
    var out: seq<Json> := [];
    var i := 0;
    while i < |items|
      invariant 0 <= i <= |items|
      invariant MapItems(items[..i]) == Ok(out)
    {
      assert items[..i + 1][..i] == items[..i];
      var item := HistoryItem(items[i]);
      if item.Raised? {
        assert MapItems(items[..i + 1]).Raised?;
        MapItemsStaysRaised(items, i + 1);
        return Raised(item.error);
      }
      out := out + [item.value];
      i := i + 1;
    }
    assert items[..i] == items;
    return Ok(out);
  }

  /** Once a prefix fails, the whole mapping fails with the same error. */
  lemma {:induction false} MapItemsStaysRaised(items: seq<Json>, k: nat)
    requires k <= |items| && MapItems(items[..k]).Raised?
    ensures MapItems(items) == MapItems(items[..k])
    decreases |items| - k
  {
    if k < |items| {
      assert items[..k + 1][..k] == items[..k];
      MapItemsStaysRaised(items, k + 1);
    } else {
      assert items[..k] == items;
    }
  }
}
