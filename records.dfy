/** The records the detection pipeline produces: a detector hit, the
    persisted `DetectionLog` row, and the `detection_alert` message fanned
    out to viewers. Both the HTTP predict endpoint and the stream monitor
    build them the same way. */
module Records {
  import opened Outcomes

  /** One detector hit: class label, confidence and box. */
  datatype Detection = Detection(cls: string, confidence: real, bbox: seq<real>)

  /** A `DetectionLog` row. `id` is None until the database assigns it on
      commit; `timestamp` is the ISO-8601 text of the creation time. */
  datatype DetectionLog = DetectionLog(
    id: Option<int>,
    timestamp: string,
    objectClass: string,
    confidence: real,
    imageUrl: string,
    isAlert: bool)

  /** The broadcast message: `{"type", "id", "timestamp", "top_object",
      "conf", "image_url"}`. */
  datatype AlertMessage = AlertMessage(
    kind: string,
    id: int,
    timestamp: string,
    topObject: string,
    conf: real,
    imageUrl: string)

  const AlertKind := "detection_alert"
  const ImagesDir := "static/images/"

  /** A new, not yet persisted row. `imageUrl` is None when the caller does
      not pass one; `createdAt` is the clock reading the default factory
      takes (UTC + 8 hours). */
  function NewDetectionLog(objectClass: string, confidence: real, imageUrl: Option<string>,
                           createdAt: string): (log: DetectionLog)
    ensures log.id == None
    ensures log.isAlert
    ensures imageUrl == None ==> log.imageUrl == ""
    ensures imageUrl.Some? ==> log.imageUrl == imageUrl.value
    ensures log.objectClass == objectClass && log.confidence == confidence
    ensures log.timestamp == createdAt
  {
    DetectionLog(None, createdAt, objectClass, confidence,
                 match imageUrl case Some(u) => u case None => "", true)
  }

  /** The row a commit plus refresh yields: the database's id filled in,
      everything else as it was. */
  function Committed(log: DetectionLog, id: int): (stored: DetectionLog)
    ensures stored.id == Some(id)
    ensures stored.(id := log.id) == log
  {
    log.(id := Some(id))
  }

  /** Where an annotated image is written, relative to the working
      directory, and the URL under which the static mount serves it. */
  function SavePath(filename: string): string
  {
    ImagesDir + filename
  }

  function ImageUrl(filename: string): (url: string)
    ensures url == "/" + SavePath(filename)
  {
    "/static/images/" + filename
  }

  /** The alert for a committed row and the top detection it records. */
  function AlertFor(stored: DetectionLog, top: Detection): (m: AlertMessage)
    requires stored.id.Some?
    ensures m.kind == AlertKind
    ensures m.id == stored.id.value && m.timestamp == stored.timestamp
    ensures m.topObject == top.cls && m.conf == top.confidence
    ensures m.imageUrl == stored.imageUrl
  {
    AlertMessage(AlertKind, stored.id.value, stored.timestamp, top.cls, top.confidence, stored.imageUrl)
  }
}
