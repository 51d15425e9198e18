/** The records that travel along the pipeline. */
module Types {

  datatype Option<+T> = None | Some(value: T)

  /** A box by its top-left corner and its size, in pixels. */
  datatype BBox = BBox(x: real, y: real, w: real, h: real)

  /** trackId is -1 until the tracker has named the object. */
  datatype Detection = Detection(
    frame: int,
    timestamp: real,
    classId: int,
    confidence: real,
    bbox: BBox,
    trackId: int)

  /** The detections of one frame; a list that grows at the end and whose
      entries are overwritten in place. */
  class DetectionList {
    var items: seq<Detection>

    constructor ()
      ensures items == []
    {
      items := [];
    }

    method Add(det: Detection)
      modifies this
      ensures items == old(items) + [det]
    {
      items := items + [det];
    }
  }
}
