/**
 * The plate analyzer sensor entity: its published state (object count,
 * merged objects, image dimensions), the properties Home Assistant reads,
 * and the update run when the printable-objects entity changes.
 */
module Sensor {
  import opened Wrappers
  import opened ColourId
  import opened BoundingBoxes
  import opened PlateObjects
  import opened BBoxLine

  /** What fetching and analysing the pick image produced. */
  datatype FetchOutcome =
    | NoImage                           // the image entity gave no bytes
    | AnalysisError                     // decoding or analysing the bytes raised
    | Decoded(pixels: array2<Pixel>)    // the bytes decoded to this RGBA grid

  /** The `extra_state_attributes` dictionary. */
  datatype Attributes = Attributes(
    imageWidth: nat,
    imageHeight: nat,
    objects: seq<(string, ObjectData)>,
    bboxData: string)

  /** Every box in the merged objects lies inside a `width` x `height` image. */
  predicate BoxesWithin(objects: seq<(string, ObjectData)>, width: nat, height: nat)
  {
    forall i :: 0 <= i < |objects| && objects[i].1.bbox.Some? ==>
      WithinImage(objects[i].1.bbox.value, width, height)
  }

  /**
   * Merging a name map with an image's box map gives distinct identifiers
   * and boxes inside the image.
   */
  lemma MergedWithinImage(img: array2<Pixel>, names: seq<(string, string)>)
    requires DistinctKeys(names)
    ensures DistinctKeys(Merged(names, Scan(img)))
    ensures BoxesWithin(Merged(names, Scan(img)), img.Length0, img.Length1)
  {
    var m := Scan(img);
    ScanIsBoxMap(img);
    MergedDistinct(names, m);
    forall i | 0 <= i < |Merged(names, m)| && Merged(names, m)[i].1.bbox.Some?
      ensures WithinImage(Merged(names, m)[i].1.bbox.value, img.Length0, img.Length1)
    {
      MergedBoxesFromAnalysis(names, m, i);
      BoxWithinImage(img, m, Merged(names, m)[i].0);
    }
  }

  /**
   * End to end: after an update from a decoded image, a named object carries
   * a box exactly when some opaque pixel has its identifier, and then the box
   * is the tightest one around all such pixels.
   */
  lemma PublishedBox(img: array2<Pixel>, names: seq<(string, string)>, i: int)
    requires 0 <= i < |names|
    ensures Merged(names, Scan(img))[i].0 == names[i].0
    ensures Merged(names, Scan(img))[i].1.bbox.Some? <==>
      exists px, py :: Marks(img, img.Length1, 0, names[i].0, px, py)
    ensures Merged(names, Scan(img))[i].1.bbox.Some? ==>
      var b := Merged(names, Scan(img))[i].1.bbox.value;
      (forall px, py :: Marks(img, img.Length1, 0, names[i].0, px, py) ==> InBox(b, px, py)) &&
      Attained(img, img.Length1, 0, names[i].0, b)
  {
    MergedAt(names, Scan(img), i);
    ScanIsBoxMap(img);
    BoxMapKeys(img, Scan(img), names[i].0);
  }

  class PlateAnalyzerSensor {
    var objectCount: int
    var objects: seq<(string, ObjectData)>
    var imageWidth: nat
    var imageHeight: nat

    /** The count is the number of objects, which have distinct identifiers and boxes inside the image. */
    ghost predicate Valid()
      reads this
    {
      objectCount == |objects| && DistinctKeys(objects) && BoxesWithin(objects, imageWidth, imageHeight)
    }

    /** A new sensor publishes nothing. */
    constructor ()
      ensures Valid()
      ensures objectCount == 0 && objects == [] && imageWidth == 0 && imageHeight == 0
    {
      objectCount := 0;
      objects := [];
      imageWidth := 0;
      imageHeight := 0;
    }

    /** `native_value`: the number of objects currently published. */
    function NativeValue(): (count: int)
      reads this
      ensures Valid() ==> count == |objects|
    {
      objectCount
    }

    /** `_bbox_data_serialized`, built part by part. */
    method BBoxDataSerialized() returns (line: string)
      ensures line == Serialize(objects)
    {
      if |objects| == 0 {
        return "";
      }
      var parts: seq<string> := [];
      var i := 0;
      while i < |objects|
        invariant 0 <= i <= |objects|
        invariant parts == EntryTexts(objects[..i])
      {
        var (identifyId, objData) := objects[i];
        var name := GetOr(objData.name, "");
        var part;
        match objData.bbox {
          case Some(bbox) =>
            part := identifyId + ":" + name + ":" + BoxText(bbox);
          case None =>
            part := identifyId + ":" + name + ":";
        }
        assert part == EntryText(identifyId, objData);
        EntryTextsPrefix(objects, i);
        parts := parts + [part];
        i := i + 1;
      }
      assert objects[..i] == objects;
      line := Join(parts, '|');
    }

    /** `extra_state_attributes`. */
    method ExtraStateAttributes() returns (attrs: Attributes)
      ensures attrs == Attributes(imageWidth, imageHeight, objects, Serialize(objects))
    {
      var bboxData := BBoxDataSerialized();
      attrs := Attributes(imageWidth, imageHeight, objects, bboxData);
    }

    /**
     * `_process_plate_data`.  `objectsAttr` is the `objects` attribute of the
     * printable-objects state, absent meaning empty.  An empty name map
     * clears the published state; a missing image or a failed analysis
     * leaves it as it was; otherwise the state becomes the merge of the
     * name map with the image's boxes, and the image's dimensions.
     */
    method ProcessPlateData(objectsAttr: Option<seq<(string, string)>>, fetched: FetchOutcome)
      requires Valid()
      requires DistinctKeys(GetOr(objectsAttr, []))
      modifies this
      ensures Valid()
      ensures GetOr(objectsAttr, []) == [] ==>
        objectCount == 0 && objects == [] && imageWidth == 0 && imageHeight == 0
      ensures GetOr(objectsAttr, []) != [] && !fetched.Decoded? ==>
        objectCount == old(objectCount) && objects == old(objects) &&
        imageWidth == old(imageWidth) && imageHeight == old(imageHeight)
      ensures GetOr(objectsAttr, []) != [] && fetched.Decoded? ==>
        objects == Merged(GetOr(objectsAttr, []), Scan(fetched.pixels)) &&
        objectCount == |GetOr(objectsAttr, [])| &&
        imageWidth == fetched.pixels.Length0 && imageHeight == fetched.pixels.Length1
    {
      var names := GetOr(objectsAttr, []);
      if names == [] {
        objectCount := 0;
        objects := [];
        imageWidth := 0;
        imageHeight := 0;
        return;
      }
      match fetched {
        case NoImage =>
          return;
        case AnalysisError =>
          return;
        case Decoded(pixels) =>
          var result := ComputeBoundingBoxes(pixels);
          var merged := Merge(names, result.bboxes);
          MergedWithinImage(pixels, names);
          objectCount := |merged|;
          objects := merged;
          imageWidth := result.imageWidth;
          imageHeight := result.imageHeight;
      }
    }
  }
}
