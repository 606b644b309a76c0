# Bambu plate analyzer — verified model

This project models the core of the Home Assistant integration *Bambu Plate
Analyzer*, written in Dafny. The integration reads the printer's pick image, in which
every printable object is painted in a colour that encodes its identify id.
It computes one bounding box per id. It then merges those boxes with the
object names from the printable-objects entity. It publishes the result as a
sensor:

- the state is the number of objects;
- the attributes are the image size, the merged objects and a compact
  `bbox_data` line (`id:name:min_x,min_y,max_x,max_y|id:name:|...`) for an
  ESPHome display.

Modules, one per concern of `custom_components/bambu_plate_analyzer/sensor.py`:

- `Decimal` (decimal.dfy) renders Python's `str` of a non-negative integer,
  with its parser as the inverse.
- `ColourId` (colour_id.dfy) maps a colour to its identify id. It writes two
  upper-case hex digits per channel in B, G, R order, reads them as one hex
  number and renders that number in decimal. It proves that this equals
  `B*65536 + G*256 + R`, which is below 2^24 and injective on RGB.
- `BoundingBoxes` (bounding_boxes.dfy) holds `compute_bounding_boxes` as a
  method. Its two nested loops run over a `array2<Pixel>` grid indexed
  `[x, y]`, with the box map and the colour cache as local maps. The
  method is proved equal to a row-major fold, `Scan`. The fold is then
  characterised outright:
  - every opaque pixel of an id lies in that id's box;
  - each of the box's four bounds is attained by such a pixel;
  - hence boxes are the unique min/max boxes, within the image, and exist
    exactly for ids that have an opaque pixel.
- `PlateObjects` (plate_objects.dfy) holds the merge loop of
  `_process_plate_data`. Dictionaries whose insertion order matters are
  sequences of `(key, value)` pairs.
- `BBoxLine` (bbox_line.dfy) holds the `bbox_data` format, and a parser
  whose round trip with the serialiser is proved.
- `Sensor` (sensor.dfy) holds the sensor entity as a class. Its fields are
  `objectCount`, `objects`, `imageWidth` and `imageHeight`. It has the
  `native_value`, `extra_state_attributes` and `_bbox_data_serialized`
  properties and the update `_process_plate_data`. The class invariant
  `Valid` says three things:
  - the count equals the number of objects;
  - ids are distinct;
  - every box lies inside the published image size.
- `Wrappers` (wrappers.dfy) holds `Option`.

The fetch of the pick image is an input, `FetchOutcome`:

- `NoImage`: no bytes arrived.
- `AnalysisError`: the bytes could not be decoded or analysed, that is,
  `compute_bounding_boxes` raised.
- `Decoded(pixels)`: the decoded RGBA grid.

## Model

| member | source | states |
|---|---|---|
| Decimal.Render | custom_components/bambu_plate_analyzer/sensor.py:54 | `str(n)`: a non-empty string of decimal digits with no leading zero unless n is 0 |
| Decimal.ValueOfRender | custom_components/bambu_plate_analyzer/sensor.py:54 | reading the rendered digits back gives the number |
| Decimal.RenderInjective | custom_components/bambu_plate_analyzer/sensor.py:54 | two numbers render alike exactly when they are equal |
| ColourId.Hex2 | custom_components/bambu_plate_analyzer/sensor.py:54 | `{v:02X}` is exactly two hex digits |
| ColourId.HexValueOfHex2 | custom_components/bambu_plate_analyzer/sensor.py:54 | the two hex digits of a byte denote that byte |
| ColourId.PackedIdIsBgr | custom_components/bambu_plate_analyzer/sensor.py:53-54 | the hex number read from the B, G, R digits is `b*65536 + g*256 + r`, below 2^24 |
| ColourId.IdentifyIdInjective | custom_components/bambu_plate_analyzer/sensor.py:53-54 | two colours get the same identify id exactly when their RGB channels agree (alpha is ignored) |
| ColourId.IdentifyIdExample | custom_components/bambu_plate_analyzer/sensor.py:54 | r=0x12, g=0x34, b=0x56 packs to 0x563412 and has id "5649426" |
| BoundingBoxes.WidenIsSmallest | custom_components/bambu_plate_analyzer/sensor.py:58-67 | widening a box by a pixel gives the smallest box that encloses both the old box and the pixel |
| BoundingBoxes.ScanToBoxes | custom_components/bambu_plate_analyzer/sensor.py:40-69 | after any row-major prefix, the fold's map holds exactly the min/max boxes of the opaque pixels scanned so far, one per id |
| BoundingBoxes.ScanIsBoxMap | custom_components/bambu_plate_analyzer/sensor.py:40-69 | the full scan's map is the min/max box map of the whole image |
| BoundingBoxes.BoxWithinImage | custom_components/bambu_plate_analyzer/sensor.py:40-41 | in a box map, every box has min <= max < width (x) and min <= max < height (y) |
| BoundingBoxes.BoxMapKeys | custom_components/bambu_plate_analyzer/sensor.py:45-47 | an id has a box if and only if some opaque pixel has that id |
| BoundingBoxes.TransparentImageHasNoBoxes | custom_components/bambu_plate_analyzer/sensor.py:45-47 | an image whose pixels all have alpha 0 gives an empty box map |
| BoundingBoxes.BoxMapUnique | custom_components/bambu_plate_analyzer/sensor.py:57-69 | an image has only one box map, so the analysis is deterministic |
| BoundingBoxes.CacheToAgrees | custom_components/bambu_plate_analyzer/sensor.py:49-55 | at every position of the scan, each colour in the cache maps to the identify id computed afresh from that colour |
| BoundingBoxes.ComputeBoundingBoxes | custom_components/bambu_plate_analyzer/sensor.py:24-75 | returns the grid's width and height, and a box map equal to the cache-free fold `Scan`, so the colour cache does not change the result |
| PlateObjects.MergedAt | custom_components/bambu_plate_analyzer/sensor.py:306-310 | entry i of the merge has the i-th name-map id and its name, and a box if and only if the analysis has one for that id, that box |
| PlateObjects.MergedKeys | custom_components/bambu_plate_analyzer/sensor.py:305-310 | the merged ids are the name-map ids in the same order; ids that only the analysis saw are dropped |
| PlateObjects.MergedLookup | custom_components/bambu_plate_analyzer/sensor.py:305-310 | looking an id up in the merge gives None for an unnamed id, otherwise its name and the analysis box when there is one |
| PlateObjects.MergedDistinct | custom_components/bambu_plate_analyzer/sensor.py:305-310 | the merge has distinct ids when the name map does |
| PlateObjects.MergedBoxesFromAnalysis | custom_components/bambu_plate_analyzer/sensor.py:308-309 | every box in the merge is the analysis box of that entry's id |
| PlateObjects.Merge | custom_components/bambu_plate_analyzer/sensor.py:302-310 | the loop builds exactly the merged sequence, with as many entries as names and the same ids |
| PlateObjects.MergeExample | custom_components/bambu_plate_analyzer/sensor.py:304-310 | names {"7": "Gizmo"} with boxes for "7" and "9" give only "7", with its box |
| BBoxLine.ParseBoxText | custom_components/bambu_plate_analyzer/sensor.py:164 | the text `x0,y0,x1,y1` parses back to the box and holds no a colon or a bar |
| BBoxLine.SplitJoin | custom_components/bambu_plate_analyzer/sensor.py:168 | splitting a bar-joined line gives back the parts when no part holds the separator |
| BBoxLine.ParseSerialize | custom_components/bambu_plate_analyzer/sensor.py:150-168 | parsing the line gives every object in order, with its id, its name (or "" if missing) and its box, when no id or name holds a colon or a bar |
| BBoxLine.SerializeEmpty | custom_components/bambu_plate_analyzer/sensor.py:156-157 | the line is empty exactly when there are no objects |
| BBoxLine.SerializeExampleWithBox | custom_components/bambu_plate_analyzer/sensor.py:163-165 | a "7"/"Gizmo" object with box (1,1,2,2) gives "7:Gizmo:1,1,2,2" |
| BBoxLine.SerializeExampleWithoutBox | custom_components/bambu_plate_analyzer/sensor.py:166-167 | a "7"/"Gizmo" object with no box gives "7:Gizmo:" |
| BBoxLine.SerializeExampleTwo | custom_components/bambu_plate_analyzer/sensor.py:159-168 | two objects are joined by a bar in order |
| BBoxLine.SerializeExampleNoName | custom_components/bambu_plate_analyzer/sensor.py:160 | an object without a name is written with an empty name: "3::0,0,3,4" |
| Sensor.MergedWithinImage | custom_components/bambu_plate_analyzer/sensor.py:302-315 | merging names with an image's box map gives distinct ids and boxes inside the image |
| Sensor.PublishedBox | custom_components/bambu_plate_analyzer/sensor.py:302-315 | after an update, a named object has a box if and only if some opaque pixel has its id, and the box is the tightest one around those pixels |
| Sensor.PlateAnalyzerSensor.constructor | custom_components/bambu_plate_analyzer/sensor.py:129-133 | a new sensor publishes no objects, a count of 0 and a 0 x 0 image, and satisfies the invariant |
| Sensor.PlateAnalyzerSensor.NativeValue | custom_components/bambu_plate_analyzer/sensor.py:135-138 | the state is the number of published objects |
| Sensor.PlateAnalyzerSensor.BBoxDataSerialized | custom_components/bambu_plate_analyzer/sensor.py:150-168 | the loop builds exactly the `bbox_data` line of the published objects |
| Sensor.PlateAnalyzerSensor.ExtraStateAttributes | custom_components/bambu_plate_analyzer/sensor.py:140-148 | the attributes are the image size, the objects and their `bbox_data` line |
| Sensor.PlateAnalyzerSensor.ProcessPlateData | custom_components/bambu_plate_analyzer/sensor.py:274-315 | an empty or missing name map clears the state. A missing image or a failed analysis leaves the state as it was. Otherwise the state becomes the merge of the names with the image's box map, a count of the number of names, and the image size. The invariant holds after each of these |

## Left out

- Decoding the image (`Image.open`, `image.size`, `image.load`, custom_components/bambu_plate_analyzer/sensor.py:32-34) is done by Pillow. The model takes the decoded grid as an input. A decode failure, or a pixel format other than four channels (which makes the unpacking at line 43 raise), is `FetchOutcome.AnalysisError`.
- `convert_to_jpeg` (custom_components/bambu_plate_analyzer/sensor.py:78-90) and storing the JPEG with its timestamp (custom_components/bambu_plate_analyzer/sensor.py:317-326) are left out. They are image encoding and clock access, with no effect on the sensor's state.
- Home Assistant plumbing is left out: entity setup, the state listeners, resolving the entity ids and `_async_get_pick_image` (custom_components/bambu_plate_analyzer/sensor.py:170-272). Every way of getting no image is `FetchOutcome.NoImage`.
- `async_write_ha_state`, logging, and the `assert` on the image entity id (custom_components/bambu_plate_analyzer/sensor.py:287) are not modelled.
- Concurrency between overlapping updates is not modelled. Updates are taken one at a time.
- image.py and config_flow.py are not part of this model.
- Sensor.PlateAnalyzerSensor.ProcessPlateData: the name map is a sequence of (id, name) pairs. Its keys are required to be distinct, as a dictionary's always are. Names are strings; a Python `str()` of non-string name values is not modelled.
- Sensor.PlateAnalyzerSensor.ProcessPlateData: the box lists are values. Sharing one list between the analysis result and the merged objects is not modelled; nothing mutates them after the merge, so the sharing cannot be observed.
- BBoxLine.ParseSerialize: the round trip is stated only for ids and names without `:` or `|`. The format does no escaping, so a name holding either character makes the line ambiguous to its reader.
- Sensor.PlateAnalyzerSensor.BBoxDataSerialized: a box is written whenever an object has one. This matches the source, because a box list always has four elements and so is never falsy.
