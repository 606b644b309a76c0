/**
 * The merge step of `_process_plate_data`: the upstream printable-objects
 * mapping (identifier to display name, in the dictionary's insertion order)
 * joined with the analyser's box map.  Dictionaries whose order matters are
 * sequences of (key, value) pairs.
 */
module PlateObjects {
  import opened Wrappers
  import opened BoundingBoxes

  /** One published object: `{"name": ..., "bbox": [...]}`, the box being optional. */
  datatype ObjectData = ObjectData(name: Option<string>, bbox: Option<BBox>)

  function Keys<V>(entries: seq<(string, V)>): (ks: seq<string>)
    ensures |ks| == |entries|
    ensures forall i :: 0 <= i < |entries| ==> ks[i] == entries[i].0
  {
    if entries == [] then [] else [entries[0].0] + Keys(entries[1..])
  }

  /** No key occurs twice, as in a dictionary. */
  predicate DistinctKeys<V>(entries: seq<(string, V)>)
  {
    forall i, j :: 0 <= i < j < |entries| ==> entries[i].0 != entries[j].0
  }

  /** `d.get(key)` on a dictionary given by its items. */
  function Lookup<V>(entries: seq<(string, V)>, key: string): (r: Option<V>)
    ensures r.None? <==> key !in Keys(entries)
  {
    if entries == [] then None
    else if entries[0].0 == key then Some(entries[0].1)
    else Lookup(entries[1..], key)
  }

  /** `bboxes.get(key)`. */
  function BoxOf(bboxes: map<string, BBox>, key: string): Option<BBox>
  {
    if key in bboxes then Some(bboxes[key]) else None
  }

  /** The record the merge builds for one named object. */
  function MergedEntry(entry: (string, string), bboxes: map<string, BBox>): (string, ObjectData)
  {
    (entry.0, ObjectData(Some(entry.1), BoxOf(bboxes, entry.0)))
  }

  /** The merged dictionary, entry by entry in the name map's order. */
  function Merged(names: seq<(string, string)>, bboxes: map<string, BBox>): (merged: seq<(string, ObjectData)>)
    ensures |merged| == |names|
  {
    if names == [] then [] else [MergedEntry(names[0], bboxes)] + Merged(names[1..], bboxes)
  }

  /**
   * Position by position, the merged map has the name map's key, that
   * key's name, and a box exactly when the analyser found one for it.
   */
  lemma {:induction false} MergedAt(names: seq<(string, string)>, bboxes: map<string, BBox>, i: int)
    requires 0 <= i < |names|
    ensures Merged(names, bboxes)[i].0 == names[i].0
    ensures Merged(names, bboxes)[i].1.name == Some(names[i].1)
    ensures Merged(names, bboxes)[i].1.bbox.Some? <==> names[i].0 in bboxes
    ensures names[i].0 in bboxes ==> Merged(names, bboxes)[i].1.bbox == Some(bboxes[names[i].0])
  {
    if i > 0 {
      MergedAt(names[1..], bboxes, i - 1);
    }
  }

  /** The merged keys are exactly the name-map keys, in the same order. */
  lemma MergedKeys(names: seq<(string, string)>, bboxes: map<string, BBox>)
    ensures Keys(Merged(names, bboxes)) == Keys(names)
  {
    forall i | 0 <= i < |names| ensures Keys(Merged(names, bboxes))[i] == Keys(names)[i] {
      MergedAt(names, bboxes, i);
    }
  }

  /**
   * The merge as a dictionary: an identifier is present exactly when it is
   * named, carries its name, and carries the analyser's box exactly when
   * there is one.  Identifiers that only the analyser saw are dropped.
   */
  lemma {:induction false} MergedLookup(names: seq<(string, string)>, bboxes: map<string, BBox>, id: string)
    ensures Lookup(Merged(names, bboxes), id) ==
      match Lookup(names, id)
      case None => None
      case Some(name) => Some(ObjectData(Some(name), BoxOf(bboxes, id)))
  {
    if names != [] {
      MergedLookup(names[1..], bboxes, id);
    }
  }

  /** Merging keeps the keys distinct when the name map's keys are. */
  lemma MergedDistinct(names: seq<(string, string)>, bboxes: map<string, BBox>)
    requires DistinctKeys(names)
    ensures DistinctKeys(Merged(names, bboxes))
  {
    MergedKeys(names, bboxes);
    var ks := Keys(Merged(names, bboxes));
    forall i, j | 0 <= i < j < |Merged(names, bboxes)|
      ensures Merged(names, bboxes)[i].0 != Merged(names, bboxes)[j].0
    {
      assert ks[i] == Merged(names, bboxes)[i].0 && ks[j] == Merged(names, bboxes)[j].0;
      assert Keys(names)[i] == names[i].0 && Keys(names)[j] == names[j].0;
    }
  }

  /** Every box in the merged map is one the analyser produced for that identifier. */
  lemma MergedBoxesFromAnalysis(names: seq<(string, string)>, bboxes: map<string, BBox>, i: int)
    requires 0 <= i < |Merged(names, bboxes)|
    requires Merged(names, bboxes)[i].1.bbox.Some?
    ensures Merged(names, bboxes)[i].0 in bboxes
    ensures Merged(names, bboxes)[i].1.bbox.value == bboxes[Merged(names, bboxes)[i].0]
  {
    MergedAt(names, bboxes, i);
  }

  /**
   * The merge loop: `merged[identify_id] = {"name": name}` plus the box when
   * `identify_id in bboxes`, for each item of the name map in order.
   */
  method Merge(names: seq<(string, string)>, bboxes: map<string, BBox>)
    returns (merged: seq<(string, ObjectData)>)
    ensures merged == Merged(names, bboxes)
    ensures |merged| == |names| && Keys(merged) == Keys(names)
  {
    merged := [];
    var i := 0;
    while i < |names|
      invariant 0 <= i <= |names|
      invariant merged == Merged(names[..i], bboxes)
    {
      var (identifyId, name) := names[i];
      var objData := ObjectData(Some(name), None);
      if identifyId in bboxes {
        objData := objData.(bbox := Some(bboxes[identifyId]));
      }
      MergedSnoc(names[..i], names[i], bboxes);
      assert names[..i + 1] == names[..i] + [names[i]];
      merged := merged + [(identifyId, objData)];
      i := i + 1;
    }
    assert names[..i] == names;
    MergedKeys(names, bboxes);
  }

  lemma {:induction false} MergedSnoc(names: seq<(string, string)>, entry: (string, string), bboxes: map<string, BBox>)
    ensures Merged(names + [entry], bboxes) == Merged(names, bboxes) + [MergedEntry(entry, bboxes)]
  {
    if names == [] {
      assert [entry][1..] == [];
    } else {
      assert (names + [entry])[1..] == names[1..] + [entry];
      MergedSnoc(names[1..], entry, bboxes);
    }
  }

  /**
   * Name map {"7": "Gizmo"} with boxes for "7" and "9": only "7" survives,
   * with its box.
   */
  lemma MergeExample()
    ensures Merged([("7", "Gizmo")], map["7" := BBox(1, 1, 2, 2), "9" := BBox(0, 0, 1, 1)])
      == [("7", ObjectData(Some("Gizmo"), Some(BBox(1, 1, 2, 2))))]
  {
  }
}
