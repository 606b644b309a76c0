/**
 * The `bbox_data` attribute: one line `id:name:min_x,min_y,max_x,max_y`
 * per published object (the box part empty when the object has no box),
 * joined with `|`.  A parser for the same format is the partner of the
 * serialiser: reading a line back yields every identifier, name and box.
 */
module BBoxLine {
  import opened Wrappers
  import opened Decimal
  import opened BoundingBoxes
  import opened PlateObjects

  /** `sep.join(parts)`. */
  function Join(parts: seq<string>, sep: char): string
  {
    if |parts| == 0 then ""
    else if |parts| == 1 then parts[0]
    else parts[0] + [sep] + Join(parts[1..], sep)
  }

  /** `s.split(sep)`: the pieces between separators, always at least one. */
  function Split(s: string, sep: char): (pieces: seq<string>)
    ensures |pieces| >= 1
  {
    if s == [] then [""]
    else
      var rest := Split(s[1..], sep);
      if s[0] == sep then [""] + rest else [[s[0]] + rest[0]] + rest[1..]
  }

  /** The four coordinates, comma separated. */
  function BoxText(b: BBox): string
  {
    Render(b.minX) + "," + Render(b.minY) + "," + Render(b.maxX) + "," + Render(b.maxY)
  }

  /** `obj_data.get("name", "")`. */
  function NameText(d: ObjectData): string
  {
    GetOr(d.name, "")
  }

  /** The line for one object. */
  function EntryText(id: string, d: ObjectData): string
  {
    id + ":" + NameText(d) + ":" + (match d.bbox case Some(b) => BoxText(b) case None => "")
  }

  function EntryTexts(objects: seq<(string, ObjectData)>): (parts: seq<string>)
    ensures |parts| == |objects|
    ensures forall i :: 0 <= i < |objects| ==> parts[i] == EntryText(objects[i].0, objects[i].1)
  {
    if objects == [] then [] else [EntryText(objects[0].0, objects[0].1)] + EntryTexts(objects[1..])
  }

  lemma {:induction false} EntryTextsSnoc(objects: seq<(string, ObjectData)>, entry: (string, ObjectData))
    ensures EntryTexts(objects + [entry]) == EntryTexts(objects) + [EntryText(entry.0, entry.1)]
  {
  }

  lemma EntryTextsPrefix(objects: seq<(string, ObjectData)>, i: int)
    requires 0 <= i < |objects|
    ensures EntryTexts(objects[..i + 1]) == EntryTexts(objects[..i]) + [EntryText(objects[i].0, objects[i].1)]
  {
    assert objects[..i + 1] == objects[..i] + [objects[i]];
    EntryTextsSnoc(objects[..i], objects[i]);
  }

  /** `_bbox_data_serialized`: empty for no objects, else the entry lines joined by `|`. */
  function Serialize(objects: seq<(string, ObjectData)>): string
  {
    if |objects| == 0 then "" else Join(EntryTexts(objects), '|')
  }

  // ---------------------------------------------------------------- parser

  /** What a consumer of the line can recover about one object. */
  datatype Entry = Entry(id: string, name: string, bbox: Option<BBox>)

  function View(objects: seq<(string, ObjectData)>): (v: seq<Entry>)
    ensures |v| == |objects|
    ensures forall i :: 0 <= i < |objects| ==>
      v[i] == Entry(objects[i].0, NameText(objects[i].1), objects[i].1.bbox)
  {
    if objects == [] then [] else [Entry(objects[0].0, NameText(objects[0].1), objects[0].1.bbox)] + View(objects[1..])
  }

  function ParseNat(s: string): Option<nat>
  {
    if s != [] && AllDigits(s) then Some(Value(s)) else None
  }

  function ParseBox(t: string): Option<BBox>
  {
    var f := Split(t, ',');
    if |f| != 4 then None
    else match (ParseNat(f[0]), ParseNat(f[1]), ParseNat(f[2]), ParseNat(f[3]))
      case (Some(a), Some(b), Some(c), Some(d)) => Some(BBox(a, b, c, d))
      case _ => None
  }

  function ParseEntry(e: string): Option<Entry>
  {
    var f := Split(e, ':');
    if |f| != 3 then None
    else if f[2] == "" then Some(Entry(f[0], f[1], None))
    else match ParseBox(f[2])
      case Some(b) => Some(Entry(f[0], f[1], Some(b)))
      case None => None
  }

  function ParseEntries(parts: seq<string>): Option<seq<Entry>>
  {
    if parts == [] then Some([])
    else match (ParseEntry(parts[0]), ParseEntries(parts[1..]))
      case (Some(e), Some(rest)) => Some([e] + rest)
      case _ => None
  }

  function ParseLine(s: string): Option<seq<Entry>>
  {
    if s == "" then Some([]) else ParseEntries(Split(s, '|'))
  }

  // ---------------------------------------------------------------- lemmas

  lemma {:induction false} SplitNoSep(p: string, sep: char)
    requires sep !in p
    ensures Split(p, sep) == [p]
  {
    if p != [] {
      SplitNoSep(p[1..], sep);
      assert [p[0]] + p[1..] == p;
    }
  }

  /** Splitting at the first separator. */
  lemma {:induction false} SplitAt(p: string, sep: char, t: string)
    requires sep !in p
    ensures Split(p + [sep] + t, sep) == [p] + Split(t, sep)
  {
    if p == [] {
      assert p + [sep] + t == [sep] + t;
      assert ([sep] + t)[1..] == t;
    } else {
      var s := p + [sep] + t;
      assert s[0] == p[0];
      assert s[1..] == p[1..] + [sep] + t;
      SplitAt(p[1..], sep, t);
      assert [p[0]] + p[1..] == p;
    }
  }

  /** Splitting a join gives the parts back when no part holds the separator. */
  lemma {:induction false} SplitJoin(parts: seq<string>, sep: char)
    requires |parts| >= 1
    requires forall i :: 0 <= i < |parts| ==> sep !in parts[i]
    ensures Split(Join(parts, sep), sep) == parts
  {
    if |parts| == 1 {
      SplitNoSep(parts[0], sep);
    } else {
      SplitJoin(parts[1..], sep);
      SplitAt(parts[0], sep, Join(parts[1..], sep));
      assert [parts[0]] + parts[1..] == parts;
    }
  }

  lemma DigitsHaveNo(n: nat, c: char)
    requires !IsDigit(c)
    ensures c !in Render(n)
  {
  }

  /** Four separated pieces split back into those four pieces. */
  lemma SplitFour(a: string, c: string, d: string, e: string, sep: char)
    requires sep !in a && sep !in c && sep !in d && sep !in e
    ensures Split(a + [sep] + c + [sep] + d + [sep] + e, sep) == [a, c, d, e]
  {
    assert a + [sep] + c + [sep] + d + [sep] + e == a + [sep] + (c + [sep] + (d + [sep] + e));
    SplitAt(a, sep, c + [sep] + (d + [sep] + e));
    SplitAt(c, sep, d + [sep] + e);
    SplitAt(d, sep, e);
    SplitNoSep(e, sep);
  }

  lemma ParseRendered(n: nat)
    ensures ParseNat(Render(n)) == Some(n)
    ensures ',' !in Render(n) && ':' !in Render(n) && '|' !in Render(n)
  {
    ValueOfRender(n);
    DigitsHaveNo(n, ',');
    DigitsHaveNo(n, ':');
    DigitsHaveNo(n, '|');
  }

  /** The box text reads back as the box, and holds no `:` or `|`. */
  lemma ParseBoxText(b: BBox)
    ensures ParseBox(BoxText(b)) == Some(b)
    ensures ':' !in BoxText(b) && '|' !in BoxText(b)
  {
    var a, c, d, e := Render(b.minX), Render(b.minY), Render(b.maxX), Render(b.maxY);
    ParseRendered(b.minX);
    ParseRendered(b.minY);
    ParseRendered(b.maxX);
    ParseRendered(b.maxY);
    assert BoxText(b) == a + [','] + c + [','] + d + [','] + e;
    SplitFour(a, c, d, e, ',');
  }

  /** Identifiers and names that the format can carry unambiguously. */
  predicate Plain(s: string)
  {
    ':' !in s && '|' !in s
  }

  predicate PlainObjects(objects: seq<(string, ObjectData)>)
  {
    forall i :: 0 <= i < |objects| ==> Plain(objects[i].0) && Plain(NameText(objects[i].1))
  }

  lemma ParseEntryText(id: string, d: ObjectData)
    requires Plain(id) && Plain(NameText(d))
    ensures ParseEntry(EntryText(id, d)) == Some(Entry(id, NameText(d), d.bbox))
    ensures '|' !in EntryText(id, d)
  {
    var name := NameText(d);
    var box := match d.bbox case Some(b) => BoxText(b) case None => "";
    if d.bbox.Some? {
      ParseBoxText(d.bbox.value);
    }
    assert ':' !in box && '|' !in box;
    assert EntryText(id, d) == id + [':'] + (name + [':'] + box);
    SplitAt(id, ':', name + [':'] + box);
    SplitAt(name, ':', box);
    SplitNoSep(box, ':');
    assert Split(EntryText(id, d), ':') == [id, name, box];
  }

  lemma {:induction false} ParseEntryTexts(objects: seq<(string, ObjectData)>)
    requires PlainObjects(objects)
    ensures ParseEntries(EntryTexts(objects)) == Some(View(objects))
  {
    if objects != [] {
      ParseEntryText(objects[0].0, objects[0].1);
      ParseEntryTexts(objects[1..]);
      assert EntryTexts(objects)[1..] == EntryTexts(objects[1..]);
    }
  }

  /**
   * Round trip: a consumer splitting the line on `|`, `:` and `,` gets back
   * every object in order with its identifier, name and box, provided no
   * identifier or name contains `:` or `|`.
   */
  lemma ParseSerialize(objects: seq<(string, ObjectData)>)
    requires PlainObjects(objects)
    ensures ParseLine(Serialize(objects)) == Some(View(objects))
  {
    if |objects| > 0 {
      var parts := EntryTexts(objects);
      forall i | 0 <= i < |parts| ensures '|' !in parts[i] {
        ParseEntryText(objects[i].0, objects[i].1);
      }
      SerializeEmpty(objects);
      SplitJoin(parts, '|');
      ParseEntryTexts(objects);
    }
  }

  lemma {:induction false} JoinHoldsFirst(parts: seq<string>, sep: char, c: char)
    requires |parts| >= 1 && c in parts[0]
    ensures c in Join(parts, sep)
  {
  }

  /** The line is empty exactly when there are no objects. */
  lemma SerializeEmpty(objects: seq<(string, ObjectData)>)
    ensures Serialize(objects) == "" <==> |objects| == 0
  {
    if |objects| > 0 {
      var e := EntryText(objects[0].0, objects[0].1);
      assert e[|objects[0].0|] == ':';
      JoinHoldsFirst(EntryTexts(objects), '|', ':');
    }
  }

  lemma SerializeExampleWithBox()
    ensures Serialize([("7", ObjectData(Some("Gizmo"), Some(BBox(1, 1, 2, 2))))]) == "7:Gizmo:1,1,2,2"
  {
    assert Render(1) == "1" && Render(2) == "2";
    assert BoxText(BBox(1, 1, 2, 2)) == "1,1,2,2";
  }

  lemma SerializeExampleWithoutBox()
    ensures Serialize([("7", ObjectData(Some("Gizmo"), None))]) == "7:Gizmo:"
  {
  }

  lemma SerializeExampleTwo()
    ensures Serialize([("7", ObjectData(Some("Gizmo"), Some(BBox(1, 1, 2, 2)))),
                       ("9", ObjectData(Some("Widget"), None))]) == "7:Gizmo:1,1,2,2|9:Widget:"
  {
    SerializeExampleWithBox();
    var objects := [("7", ObjectData(Some("Gizmo"), Some(BBox(1, 1, 2, 2)))), ("9", ObjectData(Some("Widget"), None))];
    assert EntryText(objects[0].0, objects[0].1) == "7:Gizmo:1,1,2,2";
    assert EntryText(objects[1].0, objects[1].1) == "9:Widget:";
    assert EntryTexts(objects) == ["7:Gizmo:1,1,2,2", "9:Widget:"];
    assert Join(EntryTexts(objects), '|') == "7:Gizmo:1,1,2,2" + "|" + "9:Widget:";
  }

  lemma SerializeExampleNoName()
    ensures Serialize([("3", ObjectData(None, Some(BBox(0, 0, 3, 4))))]) == "3::0,0,3,4"
  {
    assert Render(0) == "0" && Render(3) == "3" && Render(4) == "4";
    assert BoxText(BBox(0, 0, 3, 4)) == "0,0,3,4";
  }
}
