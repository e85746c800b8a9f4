/** The saved form of a diagram: every object becomes a tagged record whose
    "type" names its class, with nested "position" and "size" records and
    the class's own fields. */
module Records {
  import opened Wrappers
  import opened Geometry
  import opened Shapes

  /** The JSON values a saved diagram holds. */
  datatype Json =
    | JInt(i: int)
    | JBool(b: bool)
    | JStr(s: string)
    | JObject(fields: map<string, Json>)

  /** Why a record could not be turned back into an object: the exception
      the code would raise while reading it. */
  datatype DecodeError =
    | NotAnObject(key: string)   // a key was looked up in something that is not a record
    | MissingKey(key: string)    // the record has no such key
    | WrongType(key: string)     // the value under the key is not of the field's type
    | UnknownType(name: Json)    // the "type" tag names no object class

  function EncodePoint(p: Point): Json {
    JObject(map["x" := JInt(p.x), "y" := JInt(p.y)])
  }

  function EncodeSize(s: Size): Json {
    JObject(map["w" := JInt(s.w), "h" := JInt(s.h)])
  }

  /** The record an object is saved as. */
  function Encode(o: Shape): Json {
    match o
    case Box(position, size, text, showBorder) =>
      JObject(map["type" := JStr("Box"), "position" := EncodePoint(position), "size" := EncodeSize(size),
                  "text" := JStr(text), "show_border" := JBool(showBorder)])
    case Line(position, size, orientation, isArrow) =>
      JObject(map["type" := JStr("Line"), "position" := EncodePoint(position), "size" := EncodeSize(size),
                  "orientation" := JInt(orientation), "is_arrow" := JBool(isArrow)])
  }

  /** `data[key]`. */
  function Field(data: Json, key: string): (r: Result<Json, DecodeError>)
    ensures r.Success? <==> data.JObject? && key in data.fields
    ensures r.Success? ==> r.value == data.fields[key]
  {
    if !data.JObject? then Failure(NotAnObject(key))
    else if key !in data.fields then Failure(MissingKey(key))
    else Success(data.fields[key])
  }

  function IntField(data: Json, key: string): Result<int, DecodeError> {
    var v :- Field(data, key);
    if v.JInt? then Success(v.i) else Failure(WrongType(key))
  }

  function BoolField(data: Json, key: string): Result<bool, DecodeError> {
    var v :- Field(data, key);
    if v.JBool? then Success(v.b) else Failure(WrongType(key))
  }

  function StrField(data: Json, key: string): Result<string, DecodeError> {
    var v :- Field(data, key);
    if v.JStr? then Success(v.s) else Failure(WrongType(key))
  }

  /** The fields every object reads: x and y of "position", then w and h
      of "size". */
  function DecodeAnchor(data: Json): Result<(Point, Size), DecodeError> {
    var position :- Field(data, "position");
    var x :- IntField(position, "x");
    var y :- IntField(position, "y");
    var size :- Field(data, "size");
    var w :- IntField(size, "w");
    var h :- IntField(size, "h");
    Success((Point(x, y), Size(w, h)))
  }

  /** One record back into an object, reading the keys in the order the
      code reads them; the first key that is missing or ill-typed is the
      error. */
  function Decode(data: Json): Result<Shape, DecodeError> {
    var tag :- Field(data, "type");
    if tag == JStr("Box") then
      var anchor :- DecodeAnchor(data);
      var text :- StrField(data, "text");
      var showBorder :- BoolField(data, "show_border");
      Success(Box(anchor.0, anchor.1, text, showBorder))
    else if tag == JStr("Line") then
      var anchor :- DecodeAnchor(data);
      var orientation :- IntField(data, "orientation");
      var isArrow :- BoolField(data, "is_arrow");
      Success(Line(anchor.0, anchor.1, orientation, isArrow))
    else Failure(UnknownType(tag))
  }

  /** A saved list of objects. */
  function Serialize(objects: seq<Shape>): (items: seq<Json>)
    ensures |items| == |objects|
  {
    seq(|objects|, i requires 0 <= i < |objects| => Encode(objects[i]))
  }

  /** What loading a list of records leaves behind: the objects decoded
      before the first failing record, and that record's error. */
  datatype Loaded = Loaded(objects: seq<Shape>, error: Option<DecodeError>)

  /** `r` is what loading `items` leaves behind: the objects decoded from
      the records before the first failing one, and that record's error
      (none when every record decodes). */
  ghost predicate Loads(items: seq<Json>, r: Loaded) {
    && |r.objects| <= |items|
    && (forall k :: 0 <= k < |r.objects| ==> Decode(items[k]) == Success(r.objects[k]))
    && (r.error.None? <==> |r.objects| == |items|)
    && (r.error.Some? ==> Decode(items[|r.objects|]) == Failure(r.error.value))
  }

  function DecodeAll(items: seq<Json>): (r: Loaded)
    ensures Loads(items, r)
  {
    if |items| == 0 then Loaded([], None)
    else
      var first := Decode(items[0]);
      if first.Failure? then Loaded([], Some(first.error))
      else
        var rest := DecodeAll(items[1..]);
        LoadsCons(items, first.value, rest);
        Loaded([first.value] + rest.objects, rest.error)
  }

  /** A record that decodes, followed by what loading the others leaves,
      is what loading all of them leaves. */
  lemma LoadsCons(items: seq<Json>, o: Shape, rest: Loaded)
    requires |items| > 0 && Decode(items[0]) == Success(o) && Loads(items[1..], rest)
    ensures Loads(items, Loaded([o] + rest.objects, rest.error))
  {
    assert forall k :: 0 < k < |items| ==> items[k] == items[1..][k - 1];
  }

  /** Saving an object and reading the record back gives the same object:
      position and size, and the text and border flag of a box or the
      orientation and arrow flag of a line. */
  lemma DecodeEncode(o: Shape)
    ensures Decode(Encode(o)) == Success(o)
  {
  }

  /** `DecodeAll` is the only loading result that decodes a prefix of
      the records and stops at a record that fails (or at the end). */
  lemma {:induction false} DecodeAllUnique(items: seq<Json>, objects: seq<Shape>, error: Option<DecodeError>)
    requires |objects| <= |items|
    requires forall k :: 0 <= k < |objects| ==> Decode(items[k]) == Success(objects[k])
    requires error.None? <==> |objects| == |items|
    requires error.Some? ==> Decode(items[|objects|]) == Failure(error.value)
    ensures DecodeAll(items) == Loaded(objects, error)
  {
    var r := DecodeAll(items);
    assert |r.objects| == |objects|;
    assert r.objects == objects;
  }

  /** Saving a whole diagram and loading it back gives the same objects, in
      the same order, with no error. */
  lemma {:induction false} DecodeAllSerialize(objects: seq<Shape>)
    ensures DecodeAll(Serialize(objects)) == Loaded(objects, None)
  {
    var items := Serialize(objects);
    var r := DecodeAll(items);
    forall k | 0 <= k < |items|
      ensures Decode(items[k]) == Success(objects[k])
    {
      DecodeEncode(objects[k]);
    }
    assert |r.objects| == |objects|;
    forall k | 0 <= k < |objects|
      ensures r.objects[k] == objects[k]
    {
      assert Decode(items[k]) == Success(r.objects[k]);
    }
  }

  /** Only the two object classes are accepted: a record whose "type" is
      anything else is rejected by name, before any other key is read. */
  lemma UnknownTypeRejected(data: Json)
    requires data.JObject? && "type" in data.fields
    requires data.fields["type"] != JStr("Box") && data.fields["type"] != JStr("Line")
    ensures Decode(data) == Failure(UnknownType(data.fields["type"]))
  {
  }

  /** A record decodes only if it is a record with every key its class
      reads; the decoded object carries the record's values. */
  lemma DecodeReadsFields(data: Json, o: Shape)
    requires Decode(data) == Success(o)
    ensures data.JObject?
    ensures "type" in data.fields && "position" in data.fields && "size" in data.fields
    ensures data.fields["type"] == JStr(if o.Box? then "Box" else "Line")
    ensures data.fields["position"].JObject? && data.fields["size"].JObject?
    ensures "x" in data.fields["position"].fields && data.fields["position"].fields["x"] == JInt(o.position.x)
    ensures "y" in data.fields["position"].fields && data.fields["position"].fields["y"] == JInt(o.position.y)
    ensures "w" in data.fields["size"].fields && data.fields["size"].fields["w"] == JInt(o.size.w)
    ensures "h" in data.fields["size"].fields && data.fields["size"].fields["h"] == JInt(o.size.h)
    ensures o.Box? ==> "text" in data.fields && data.fields["text"] == JStr(o.text)
    ensures o.Box? ==> "show_border" in data.fields && data.fields["show_border"] == JBool(o.showBorder)
    ensures o.Line? ==> "is_arrow" in data.fields && data.fields["is_arrow"] == JBool(o.isArrow)
    ensures o.Line? ==> "orientation" in data.fields && data.fields["orientation"] == JInt(o.orientation)
  {
  }
}
