/** The value codec: how kernel values, shapes, view records, objects and
    documents become wire values (serialize.py), and how a wire value that is
    assigned to a property as it is becomes a kernel value. */
module Serialize {
  import opened Values
  import opened Documents

  /** `str(value)` for a value that no earlier rule of the encoder matches;
      Python and the kernel define that text, so the model leaves it open. */
  type Show = CadValue -> string

  function VectorWire(v: Vec): Wire
  {
    WMap([("x", WFloat(v.x)), ("y", WFloat(v.y)), ("z", WFloat(v.z))])
  }

  function RotationWire(r: Rot): Wire
  {
    WMap([("Axis", VectorWire(r.axis)), ("Angle", WFloat(r.angle))])
  }

  /** `serialize_value`: total, and never the wire's None. */
  function Encode(v: CadValue, show: Show): (w: Wire)
    ensures w != WNone
    ensures w.WList? <==> v.CList? || v.CColor?
    ensures v.CList? ==> |w.items| == |v.items|
  {
    match v
    case CInt(i) => WInt(i)
    case CFloat(f) => WFloat(f)
    case CStr(s) => WStr(s)
    case CBool(b) => WBool(b)
    case CVector(p) => VectorWire(p)
    case CRotation(r) => RotationWire(r)
    case CPlacement(b, r) => WMap([("Base", VectorWire(b)), ("Rotation", RotationWire(r))])
    case CList(xs) => WList(seq(|xs|, i requires 0 <= i < |xs| => Encode(xs[i], show)))
    case CColor(r, g, b, a) => WList([WFloat(r), WFloat(g), WFloat(b), WFloat(a)])
    case CNone => WStr("None")
    case CLink(_) => WStr(show(v))
    case CDict(_) => WStr(show(v))
    case COther(_) => WStr(show(v))
  }

  /** What a property holds after the wire value w is assigned to it as it is:
      the Python value that arrived over the transport. */
  function Native(w: Wire): CadValue
  {
    match w
    case WNone => CNone
    case WBool(b) => CBool(b)
    case WInt(i) => CInt(i)
    case WFloat(f) => CFloat(f)
    case WStr(s) => CStr(s)
    case WList(xs) => CList(seq(|xs|, i requires 0 <= i < |xs| => Native(xs[i])))
    case WMap(e) => CDict(seq(|e|, i requires 0 <= i < |e| => (e[i].0, Native(e[i].1))))
  }

  /** Primitives (int, float, str, bool) and lists of them. */
  predicate Plain(v: CadValue)
  {
    match v
    case CBool(_) => true
    case CInt(_) => true
    case CFloat(_) => true
    case CStr(_) => true
    case CList(xs) => forall i :: 0 <= i < |xs| ==> Plain(xs[i])
    case _ => false
  }

  predicate PlainWire(w: Wire)
  {
    match w
    case WBool(_) => true
    case WInt(_) => true
    case WFloat(_) => true
    case WStr(_) => true
    case WList(xs) => forall i :: 0 <= i < |xs| ==> PlainWire(xs[i])
    case _ => false
  }

  /** Primitives pass through the encoder unchanged, and lists are encoded
      element by element, keeping length and order: so assigning the encoding
      of a plain value gives the value back. */
  lemma {:induction false} PlainRoundTrip(v: CadValue, show: Show)
    requires Plain(v)
    ensures PlainWire(Encode(v, show))
    ensures Native(Encode(v, show)) == v
  {
    match v
    case CList(xs) =>
      var w := Encode(v, show);
      forall i | 0 <= i < |xs|
        ensures PlainWire(w.items[i]) && Native(w.items[i]) == xs[i]
      {
        PlainRoundTrip(xs[i], show);
      }
      assert Native(w).items == xs;
    case _ =>
  }

  /** The other direction: a plain wire value assigned as it is and read back
      is encoded to itself. */
  lemma {:induction false} PlainWireRoundTrip(w: Wire, show: Show)
    requires PlainWire(w)
    ensures Plain(Native(w))
    ensures Encode(Native(w), show) == w
  {
    match w
    case WList(xs) =>
      var v := Native(w);
      forall i | 0 <= i < |xs|
        ensures Plain(v.items[i]) && Encode(v.items[i], show) == xs[i]
      {
        PlainWireRoundTrip(xs[i], show);
      }
      assert Encode(v, show).items == xs;
    case _ =>
  }

  /** A list is encoded element by element, in order. */
  lemma EncodeList(xs: seq<CadValue>, show: Show, i: nat)
    requires i < |xs|
    ensures Encode(CList(xs), show).items[i] == Encode(xs[i], show)
  {
  }

  /** A vector becomes exactly {x, y, z}. */
  lemma VectorEncoding(v: Vec, show: Show)
    ensures KeysOf(Encode(CVector(v), show).entries) == ["x", "y", "z"]
    ensures Lookup(Encode(CVector(v), show).entries, "x") == Some(WFloat(v.x))
    ensures Lookup(Encode(CVector(v), show).entries, "y") == Some(WFloat(v.y))
    ensures Lookup(Encode(CVector(v), show).entries, "z") == Some(WFloat(v.z))
  {
    var e := Encode(CVector(v), show).entries;
    assert Lookup(e, "z") == Some(e[2].1) by { LookupFirst(e, 2); }
  }

  /** A placement is always emitted under the key Base, never Position, with
      its base and rotation each encoded as a vector and a rotation are. */
  lemma PlacementEncoding(b: Vec, r: Rot, show: Show)
    ensures KeysOf(Encode(CPlacement(b, r), show).entries) == ["Base", "Rotation"]
    ensures !HasKey(Encode(CPlacement(b, r), show).entries, "Position")
    ensures Lookup(Encode(CPlacement(b, r), show).entries, "Base") == Some(Encode(CVector(b), show))
    ensures Lookup(Encode(CPlacement(b, r), show).entries, "Rotation") == Some(Encode(CRotation(r), show))
    ensures KeysOf(Encode(CRotation(r), show).entries) == ["Axis", "Angle"]
  {
  }

  /** `serialize_shape`. */
  function ShapeRecord(s: Option<Shape>): (w: Wire)
    ensures s.None? <==> w == WNone
  {
    match s
    case None => WNone
    case Some(sh) =>
      WMap([("Volume", WFloat(sh.volume)), ("Area", WFloat(sh.area)),
            ("VertexCount", WInt(|sh.vertexes|)), ("EdgeCount", WInt(|sh.edges|)),
            ("FaceCount", WInt(|sh.faces|))])
  }

  /** The counts of a shape record are the lengths of the shape's lists. */
  lemma ShapeCounts(sh: Shape)
    ensures Lookup(ShapeRecord(Some(sh)).entries, "VertexCount") == Some(WInt(|sh.vertexes|))
    ensures Lookup(ShapeRecord(Some(sh)).entries, "EdgeCount") == Some(WInt(|sh.edges|))
    ensures Lookup(ShapeRecord(Some(sh)).entries, "FaceCount") == Some(WInt(|sh.faces|))
  {
    var e := [("Volume", WFloat(sh.volume)), ("Area", WFloat(sh.area)),
              ("VertexCount", WInt(|sh.vertexes|)), ("EdgeCount", WInt(|sh.edges|)),
              ("FaceCount", WInt(|sh.faces|))];
    assert ShapeRecord(Some(sh)).entries == e;
    assert Lookup(e, "VertexCount") == Some(WInt(|sh.vertexes|)) by { LookupFirst(e, 2); }
    assert Lookup(e, "EdgeCount") == Some(WInt(|sh.edges|)) by { LookupFirst(e, 3); }
    assert Lookup(e, "FaceCount") == Some(WInt(|sh.faces|)) by { LookupFirst(e, 4); }
  }

  /** `serialize_view_object`. Transparency and Visibility go to the transport
      unserialized; for the int and bool the kernel holds there, that is what
      Encode gives too. */
  function ViewRecord(v: Option<View>, show: Show): (w: Wire)
    ensures v.None? <==> w == WNone
  {
    match v
    case None => WNone
    case Some(view) =>
      WMap([("ShapeColor", Encode(view.shapeColor, show)),
            ("Transparency", Encode(view.transparency, show)),
            ("Visibility", Encode(view.visibility, show))])
  }

  /** One entry of an object's Properties: the encoded value, or the error
      text when reading the property raises. */
  function PropertyEntry(o: ObjState, p: string, show: Show): Wire
  {
    match ReadAttr(o, p)
    case Value(c) => Encode(c, show)
    case Fails(m) => WStr("<error: " + m + ">")
  }

  /** Filling `acc[p] = entry` for each p of ps in turn. */
  function Fill(acc: Dict, ps: seq<string>, o: ObjState, show: Show): Dict
    decreases |ps|
  {
    if ps == [] then acc
    else Fill(Put(acc, ps[0], PropertyEntry(o, ps[0], show)), ps[1..], o, show)
  }

  /** The Properties mapping of a serialized object. */
  function PropertiesRecord(o: ObjState, show: Show): Dict
  {
    Fill([], o.declared, o, show)
  }

  lemma {:induction false} FillLookup(acc: Dict, ps: seq<string>, o: ObjState, show: Show, k: string)
    ensures Lookup(Fill(acc, ps, o, show), k) == if k in ps then Some(PropertyEntry(o, k, show)) else Lookup(acc, k)
    decreases |ps|
  {
    if ps != [] {
      var acc' := Put(acc, ps[0], PropertyEntry(o, ps[0], show));
      FillLookup(acc', ps[1..], o, show, k);
      PutLookup(acc, ps[0], PropertyEntry(o, ps[0], show), k);
      assert k in ps <==> k == ps[0] || k in ps[1..];
    }
  }

  lemma {:induction false} FillKeys(acc: Dict, ps: seq<string>, o: ObjState, show: Show)
    requires Distinct(ps)
    requires forall p :: p in ps ==> !HasKey(acc, p)
    ensures KeysOf(Fill(acc, ps, o, show)) == KeysOf(acc) + ps
    decreases |ps|
  {
    if ps != [] {
      var v := PropertyEntry(o, ps[0], show);
      var acc' := Put(acc, ps[0], v);
      assert KeysOf(acc') == KeysOf(acc) + [ps[0]] by {
        PutKeys(acc, ps[0], v);
      }
      forall p | p in ps[1..] ensures !HasKey(acc', p) {
        var j :| 0 <= j < |ps[1..]| && ps[1..][j] == p;
        assert ps[j + 1] == p && ps[0] != p;
        assert p in ps;
        assert !HasKey(acc, p);
        assert p !in KeysOf(acc) + [ps[0]];
      }
      assert Distinct(ps[1..]) by {
        forall a, b | 0 <= a < b < |ps[1..]| ensures ps[1..][a] != ps[1..][b] {
          assert ps[1..][a] == ps[a + 1] && ps[1..][b] == ps[b + 1];
        }
      }
      FillKeys(acc', ps[1..], o, show);
      assert KeysOf(acc) + [ps[0]] + ps[1..] == KeysOf(acc) + ps;
    }
  }

  /** The keys of Properties are exactly the PropertiesList (in its order when
      it repeats no name); each maps to its encoded value, and a property whose
      read fails maps to "<error: msg>" without affecting the others. */
  lemma PropertiesRecordSpec(o: ObjState, show: Show)
    ensures forall k :: HasKey(PropertiesRecord(o, show), k) <==> k in o.declared
    ensures forall k :: k in o.declared ==> Lookup(PropertiesRecord(o, show), k) == Some(PropertyEntry(o, k, show))
    ensures forall k :: k in o.declared && ReadAttr(o, k).Fails? ==>
      Lookup(PropertiesRecord(o, show), k) == Some(WStr("<error: " + ReadAttr(o, k).message + ">"))
    ensures Distinct(o.declared) ==> KeysOf(PropertiesRecord(o, show)) == o.declared
  {
    forall k
      ensures Lookup(PropertiesRecord(o, show), k) == if k in o.declared then Some(PropertyEntry(o, k, show)) else None
    {
      FillLookup([], o.declared, o, show, k);
    }
    if Distinct(o.declared) {
      FillKeys([], o.declared, o, show);
    }
  }

  /** The loop of serialize_object that fills Properties. */
  method SerializeProperties(o: ObjState, show: Show) returns (d: Dict)
    ensures d == PropertiesRecord(o, show)
  {
    d := [];
    var i := 0;
    while i < |o.declared|
      invariant 0 <= i <= |o.declared|
      invariant Fill(d, o.declared[i..], o, show) == PropertiesRecord(o, show)
    {
      var p := o.declared[i];
      assert o.declared[i..][1..] == o.declared[i + 1..];
      d := Put(d, p, PropertyEntry(o, p, show));
      i := i + 1;
    }
  }

  /** Reading the Placement attribute, None when the object has none. */
  function PlacementRead(o: ObjState): Read
  {
    if "Placement" in o.attrs then o.attrs["Placement"] else Value(CNone)
  }

  /** `serialize_object` of one object: it fails only when reading Placement
      raises, the one read outside the per-property guard. */
  function ObjectRecord(o: ObjState, show: Show): (r: Result<Wire, string>)
    ensures r.Ok? <==> PlacementRead(o).Value?
  {
    match PlacementRead(o)
    case Fails(m) => Err(m)
    case Value(p) => Ok(WMap(ObjectEntries(o, p, show)))
  }

  /** The fields of a serialized object whose Placement reads as p. */
  function ObjectEntries(o: ObjState, p: CadValue, show: Show): Dict
  {
    ObjectFields(WStr(o.name), WStr(o.labelText), WStr(o.typeId), WMap(PropertiesRecord(o, show)),
                 Encode(p, show), ShapeRecord(o.shape),
                 if o.view.Some? then ViewRecord(o.view, show) else WMap([]))
  }

  /** The seven fields of an object record, in their order. */
  function ObjectFields<V>(name: V, labelText: V, typeId: V, props: V, placement: V, shape: V, view: V): seq<(string, V)>
  {
    [("Name", name), ("Label", labelText), ("TypeId", typeId), ("Properties", props),
     ("Placement", placement), ("Shape", shape), ("ViewObject", view)]
  }

  lemma ObjectFieldsLookup<V>(name: V, labelText: V, typeId: V, props: V, placement: V, shape: V, view: V)
    ensures var e := ObjectFields(name, labelText, typeId, props, placement, shape, view);
      && Lookup(e, "Properties") == Some(props)
      && Lookup(e, "Placement") == Some(placement)
      && Lookup(e, "ViewObject") == Some(view)
  {
    var t6: seq<(string, V)> := [("ViewObject", view)];
    var t5 := [("Shape", shape)] + t6;
    var t4 := [("Placement", placement)] + t5;
    var t3 := [("Properties", props)] + t4;
    var t2 := [("TypeId", typeId)] + t3;
    var t1 := [("Label", labelText)] + t2;
    var t0 := [("Name", name)] + t1;
    assert ObjectFields(name, labelText, typeId, props, placement, shape, view) == t0;
    forall k | k in {"Properties", "Placement", "ViewObject"}
      ensures Lookup(t0, k) == Lookup(t3, k)
    {
      LookupCons(("Name", name), t1, k);
      LookupCons(("Label", labelText), t2, k);
      LookupCons(("TypeId", typeId), t3, k);
    }
    LookupCons(("Properties", props), t4, "Properties");
    LookupCons(("Properties", props), t4, "Placement");
    LookupCons(("Properties", props), t4, "ViewObject");
    LookupCons(("Placement", placement), t5, "Placement");
    LookupCons(("Placement", placement), t5, "ViewObject");
    LookupCons(("Shape", shape), t6, "ViewObject");
    LookupCons(("ViewObject", view), [], "ViewObject");
  }

  lemma ObjectEntriesLookup(o: ObjState, p: CadValue, show: Show)
    ensures Lookup(ObjectEntries(o, p, show), "Properties") == Some(WMap(PropertiesRecord(o, show)))
    ensures Lookup(ObjectEntries(o, p, show), "Placement") == Some(Encode(p, show))
    ensures Lookup(ObjectEntries(o, p, show), "ViewObject") ==
      Some(if o.view.Some? then ViewRecord(o.view, show) else WMap([]))
  {
    ObjectFieldsLookup(WStr(o.name), WStr(o.labelText), WStr(o.typeId), WMap(PropertiesRecord(o, show)),
                       Encode(p, show), ShapeRecord(o.shape),
                       if o.view.Some? then ViewRecord(o.view, show) else WMap([]));
  }

  /** A serialized object holds the Properties mapping, the encoded
      Placement (the text None when it has none) and a view record or {}. */
  lemma ObjectRecordFields(o: ObjState, show: Show)
    requires PlacementRead(o).Value?
    ensures ObjectRecord(o, show).value.WMap?
    ensures Lookup(ObjectRecord(o, show).value.entries, "Properties") == Some(WMap(PropertiesRecord(o, show)))
    ensures Lookup(ObjectRecord(o, show).value.entries, "Placement") == Some(Encode(PlacementRead(o).v, show))
    ensures "Placement" !in o.attrs ==> Lookup(ObjectRecord(o, show).value.entries, "Placement") == Some(WStr("None"))
    ensures Lookup(ObjectRecord(o, show).value.entries, "ViewObject") ==
      Some(if o.view.Some? then ViewRecord(o.view, show) else WMap([]))
  {
    ObjectEntriesLookup(o, PlacementRead(o).v, show);
  }

  method SerializeObject(o: ObjState, show: Show) returns (r: Result<Wire, string>)
    ensures r == ObjectRecord(o, show)
  {
    var placement := CNone;
    if "Placement" in o.attrs {
      match o.attrs["Placement"]
      case Fails(m) =>
        return Err(m);
      case Value(c) =>
        placement := c;
    }
    var props := SerializeProperties(o, show);
    var viewObject := WMap([]);
    if o.view.Some? {
      viewObject := ViewRecord(o.view, show);
    }
    r := Ok(WMap([("Name", WStr(o.name)), ("Label", WStr(o.labelText)), ("TypeId", WStr(o.typeId)),
                  ("Properties", WMap(props)),
                  ("Placement", Encode(placement, show)),
                  ("Shape", ShapeRecord(o.shape)),
                  ("ViewObject", viewObject)]));
  }

  /** `[serialize_object(item) for item in objs]`: the first failure propagates. */
  function ListRecord(objs: seq<ObjState>, show: Show): Result<seq<Wire>, string>
  {
    if objs == [] then Ok([])
    else
      var head :- ObjectRecord(objs[0], show);
      var tail :- ListRecord(objs[1..], show);
      Ok([head] + tail)
  }

  /** A list serializes element by element, keeping length and order, and
      fails exactly when one of its objects does. */
  lemma {:induction false} ListRecordSpec(objs: seq<ObjState>, show: Show)
    ensures ListRecord(objs, show).Ok? <==> forall i :: 0 <= i < |objs| ==> ObjectRecord(objs[i], show).Ok?
    ensures ListRecord(objs, show).Ok? ==>
      && |ListRecord(objs, show).value| == |objs|
      && forall i :: 0 <= i < |objs| ==> ListRecord(objs, show).value[i] == ObjectRecord(objs[i], show).value
  {
    if objs != [] {
      var rest := objs[1..];
      ListRecordSpec(rest, show);
      var h := ObjectRecord(objs[0], show);
      var t := ListRecord(rest, show);
      if h.Ok? && t.Ok? {
        assert ListRecord(objs, show) == Ok([h.value] + t.value);
        forall i | 0 <= i < |objs|
          ensures ObjectRecord(objs[i], show).Ok? && ListRecord(objs, show).value[i] == ObjectRecord(objs[i], show).value
        {
          if i > 0 {
            assert objs[i] == rest[i - 1];
          }
        }
      } else if h.Err? {
        assert ListRecord(objs, show).Err?;
      } else {
        assert ListRecord(objs, show).Err?;
        var j :| 0 <= j < |rest| && !ObjectRecord(rest[j], show).Ok?;
        assert objs[j + 1] == rest[j];
      }
    }
  }

  /** `serialize_object` of a document. */
  function DocumentRecord(d: DocState, show: Show): (r: Result<Wire, string>)
    requires DocValid(d)
    ensures r.Ok? <==> forall n :: n in d.objects ==> PlacementRead(d.objects[n]).Value?
    ensures r.Ok? ==> r.value.WMap? && KeysOf(r.value.entries) == ["Name", "Label", "FileName", "Objects"]
    ensures r.Ok? ==> Lookup(r.value.entries, "Name") == Some(WStr(d.name))
    ensures r.Ok? ==> Lookup(r.value.entries, "Label") == Some(WStr(d.labelText))
    ensures r.Ok? ==> Lookup(r.value.entries, "FileName") == Some(WStr(d.fileName))
    ensures r.Ok? ==> Lookup(r.value.entries, "Objects") == Some(r.value.entries[3].1)
  {
    DocumentObjectsRead(d, show);
    var objects :- ListRecord(ObjectsOf(d), show);
    var e := [("Name", WStr(d.name)), ("Label", WStr(d.labelText)), ("FileName", WStr(d.fileName)),
              ("Objects", WList(objects))];
    LookupFirst(e, 0);
    LookupFirst(e, 1);
    LookupFirst(e, 2);
    LookupFirst(e, 3);
    Ok(WMap(e))
  }

  /** The objects of a document serialize exactly when every Placement reads. */
  lemma DocumentObjectsRead(d: DocState, show: Show)
    requires DocValid(d)
    ensures ListRecord(ObjectsOf(d), show).Ok? <==> forall n :: n in d.objects ==> PlacementRead(d.objects[n]).Value?
  {
    ListRecordSpec(ObjectsOf(d), show);
    if forall n :: n in d.objects ==> PlacementRead(d.objects[n]).Value? {
      assert forall i :: 0 <= i < |d.order| ==> d.order[i] in d.objects;
    }
    if ListRecord(ObjectsOf(d), show).Ok? {
      forall n | n in d.objects ensures PlacementRead(d.objects[n]).Value? {
        var i :| 0 <= i < |d.order| && d.order[i] == n;
        assert ObjectRecord(ObjectsOf(d)[i], show).Ok?;
      }
    }
  }

  /** A serialized document lists its objects in document order, one record
      per object. */
  lemma DocumentRecordObjects(d: DocState, show: Show)
    requires DocValid(d)
    requires forall n :: n in d.objects ==> PlacementRead(d.objects[n]).Value?
    ensures DocumentRecord(d, show).Ok?
    ensures var objs := DocumentRecord(d, show).value.entries[3].1;
      && objs.WList?
      && |objs.items| == |d.order|
      && forall i :: 0 <= i < |d.order| ==> objs.items[i] == ObjectRecord(d.objects[d.order[i]], show).value
  {
    ListRecordSpec(ObjectsOf(d), show);
  }
}
