/** `set_object_property`: how a batch of wire values is decoded into the
    properties of a live object. Every step here is a function of the object
    before the step; the loop that runs these steps over the live document is
    `Factory.FreeCad.SetObjectProperty`. */
module Applier {
  import opened Values
  import opened Documents
  import opened Serialize

  /** The exceptions the bridge itself raises, the ones Python raises for a
      malformed value, and the ones the kernel raises. */
  datatype Failure =
    | RefNotFound(name: string)             // ValueError of the bridge
    | NotAMapping(got: Wire)                // `.get` on a value that is no dict
    | NotANumber(got: Wire)                 // float() or a Vector/Rotation argument that is no number
    | NotIterable(got: Wire)                // iterating a value that cannot be iterated
    | TooFewValues(count: nat)              // unpacking fewer than two values into a pair
    | TooManyValues                         // unpacking more than two values into a pair
    | NotAName(got: Wire)                   // doc.getObject given something other than a name
    | ReadFailed(message: string)           // getattr raised while the applier read the current value
    | AssignFailed(prop: string, cause: Failure)  // the wrapper of set_object_property
    | MissingPart                           // the FemMeshGmsh request lacks its Part
    | NoCreationMethod(makerName: string)      // ObjectsFem has no such maker
    | NoAttribute(owner: string, attr: string)    // getattr on the document or an object failed
    | UnknownType(typeName: string)         // doc.addObject with a type the kernel does not know
    | UnknownDocument(docName: string)      // FreeCAD.getDocument of a missing document
    | NoSuchObject(objName: string)         // doc.removeObject of a missing object
    | KernelFailed(message: string)         // any other exception of a kernel call
    | NotAContainer(got: Wire)              // `k in w` on a value that holds nothing
    | BadIndex(got: Wire)                   // `w[k]` with a string key on a list or a string
    | NotAnAttributeName(got: Wire)         // getattr with a name that is no string
  {
    /** `str(e)`. */
    function Message(): string
    {
      match this
      case RefNotFound(n) => "Referenced object '" + n + "' not found."
      case NotAMapping(w) => "'" + TypeName(w) + "' object has no attribute 'get'"
      case NotANumber(w) => "float() argument must be a string or a real number, not '" + TypeName(w) + "'"
      case NotIterable(w) => "'" + TypeName(w) + "' object is not iterable"
      case TooFewValues(n) => "not enough values to unpack (expected 2, got " + NatText(n) + ")"
      case TooManyValues => "too many values to unpack (expected 2)"
      case NotAName(w) => "object name must be a string, not " + TypeName(w)
      case ReadFailed(m) => m
      case AssignFailed(p, cause) => "Property '" + p + "' assignment error: " + cause.Message()
      case MissingPart => "'Part' property not found for FemMeshGmsh."
      case NoCreationMethod(m) => "No creation method '" + m + "' found in ObjectsFem."
      case NoAttribute(owner, a) => "'" + owner + "' object has no attribute '" + a + "'"
      case UnknownType(t) => "'" + t + "' is not a document object type"
      case UnknownDocument(d) => "Unknown document '" + d + "'"
      case NoSuchObject(n) => "No document object found with name '" + n + "'"
      case KernelFailed(m) => m
      case NotAContainer(w) => "argument of type '" + TypeName(w) + "' is not iterable"
      case BadIndex(w) => if w.WList? then "list indices must be integers or slices, not str" else "string indices must be integers, not 'str'"
      case NotAnAttributeName(w) => "attribute name must be string, not '" + TypeName(w) + "'"
    }
  }

  /** The Python type name of a value that arrived over the transport. */
  function TypeName(w: Wire): string
  {
    match w
    case WNone => "NoneType"
    case WBool(_) => "bool"
    case WInt(_) => "int"
    case WFloat(_) => "float"
    case WStr(_) => "str"
    case WList(_) => "list"
    case WMap(_) => "dict"
  }

  /** The decimal digits of n. */
  function NatText(n: nat): string
  {
    if n < 10 then [Digit(n)] else NatText(n / 10) + [Digit(n % 10)]
  }

  function Digit(d: nat): char
    requires d < 10
  {
    "0123456789"[d]
  }

  /** `float(w)`, and the numbers a Vector or Rotation accepts: bool, int and float. */
  function ToReal(w: Wire): (r: Result<real, Failure>)
    ensures r.Err? <==> !(w.WBool? || w.WInt? || w.WFloat?)
    ensures w.WFloat? ==> r == Ok(w.f)
    ensures w.WInt? ==> r == Ok(w.i as real)
  {
    match w
    case WBool(b) => Ok(if b then 1.0 else 0.0)
    case WInt(i) => Ok(i as real)
    case WFloat(f) => Ok(f)
    case _ => Err(NotANumber(w))
  }

  /** `tuple(float(c) for c in items)`: the first value that is no number fails. */
  function ToReals(items: seq<Wire>): (r: Result<seq<CadValue>, Failure>)
    ensures r.Ok? ==> |r.value| == |items|
    ensures r.Ok? ==> forall i :: 0 <= i < |items| ==> ToReal(items[i]).Ok? && r.value[i] == CFloat(ToReal(items[i]).value)
    ensures r.Ok? <==> forall i :: 0 <= i < |items| ==> ToReal(items[i]).Ok?
  {
    if items == [] then Ok([])
    else
      var x :- ToReal(items[0]);
      var rest :- ToReals(items[1..]);
      assert forall i :: 1 <= i < |items| ==> items[i] == items[1..][i - 1];
      Ok([CFloat(x)] + rest)
  }

  /** What `for x in w` visits: a list's items, a string's characters, a dict's keys. */
  function Iterate(w: Wire): (r: Result<seq<Wire>, Failure>)
    ensures r.Ok? <==> w.WList? || w.WStr? || w.WMap?
    ensures w.WList? ==> r == Ok(w.items)
  {
    match w
    case WList(xs) => Ok(xs)
    case WStr(s) => Ok(seq(|s|, i requires 0 <= i < |s| => WStr([s[i]])))
    case WMap(e) => Ok(seq(|e|, i requires 0 <= i < |e| => WStr(e[i].0)))
    case _ => Err(NotIterable(w))
  }

  /** `key in w`: a key of a dict, an element of a list, a substring of a
      string; other values cannot be searched. */
  function Contains(w: Wire, key: string): (r: Result<bool, Failure>)
    ensures r.Err? <==> !(w.WMap? || w.WList? || w.WStr?)
    ensures w.WMap? ==> r == Ok(HasKey(w.entries, key))
    ensures w.WList? ==> r == Ok(WStr(key) in w.items)
    ensures w.WStr? ==> r == Ok(Occurs(key, w.s))
  {
    match w
    case WMap(e) => Ok(HasKey(e, key))
    case WList(xs) => Ok(WStr(key) in xs)
    case WStr(t) => Ok(Occurs(key, t))
    case _ => Err(NotAContainer(w))
  }

  /** `a, b = w`. */
  function Unpack2(w: Wire): (r: Result<(Wire, Wire), Failure>)
    ensures w.WList? && |w.items| == 2 ==> r == Ok((w.items[0], w.items[1]))
  {
    var xs :- Iterate(w);
    if |xs| < 2 then Err(TooFewValues(|xs|))
    else if |xs| > 2 then Err(TooManyValues)
    else Ok((xs[0], xs[1]))
  }

  /** `d.get(key, default)` read as a coordinate. */
  function Coord(m: Dict, key: string, default: real): Result<real, Failure>
  {
    match Lookup(m, key)
    case None => Ok(default)
    case Some(w) => ToReal(w)
  }

  /** `FreeCAD.Vector(w.get("x", 0), w.get("y", 0), w.get("z", zDefault))`. */
  function VectorFrom(w: Wire, zDefault: real): Result<Vec, Failure>
  {
    if !w.WMap? then Err(NotAMapping(w))
    else
      var x :- Coord(w.entries, "x", 0.0);
      var y :- Coord(w.entries, "y", 0.0);
      var z :- Coord(w.entries, "z", zDefault);
      Ok(Vec(x, y, z))
  }

  /** The Placement assembled from a mapping: the position is read from Base,
      or from Position when there is no Base; the rotation from Rotation. */
  function DecodePlacement(val: Dict): Result<CadValue, Failure>
  {
    PlacementOf(GetOr(val, "Base", GetOr(val, "Position", WMap([]))), GetOr(val, "Rotation", WMap([])))
  }

  /** `FreeCAD.Placement(Vector(pos...), Rotation(Vector(rot["Axis"]...), rot["Angle"]))`. */
  function PlacementOf(pos: Wire, rot: Wire): Result<CadValue, Failure>
  {
    var base :- VectorFrom(pos, 0.0);
    if !rot.WMap? then Err(NotAMapping(rot))
    else
      var axis :- VectorFrom(GetOr(rot.entries, "Axis", WMap([])), 1.0);
      var angle :- ToReal(GetOr(rot.entries, "Angle", WInt(0)));
      Ok(CPlacement(base, Rot(axis, angle)))
  }

  /** The properties whose string value names another object of the document. */
  const RefSlots: seq<string> := ["Base", "Tool", "Source", "Profile"]

  /** A name the document resolves, as a link to that object. */
  function Resolve(names: set<string>, w: Wire): Result<CadValue, Failure>
  {
    if !w.WStr? then Err(NotAName(w))
    else if w.s in names then Ok(CLink(w.s))
    else Err(RefNotFound(w.s))
  }

  /** Each (name, face) pair with its name resolved to the object, in order;
      the first pair that does not unpack or names no object raises. */
  function ResolveRefs(names: set<string>, pairs: seq<Wire>): Result<seq<CadValue>, Failure>
  {
    if pairs == [] then Ok([])
    else
      var pair :- Unpack2(pairs[0]);
      var target :- Resolve(names, pair.0);
      var rest :- ResolveRefs(names, pairs[1..]);
      Ok([CList([target, Native(pair.1)])] + rest)
  }

  /** The object after one step, and the exception the step raised, if any.
      A step that raises may have changed the object already (a ViewObject
      mapping applied up to its failing key). */
  datatype Step = Step(obj: ObjState, err: Option<Failure>)

  /** `setattr(obj.ViewObject, k, c)`. */
  function SetView(o: ObjState, k: string, c: CadValue): ObjState
    requires o.view.Some?
  {
    o.(view := Some(SetViewAttr(o.view.value, k, c)))
  }

  /** Sets c into property prop, or reports f. */
  function SetOrFail(o: ObjState, prop: string, c: Result<CadValue, Failure>): Step
  {
    match c
    case Ok(v) => Step(SetAttr(o, prop, v), None)
    case Err(f) => Step(o, Some(f))
  }

  /** The ViewObject mapping, key by key: ShapeColor as floats, the rest as given. */
  function ApplyView(o: ObjState, entries: Dict): Step
    requires o.view.Some?
    decreases |entries|
  {
    if entries == [] then Step(o, None)
    else
      var (k, v) := entries[0];
      if k == "ShapeColor" then
        match Iterate(v).Then(ToReals)
        case Err(f) => Step(o, Some(f))
        case Ok(cs) => ApplyView(SetView(o, k, CList(cs)), entries[1..])
      else ApplyView(SetView(o, k, Native(v)), entries[1..])
  }

  /** One iteration of the loop of set_object_property, before the wrapping
      of its exception: declared properties are decoded by the kind of the
      value and of the property, the rest may go to the view record. */
  function ApplyOne(names: set<string>, o: ObjState, prop: string, val: Wire): Step
  {
    if prop in o.declared then ApplyDeclared(names, o, prop, val)
    else ApplyUndeclared(o, prop, val)
  }

  function ApplyDeclared(names: set<string>, o: ObjState, prop: string, val: Wire): Step
  {
    if prop == "Placement" && val.WMap? then
      SetOrFail(o, prop, DecodePlacement(val.entries))
    else
      match ReadAttr(o, prop)
      case Fails(m) => Step(o, Some(ReadFailed(m)))
      case Value(current) =>
        if current.CVector? && val.WMap? then
          SetOrFail(o, prop, VectorFrom(val, 0.0).Map(v => CVector(v)))
        else if prop in RefSlots && val.WStr? then
          SetOrFail(o, prop, Resolve(names, val))
        else if prop == "References" && val.WList? then
          SetOrFail(o, prop, ResolveRefs(names, val.items).Map(xs => CList(xs)))
        else
          Step(SetAttr(o, prop, Native(val)), None)
  }

  function ApplyUndeclared(o: ObjState, prop: string, val: Wire): Step
  {
    if prop == "ShapeColor" && val.WList? && o.view.Some? then
      match ToReals(val.items)
      case Err(f) => Step(o, Some(f))
      case Ok(cs) => Step(SetView(o, prop, CList(cs)), None)
    else if prop == "ViewObject" && val.WMap? && o.view.Some? then
      ApplyView(o, val.entries)
    else
      Step(SetAttr(o, prop, Native(val)), None)
  }

  /** set_object_property over a whole batch, in the batch's order: the first
      failing property stops the batch, wrapped with the property's name. */
  function ApplyBatch(names: set<string>, o: ObjState, props: Dict): Step
    decreases |props|
  {
    if props == [] then Step(o, None)
    else
      var s := ApplyOne(names, o, props[0].0, props[0].1);
      if s.err.Some? then Step(s.obj, Some(AssignFailed(props[0].0, s.err.value)))
      else ApplyBatch(names, s.obj, props[1..])
  }

  /** `set_object_property(doc, obj, properties)`: `properties.items()` is
      called outside the guarded loop, so a value that is no dict raises
      unwrapped before anything is assigned. */
  function ApplyProperties(names: set<string>, o: ObjState, props: Wire): (r: Step)
    ensures props.WMap? ==> r == ApplyBatch(names, o, props.entries)
    ensures !props.WMap? ==> r == Step(o, Some(NoAttribute(TypeName(props), "items")))
  {
    if props.WMap? then ApplyBatch(names, o, props.entries)
    else Step(o, Some(NoAttribute(TypeName(props), "items")))
  }
}

/** Properties of the applier. */
module ApplierFacts {
  import opened Values
  import opened Documents
  import opened Serialize
  import opened Applier

  /** A batch runs as its first part followed, unless that part raised, by the rest. */
  lemma {:induction false} BatchSplit(names: set<string>, o: ObjState, a: Dict, b: Dict)
    ensures ApplyBatch(names, o, a + b) ==
      var s := ApplyBatch(names, o, a);
      if s.err.Some? then s else ApplyBatch(names, s.obj, b)
    decreases |a|
  {
    if a != [] {
      assert (a + b)[0] == a[0];
      assert (a + b)[1..] == a[1..] + b;
      var s := ApplyOne(names, o, a[0].0, a[0].1);
      if s.err.None? {
        BatchSplit(names, s.obj, a[1..], b);
      }
    } else {
      assert a + b == b;
    }
  }

  /** The first failing property aborts the batch: everything before it stays
      applied, it raises "Property 'p' assignment error: ...", and nothing after
      it is looked at. */
  lemma BatchAbort(names: set<string>, o: ObjState, before: Dict, p: string, v: Wire, after: Dict)
    requires ApplyBatch(names, o, before).err.None?
    requires ApplyOne(names, ApplyBatch(names, o, before).obj, p, v).err.Some?
    ensures var s := ApplyOne(names, ApplyBatch(names, o, before).obj, p, v);
      ApplyBatch(names, o, before + [(p, v)] + after) == Step(s.obj, Some(AssignFailed(p, s.err.value)))
  {
    var rest := [(p, v)] + after;
    assert before + [(p, v)] + after == before + rest;
    BatchSplit(names, o, before, rest);
    assert rest[0] == (p, v);
  }

  /** A batch whose every step succeeds raises nothing and applies its steps in order. */
  lemma BatchApplied(names: set<string>, o: ObjState, before: Dict, p: string, v: Wire)
    requires ApplyBatch(names, o, before).err.None?
    requires ApplyOne(names, ApplyBatch(names, o, before).obj, p, v).err.None?
    ensures ApplyBatch(names, o, before + [(p, v)]) == ApplyOne(names, ApplyBatch(names, o, before).obj, p, v)
  {
    BatchSplit(names, o, before, [(p, v)]);
  }

  /** One more iteration of the loop of set_object_property, after a prefix
      of the batch that raised nothing. */
  lemma BatchStep(names: set<string>, o0: ObjState, props: Dict, i: nat)
    requires i < |props| && ApplyBatch(names, o0, props[..i]).err.None?
    ensures var s := ApplyOne(names, ApplyBatch(names, o0, props[..i]).obj, props[i].0, props[i].1);
      ApplyBatch(names, o0, props[..i + 1]) ==
        if s.err.Some? then Step(s.obj, Some(AssignFailed(props[i].0, s.err.value))) else s
  {
    assert props[..i + 1] == props[..i] + [props[i]];
    BatchSplit(names, o0, props[..i], [props[i]]);
    assert [props[i]][1..] == [];
  }

  /** The loop stops at the end of the batch or at the first property that raised. */
  lemma BatchStop(names: set<string>, o0: ObjState, props: Dict, i: nat)
    requires i <= |props|
    requires i == |props| || ApplyBatch(names, o0, props[..i]).err.Some?
    ensures ApplyBatch(names, o0, props[..i]) == ApplyBatch(names, o0, props)
  {
    if i < |props| {
      BatchSplit(names, o0, props[..i], props[i..]);
      assert props[..i] + props[i..] == props;
    } else {
      assert props[..i] == props;
    }
  }

  /** The parts of an object that set_object_property never changes. */
  predicate SameFrame(a: ObjState, b: ObjState)
  {
    a.name == b.name && a.labelText == b.labelText && a.typeId == b.typeId &&
    a.declared == b.declared && a.shape == b.shape && a.isGroup == b.isGroup
  }

  lemma {:induction false} ApplyViewFrame(o: ObjState, entries: Dict)
    requires o.view.Some?
    ensures SameFrame(ApplyView(o, entries).obj, o)
    ensures ApplyView(o, entries).obj.attrs == o.attrs
    ensures ApplyView(o, entries).obj.view.Some?
    decreases |entries|
  {
    if entries != [] {
      var (k, v) := entries[0];
      if k == "ShapeColor" {
        match Iterate(v).Then(ToReals)
        case Err(_) =>
        case Ok(cs) => ApplyViewFrame(SetView(o, k, CList(cs)), entries[1..]);
      } else {
        ApplyViewFrame(SetView(o, k, Native(v)), entries[1..]);
      }
    }
  }

  /** One step touches the one property it names, or the view record when it
      routes there, and nothing else; a step that raises before assigning
      leaves the object as it was. */
  lemma ApplyOneFrame(names: set<string>, o: ObjState, prop: string, val: Wire)
    ensures var s := ApplyOne(names, o, prop, val);
      && SameFrame(s.obj, o)
      && (forall q :: q != prop ==> ReadAttr(s.obj, q) == ReadAttr(o, q))
      && (prop in o.declared || (prop != "ShapeColor" && prop != "ViewObject") ==> s.obj.view == o.view)
      && (s.obj.view.Some? <==> o.view.Some?)
      && (s.err.Some? && prop != "ViewObject" ==> s.obj == o)
  {
    if prop in o.declared {
      DeclaredFrame(names, o, prop, val);
    } else {
      UndeclaredFrame(o, prop, val);
    }
  }

  /** One step keeps the object's name and the other fields SameFrame names. */
  lemma ApplyOneSame(names: set<string>, o: ObjState, prop: string, val: Wire)
    ensures SameFrame(ApplyOne(names, o, prop, val).obj, o)
  {
    ApplyOneFrame(names, o, prop, val);
  }

  lemma DeclaredFrame(names: set<string>, o: ObjState, prop: string, val: Wire)
    ensures var s := ApplyDeclared(names, o, prop, val);
      && s.obj.view == o.view
      && (s.err.None? ==> prop in s.obj.attrs && s.obj.attrs[prop].Value? && s.obj == SetAttr(o, prop, s.obj.attrs[prop].v))
      && (s.err.Some? ==> s.obj == o)
  {
    if prop == "Placement" && val.WMap? {
      SetOrFailFrame(o, prop, DecodePlacement(val.entries));
    } else if ReadAttr(o, prop).Value? {
      var current := ReadAttr(o, prop).v;
      if current.CVector? && val.WMap? {
        SetOrFailFrame(o, prop, VectorFrom(val, 0.0).Map(v => CVector(v)));
      } else if prop in RefSlots && val.WStr? {
        SetOrFailFrame(o, prop, Resolve(names, val));
      } else if prop == "References" && val.WList? {
        SetOrFailFrame(o, prop, ResolveRefs(names, val.items).Map(xs => CList(xs)));
      }
    }
  }

  lemma SetOrFailFrame(o: ObjState, prop: string, c: Result<CadValue, Failure>)
    ensures var s := SetOrFail(o, prop, c);
      && (s.err.None? ==> prop in s.obj.attrs && s.obj.attrs[prop].Value? && s.obj == SetAttr(o, prop, s.obj.attrs[prop].v))
      && (s.err.Some? ==> s.obj == o)
  {
  }

  lemma UndeclaredFrame(o: ObjState, prop: string, val: Wire)
    ensures var s := ApplyUndeclared(o, prop, val);
      && SameFrame(s.obj, o)
      && (forall q :: q != prop ==> ReadAttr(s.obj, q) == ReadAttr(o, q))
      && (prop != "ShapeColor" && prop != "ViewObject" ==> s.obj.view == o.view)
      && (s.obj.view.Some? <==> o.view.Some?)
      && (s.err.Some? && prop != "ViewObject" ==> s.obj == o)
  {
    if prop == "ViewObject" && val.WMap? && o.view.Some? {
      ApplyViewFrame(o, val.entries);
    }
  }

  /** A whole batch changes only the properties it names and, through
      ShapeColor or ViewObject, the view record. */
  lemma {:induction false} BatchFrame(names: set<string>, o: ObjState, props: Dict)
    ensures var s := ApplyBatch(names, o, props);
      && SameFrame(s.obj, o)
      && (forall q :: !HasKey(props, q) ==> ReadAttr(s.obj, q) == ReadAttr(o, q))
      && (!HasKey(props, "ShapeColor") && !HasKey(props, "ViewObject") ==> s.obj.view == o.view)
    decreases |props|
  {
    if props != [] {
      var (p, v) := props[0];
      ApplyOneFrame(names, o, p, v);
      var s := ApplyOne(names, o, p, v);
      assert KeysOf(props) == [p] + KeysOf(props[1..]);
      if s.err.None? {
        BatchFrame(names, s.obj, props[1..]);
      }
    }
  }
}

/** Decoding the values the encoder produces, and the default rules. */
module DecodeFacts {
  import opened Values
  import opened Documents
  import opened Serialize
  import opened Applier

  lemma VectorWireLookup(v: Vec)
    ensures Lookup(VectorWire(v).entries, "x") == Some(WFloat(v.x))
    ensures Lookup(VectorWire(v).entries, "y") == Some(WFloat(v.y))
    ensures Lookup(VectorWire(v).entries, "z") == Some(WFloat(v.z))
  {
    var tz: Dict := [("z", WFloat(v.z))];
    var ty := [("y", WFloat(v.y))] + tz;
    assert VectorWire(v).entries == [("x", WFloat(v.x))] + ty;
    LookupCons(("x", WFloat(v.x)), ty, "y");
    LookupCons(("x", WFloat(v.x)), ty, "z");
    LookupCons(("y", WFloat(v.y)), tz, "z");
  }

  /** A vector-valued property given the encoding of a vector gets that vector back. */
  lemma VectorRoundTrip(v: Vec, zDefault: real)
    ensures VectorFrom(VectorWire(v), zDefault) == Ok(v)
  {
    VectorWireLookup(v);
  }

  /** A coordinate of a mapping: its number when present, the default otherwise. */
  function CoordOf(m: Dict, key: string, default: real): real
  {
    if HasKey(m, key) && ToReal(Lookup(m, key).value).Ok? then ToReal(Lookup(m, key).value).value else default
  }

  /** For every mapping: the vector is made exactly when each coordinate
      present is a number; a missing x or y is 0, a missing z is zDefault,
      and a present coordinate is its number. */
  lemma VectorDefaults(m: Dict, zDefault: real)
    ensures var r := VectorFrom(WMap(m), zDefault);
      && (r.Ok? <==> && (HasKey(m, "x") ==> ToReal(Lookup(m, "x").value).Ok?)
                     && (HasKey(m, "y") ==> ToReal(Lookup(m, "y").value).Ok?)
                     && (HasKey(m, "z") ==> ToReal(Lookup(m, "z").value).Ok?))
      && (r.Ok? ==> r.value == Vec(CoordOf(m, "x", 0.0), CoordOf(m, "y", 0.0), CoordOf(m, "z", zDefault)))
      && (r.Ok? && !HasKey(m, "x") ==> r.value.x == 0.0)
      && (r.Ok? && !HasKey(m, "y") ==> r.value.y == 0.0)
      && (r.Ok? && !HasKey(m, "z") ==> r.value.z == zDefault)
  {
  }

  /** A mapping that is no vector's mapping is rejected. */
  lemma VectorNeedsMapping(w: Wire, zDefault: real)
    requires !w.WMap?
    ensures VectorFrom(w, zDefault) == Err(NotAMapping(w))
  {
  }

  lemma RotationWireLookup(r: Rot)
    ensures Lookup(RotationWire(r).entries, "Axis") == Some(VectorWire(r.axis))
    ensures Lookup(RotationWire(r).entries, "Angle") == Some(WFloat(r.angle))
  {
    var t: Dict := [("Angle", WFloat(r.angle))];
    assert RotationWire(r).entries == [("Axis", VectorWire(r.axis))] + t;
    LookupCons(("Axis", VectorWire(r.axis)), t, "Angle");
  }

  /** The mapping {Key: base, Rotation: rotation}. */
  function PlacementMap(key: string, b: Vec, r: Rot): Dict
  {
    [(key, VectorWire(b)), ("Rotation", RotationWire(r))]
  }

  lemma PlacementMapLookup(key: string, b: Vec, r: Rot)
    requires key != "Rotation"
    ensures Lookup(PlacementMap(key, b, r), key) == Some(VectorWire(b))
    ensures Lookup(PlacementMap(key, b, r), "Rotation") == Some(RotationWire(r))
    ensures forall k :: k != key && k != "Rotation" ==> Lookup(PlacementMap(key, b, r), k) == None
  {
    var t: Dict := [("Rotation", RotationWire(r))];
    assert PlacementMap(key, b, r) == [(key, VectorWire(b))] + t;
    forall k
      ensures Lookup(PlacementMap(key, b, r), k) == if k == key then Some(VectorWire(b)) else Lookup(t, k)
    {
      LookupCons((key, VectorWire(b)), t, k);
    }
    forall k ensures Lookup(t, k) == if k == "Rotation" then Some(RotationWire(r)) else None {
      LookupCons(("Rotation", RotationWire(r)), [], k);
    }
  }

  /** Assigning a serialized Placement back gives the same base, axis and angle
      (Rotation viewed as storing the axis and angle it is built from). */
  lemma PlacementRoundTrip(b: Vec, r: Rot, show: Show)
    ensures Encode(CPlacement(b, r), show).WMap?
    ensures DecodePlacement(Encode(CPlacement(b, r), show).entries) == Ok(CPlacement(b, r))
  {
    assert Encode(CPlacement(b, r), show).entries == PlacementMap("Base", b, r);
    PlacementFrom("Base", b, r);
  }

  /** Position is read when Base is absent, and decodes the same way. */
  lemma PositionAlias(b: Vec, r: Rot)
    ensures DecodePlacement(PlacementMap("Position", b, r)) == Ok(CPlacement(b, r))
  {
    PlacementFrom("Position", b, r);
  }

  lemma PlacementFrom(key: string, b: Vec, r: Rot)
    requires key == "Base" || key == "Position"
    ensures DecodePlacement(PlacementMap(key, b, r)) == Ok(CPlacement(b, r))
  {
    var m := PlacementMap(key, b, r);
    PlacementMapLookup(key, b, r);
    assert GetOr(m, "Base", GetOr(m, "Position", WMap([]))) == VectorWire(b);
    assert GetOr(m, "Rotation", WMap([])) == RotationWire(r);
    VectorRoundTrip(b, 0.0);
    RotationWireLookup(r);
    VectorRoundTrip(r.axis, 1.0);
  }

  /** Base takes precedence: when a mapping has Base, its Position is ignored. */
  lemma BaseBeatsPosition(val: Dict)
    requires HasKey(val, "Base")
    ensures DecodePlacement(val) == DecodePlacement(Without(val, "Position"))
  {
    var val' := Without(val, "Position");
    assert Lookup(val', "Base") == Lookup(val, "Base");
    assert Lookup(val', "Rotation") == Lookup(val, "Rotation");
  }

  /** For every mapping: without Base and Position the base is (0,0,0);
      without Rotation the rotation is the identity, and a Rotation mapping
      without Axis or Angle turns about (0,0,1) or by 0. The position is
      decoded as a vector with z defaulting to 0. */
  lemma PlacementDefaults(val: Dict)
    ensures var pos := GetOr(val, "Base", GetOr(val, "Position", WMap([])));
      var rot := GetOr(val, "Rotation", WMap([]));
      var r := DecodePlacement(val);
      && (r.Ok? ==> r.value.CPlacement? && VectorFrom(pos, 0.0) == Ok(r.value.base))
      && (r.Ok? && !HasKey(val, "Base") && !HasKey(val, "Position") ==> r.value.base == Vec(0.0, 0.0, 0.0))
      && (r.Ok? && !HasKey(val, "Rotation") ==> r.value.rotation == Rot(Vec(0.0, 0.0, 1.0), 0.0))
      && (r.Ok? && rot.WMap? && !HasKey(rot.entries, "Axis") ==> r.value.rotation.axis == Vec(0.0, 0.0, 1.0))
      && (r.Ok? && rot.WMap? && !HasKey(rot.entries, "Angle") ==> r.value.rotation.angle == 0.0)
      && (!rot.WMap? && VectorFrom(pos, 0.0).Ok? ==> r == Err(NotAMapping(rot)))
  {
    var pos := GetOr(val, "Base", GetOr(val, "Position", WMap([])));
    var rot := GetOr(val, "Rotation", WMap([]));
    VectorDefaults([], 0.0);
    VectorDefaults([], 1.0);
  }
}

/** Where a single value goes: reference slots, reference lists, the view
    record, and the values a serialized object carries. */
module RoutingFacts {
  import opened Values
  import opened Documents
  import opened Serialize
  import opened Applier
  import DecodeFacts

  /** A string on Base, Tool, Source or Profile names an object: it is linked
      when the document has it and raises otherwise, changing nothing. */
  lemma RefSlotResolution(names: set<string>, o: ObjState, prop: string, n: string)
    requires prop in RefSlots && prop in o.declared
    requires ReadAttr(o, prop).Value?
    ensures n in names ==> ApplyOne(names, o, prop, WStr(n)) == Step(SetAttr(o, prop, CLink(n)), None)
    ensures n !in names ==> ApplyOne(names, o, prop, WStr(n)) == Step(o, Some(RefNotFound(n)))
  {
    assert prop != "Placement";
  }

  /** Reference pairs whose first half is a name. */
  predicate NamedPairs(pairs: seq<Wire>)
  {
    forall i :: 0 <= i < |pairs| ==>
      pairs[i].WList? && |pairs[i].items| == 2 && pairs[i].items[0].WStr?
  }

  /** Every (name, face) pair resolves, in order, or the list raises with a
      name the document lacks. */
  lemma {:induction false} ResolveRefsSpec(names: set<string>, pairs: seq<Wire>)
    requires NamedPairs(pairs)
    ensures var r := ResolveRefs(names, pairs);
      && (r.Ok? <==> forall i :: 0 <= i < |pairs| ==> pairs[i].items[0].s in names)
      && (r.Ok? ==> |r.value| == |pairs|)
      && (r.Ok? ==> forall i :: 0 <= i < |pairs| ==>
            r.value[i] == CList([CLink(pairs[i].items[0].s), Native(pairs[i].items[1])]))
      && (r.Err? ==> r.error.RefNotFound? && r.error.name !in names)
  {
    if pairs != [] {
      var rest := pairs[1..];
      assert NamedPairs(rest) by {
        forall i | 0 <= i < |rest| ensures rest[i] == pairs[i + 1] { }
      }
      ResolveRefsSpec(names, rest);
      var n := pairs[0].items[0].s;
      assert Unpack2(pairs[0]) == Ok((pairs[0].items[0], pairs[0].items[1]));
      var r := ResolveRefs(names, pairs);
      if n in names {
        var t := ResolveRefs(names, rest);
        if t.Ok? {
          assert r == Ok([CList([CLink(n), Native(pairs[0].items[1])])] + t.value);
          forall i | 0 <= i < |pairs| ensures pairs[i].items[0].s in names {
            if i > 0 { assert pairs[i] == rest[i - 1]; }
          }
          forall i | 0 <= i < |pairs|
            ensures r.value[i] == CList([CLink(pairs[i].items[0].s), Native(pairs[i].items[1])])
          {
            if i > 0 { assert pairs[i] == rest[i - 1]; }
          }
        } else {
          assert r == Err(t.error);
          var j :| 0 <= j < |rest| && rest[j].items[0].s !in names;
          assert pairs[j + 1] == rest[j];
        }
      } else {
        assert r == Err(RefNotFound(n));
      }
    }
  }

  /** A References list on a declared References property is stored as the
      resolved pairs when every name resolves. */
  lemma ReferencesResolution(names: set<string>, o: ObjState, pairs: seq<Wire>)
    requires "References" in o.declared && ReadAttr(o, "References").Value?
    requires NamedPairs(pairs)
    ensures var s := ApplyOne(names, o, "References", WList(pairs));
      && (s.err.None? <==> forall i :: 0 <= i < |pairs| ==> pairs[i].items[0].s in names)
      && (s.err.None? ==> s.obj == SetAttr(o, "References", CList(ResolveRefs(names, pairs).value)))
      && (s.err.Some? ==> s.obj == o && s.err.value.RefNotFound? && s.err.value.name !in names)
  {
    ResolveRefsSpec(names, pairs);
    assert "References" !in RefSlots;
  }

  /** ShapeColor that is not a declared property goes to the view record, as
      floats, when the object has a view; the object's own properties stay. */
  lemma ShapeColorToView(names: set<string>, o: ObjState, xs: seq<Wire>)
    requires "ShapeColor" !in o.declared && o.view.Some?
    requires forall i :: 0 <= i < |xs| ==> ToReal(xs[i]).Ok?
    ensures var s := ApplyOne(names, o, "ShapeColor", WList(xs));
      && s.err.None?
      && s.obj.attrs == o.attrs
      && s.obj.view.Some?
      && s.obj.view.value.shapeColor == CList(ToReals(xs).value)
      && |ToReals(xs).value| == |xs|
      && (forall i :: 0 <= i < |xs| ==> ToReals(xs).value[i] == CFloat(ToReal(xs[i]).value))
  {
  }

  /** Without a view, or when ShapeColor is a declared property, it is not routed
      to the view record. */
  lemma ShapeColorNotRouted(names: set<string>, o: ObjState, val: Wire)
    requires "ShapeColor" !in o.declared && o.view.None?
    ensures ApplyOne(names, o, "ShapeColor", val) == Step(SetAttr(o, "ShapeColor", Native(val)), None)
  {
  }

  /** A ViewObject mapping sets its ShapeColor on the view as floats too. */
  lemma ViewObjectShapeColor(names: set<string>, o: ObjState, xs: seq<Wire>)
    requires "ViewObject" !in o.declared && o.view.Some?
    requires forall i :: 0 <= i < |xs| ==> ToReal(xs[i]).Ok?
    ensures var s := ApplyOne(names, o, "ViewObject", WMap([("ShapeColor", WList(xs))]));
      && s.err.None?
      && s.obj.attrs == o.attrs
      && s.obj.view == Some(o.view.value.(shapeColor := CList(ToReals(xs).value)))
  {
    var e: Dict := [("ShapeColor", WList(xs))];
    assert e[0] == ("ShapeColor", WList(xs)) && e[1..] == [];
    var cs := ToReals(xs).value;
    assert Iterate(WList(xs)).Then(ToReals) == Ok(cs);
    var o' := SetView(o, "ShapeColor", CList(cs));
    assert o'.view == Some(o.view.value.(shapeColor := CList(cs)));
    assert ApplyView(o', []) == Step(o', None);
    assert ApplyView(o, e) == Step(o', None);
    assert ApplyOne(names, o, "ViewObject", WMap(e)) == ApplyView(o, e);
  }

  /** What get_object reports for a property, handed back to edit_object,
      leaves the object as it was: for plain values, vectors, and the
      Placement, except where the name gives the value another meaning
      (a reference slot or a References list). */
  lemma EditRoundTrip(names: set<string>, o: ObjState, p: string, v: CadValue, show: Show)
    requires p in o.declared && p in o.attrs && o.attrs[p] == Value(v)
    requires Plain(v) || v.CVector? || v.CPlacement?
    requires v.CPlacement? <==> p == "Placement"
    requires p !in RefSlots && p != "References"
    ensures ApplyOne(names, o, p, Encode(v, show)) == Step(o, None)
  {
    var w := Encode(v, show);
    if v.CPlacement? {
      DecodeFacts.PlacementRoundTrip(v.base, v.rotation, show);
    } else if v.CVector? {
      DecodeFacts.VectorRoundTrip(v.v, 0.0);
    } else {
      PlainRoundTrip(v, show);
      assert !w.WMap?;
    }
    assert SetAttr(o, p, v) == o;
  }
}
