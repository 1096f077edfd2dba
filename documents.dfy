/** The live document model the bridge works on: documents holding named
    objects, each with declared properties, an optional shape and an optional
    view record. */
module Documents {
  import opened Values

  /** Reading a property: its value, or the message of the exception its getter raises. */
  datatype Read = Value(v: CadValue) | Fails(message: string)

  /** A vertex, edge or face of a shape; only how many there are matters here. */
  datatype SubShape = SubShape(index: nat)

  /** The derived geometry of an object (read-only for the bridge). */
  datatype Shape = Shape(volume: real, area: real, vertexes: seq<SubShape>, edges: seq<SubShape>, faces: seq<SubShape>)

  /** The view provider of an object: its display attributes. */
  datatype View = View(shapeColor: CadValue, transparency: CadValue, visibility: CadValue, others: map<string, CadValue>)

  /** `setattr(view, k, c)`. */
  function SetViewAttr(v: View, k: string, c: CadValue): View
  {
    if k == "ShapeColor" then v.(shapeColor := c)
    else if k == "Transparency" then v.(transparency := c)
    else if k == "Visibility" then v.(visibility := c)
    else v.(others := v.others[k := c])
  }

  /** A document object. `declared` is its PropertiesList, in order; `attrs`
      holds what `getattr` reads for every attribute it has, declared or not;
      `isGroup` says whether the object can hold members (it has
      `addObject`, as an analysis container does); a group lists its members
      in its Group property. */
  datatype ObjState = ObjState(
    name: string,
    labelText: string,
    typeId: string,
    declared: seq<string>,
    attrs: map<string, Read>,
    shape: Option<Shape>,
    view: Option<View>,
    isGroup: bool)

  /** `hasattr(o, p)`. */
  predicate HasAttr(o: ObjState, p: string)
  {
    p in o.attrs
  }

  /** `getattr(o, p)`: reading an attribute the object lacks raises too. */
  function ReadAttr(o: ObjState, p: string): Read
  {
    if p in o.attrs then o.attrs[p] else Fails("'" + o.typeId + "' object has no attribute '" + p + "'")
  }

  /** `setattr(o, p, c)`, the kernel accepting the value as given. */
  function SetAttr(o: ObjState, p: string, c: CadValue): ObjState
  {
    o.(attrs := o.attrs[p := Value(c)])
  }

  /** A document: its objects by internal name, and `order`, the order of `doc.Objects`. */
  datatype DocState = DocState(name: string, labelText: string, fileName: string, objects: map<string, ObjState>, order: seq<string>)

  /** The names in `order` are exactly the objects' names, each once, and
      every object is filed under its own name. */
  ghost predicate DocValid(d: DocState)
  {
    && Distinct(d.order)
    && (forall n :: n in d.order <==> n in d.objects)
    && (forall n :: n in d.objects ==> d.objects[n].name == n)
  }

  /** `doc.Objects`: the objects in document order. */
  function ObjectsOf(d: DocState): (os: seq<ObjState>)
    requires DocValid(d)
    ensures |os| == |d.order|
    ensures forall i :: 0 <= i < |os| ==> os[i] == d.objects[d.order[i]]
  {
    seq(|d.order|, i requires 0 <= i < |d.order| => d.objects[d.order[i]])
  }

  /** Every list of an object's attributes or members stays as it is, except its attribute values. */
  function PutObject(d: DocState, o: ObjState): (r: DocState)
    requires DocValid(d)
    requires o.name in d.objects
    ensures DocValid(r)
    ensures r.objects == d.objects[o.name := o] && r.order == d.order
  {
    d.(objects := d.objects[o.name := o])
  }

  /** Writing an object back twice leaves the second version. */
  lemma PutObjectTwice(d: DocState, a: ObjState, b: ObjState)
    requires DocValid(d) && a.name in d.objects && b.name == a.name
    ensures PutObject(PutObject(d, a), b) == PutObject(d, b)
  {
    assert d.objects[a.name := a][b.name := b] == d.objects[b.name := b];
  }

  /** The links a group's Group property holds; nothing when it holds no list. */
  function Members(o: ObjState): seq<CadValue>
  {
    if "Group" in o.attrs && o.attrs["Group"].Value? && o.attrs["Group"].v.CList? then o.attrs["Group"].v.items else []
  }

  /** `group.addObject(n)`: the link to n goes last in the Group property. */
  function Joined(o: ObjState, n: string): (r: ObjState)
    ensures Members(r) == Members(o) + [CLink(n)]
    ensures r == o.(attrs := r.attrs) && r.attrs.Keys == o.attrs.Keys + {"Group"}
    ensures forall q :: q in o.attrs && q != "Group" ==> r.attrs[q] == o.attrs[q]
  {
    SetAttr(o, "Group", CList(Members(o) + [CLink(n)]))
  }

  /** `doc.addObject`: the new object goes last in document order. */
  function AddObject(d: DocState, o: ObjState): (r: DocState)
    requires DocValid(d)
    requires o.name !in d.objects
    ensures DocValid(r)
    ensures r.objects == d.objects[o.name := o] && r.order == d.order + [o.name]
  {
    d.(objects := d.objects[o.name := o], order := d.order + [o.name])
  }

  /** `doc.removeObject(n)`. */
  function RemoveObject(d: DocState, n: string): (r: DocState)
    requires DocValid(d)
    ensures DocValid(r)
    ensures r.objects == d.objects - {n}
    ensures r.order == Remove(d.order, n)
    ensures forall m :: m in r.order <==> m in d.order && m != n
  {
    RemoveDistinct(d.order, n);
    d.(objects := d.objects - {n}, order := Remove(d.order, n))
  }

  /** The sequence without the element n, the others in their order. */
  function Remove(s: seq<string>, n: string): (r: seq<string>)
    ensures forall m :: m in r <==> m in s && m != n
    ensures n !in s ==> r == s
  {
    if s == [] then []
    else if s[0] == n then Remove(s[1..], n)
    else [s[0]] + Remove(s[1..], n)
  }

  /** Removing keeps the order: the part before and the part after give
      their own remainders, one after the other. */
  lemma {:induction false} RemoveAppend(a: seq<string>, b: seq<string>, n: string)
    ensures Remove(a + b, n) == Remove(a, n) + Remove(b, n)
  {
    if a == [] {
      assert a + b == b;
    } else {
      assert (a + b)[0] == a[0] && (a + b)[1..] == a[1..] + b;
      RemoveAppend(a[1..], b, n);
    }
  }

  lemma {:induction false} RemoveDistinct(s: seq<string>, n: string)
    requires Distinct(s)
    ensures Distinct(Remove(s, n))
  {
    if s != [] {
      RemoveDistinct(s[1..], n);
      assert s[0] !in s[1..];
    }
  }

  /** The name the kernel gives a new object or document asked to be called
      `base`: `base` itself when it is free, otherwise a name not yet taken. */
  function FreshName(taken: set<string>, base: string): (r: string)
    ensures r !in taken
    ensures base !in taken ==> r == base
    decreases |NamesAtLeast(taken, |base|)|
  {
    if base !in taken then base
    else
      assert base in NamesAtLeast(taken, |base|) - NamesAtLeast(taken, |base| + 1);
      assert NamesAtLeast(taken, |base| + 1) < NamesAtLeast(taken, |base|);
      assert |base + "0"| == |base| + 1;
      SubsetSmaller(NamesAtLeast(taken, |base| + 1), NamesAtLeast(taken, |base|) - {base});
      FreshName(taken, base + "0")
  }

  lemma SubsetSmaller(a: set<string>, b: set<string>)
    requires a <= b
    ensures |a| <= |b|
  {
    if a != {} {
      var x :| x in a;
      SubsetSmaller(a - {x}, b - {x});
    }
  }

  function NamesAtLeast(taken: set<string>, n: nat): set<string>
  {
    set t | t in taken && |t| >= n
  }
}
