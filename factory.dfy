/** What the GUI-thread tasks of the bridge do to the open documents:
    `_create_document_gui`, `_create_object_gui`, `_edit_object_gui` and
    `_delete_object_gui`, each as a function of the documents before the
    task, together with the kernel calls they rely on. */
module Factory {
  import opened Values
  import opened Documents
  import opened Serialize
  import opened Applier
  import ApplierFacts
  import opened Dispatch
  import opened Sequencer

  /** What the kernel gives a new object of some type: its declared
      properties with their first values, its shape and view, and whether it
      can hold members. */
  datatype Template = Template(typeId: string, declared: seq<string>, attrs: map<string, Read>,
                               shape: Option<Shape>, view: Option<View>, isGroup: bool)

  /** The kernel's creators: `doc.addObject` knows the types of `catalog`;
      `makers` are the callable functions of ObjectsFem, by name, with the
      object each of them makes. */
  datatype Kernel = Kernel(catalog: map<string, Template>, makers: map<string, Template>)

  /** ObjectsFem has the three makers the bridge calls by name. */
  predicate KernelValid(k: Kernel)
  {
    "makeMaterialSolid" in k.makers && "makeAnalysis" in k.makers && "makeMeshGmsh" in k.makers
  }

  /** The open documents, by name. */
  type Docs = map<string, DocState>

  ghost predicate AppValid(docs: Docs)
  {
    forall n :: n in docs ==> DocValid(docs[n]) && docs[n].name == n
  }

  /** Replacing one document by a valid one of the same name keeps the application valid. */
  lemma PutValid(docs: Docs, n: string, d: DocState)
    requires AppValid(docs) && DocValid(d) && d.name == n
    ensures AppValid(docs[n := d])
  {
  }

  /** Writing a document back unchanged changes nothing. */
  lemma UpdateSame(docs: Docs, n: string)
    requires n in docs
    ensures docs[n := docs[n]] == docs
  {
  }

  /** Writing a document twice leaves the second version. */
  lemma UpdateTwice(docs: Docs, n: string, a: DocState, b: DocState)
    ensures docs[n := a][n := b] == docs[n := b]
  {
  }

  /** The document-level fields a task never changes. */
  predicate SameDoc(a: DocState, b: DocState)
  {
    a.name == b.name && a.labelText == b.labelText && a.fileName == b.fileName
  }

  function Instantiate(t: Template, name: string): ObjState
  {
    ObjState(name, name, t.typeId, t.declared, t.attrs, t.shape, t.view, t.isGroup)
  }

  /** `doc.addObject(type, name)` and the ObjectsFem makers: a new object
      made from t goes last in d, under `base` when that name is free. */
  function Make(d: DocState, t: Template, base: string): (r: (DocState, string))
    requires DocValid(d)
    ensures DocValid(r.0) && SameDoc(r.0, d)
    ensures r.1 == FreshName(d.objects.Keys, base)
    ensures r.1 !in d.objects && (base !in d.objects ==> r.1 == base)
    ensures r.0.objects == d.objects[r.1 := Instantiate(t, r.1)] && r.0.order == d.order + [r.1]
  {
    var n := FreshName(d.objects.Keys, base);
    (AddObject(d, Instantiate(t, n)), n)
  }

  /** A task's effect on its document and the exception that ended it, if
      any; the document may have changed before the exception. */
  datatype Effect = Effect(doc: DocState, err: Option<Failure>)

  /** `set_object_property(doc, doc.getObject(n), props)`. */
  function BatchEffect(d: DocState, n: string, props: Wire): (r: Effect)
    requires DocValid(d) && n in d.objects
    ensures DocValid(r.doc) && SameDoc(r.doc, d) && r.doc.order == d.order
    ensures r.doc.objects == d.objects[n := ApplyProperties(d.objects.Keys, d.objects[n], props).obj]
    ensures r.err == ApplyProperties(d.objects.Keys, d.objects[n], props).err
  {
    var s := ApplyProperties(d.objects.Keys, d.objects[n], props);
    if props.WMap? then
      ApplierFacts.BatchFrame(d.objects.Keys, d.objects[n], props.entries);
      Effect(PutObject(d, s.obj), s.err)
    else Effect(PutObject(d, s.obj), s.err)
  }

  /** `getattr(doc, a).addObject`: the analysis is named by a string, and is
      an object of the document that can hold members. */
  function GroupCheck(d: DocState, a: Wire): (r: Option<Failure>)
    ensures r.None? <==> a.WStr? && a.s in d.objects && d.objects[a.s].isGroup
  {
    if !a.WStr? then Some(NotAnAttributeName(a))
    else if a.s !in d.objects then Some(NoAttribute("App.Document", a.s))
    else if !d.objects[a.s].isGroup then Some(NoAttribute(d.objects[a.s].typeId, "addObject"))
    else None
  }

  /** `analysis.addObject(obj)`: the link to n goes last in the Group of a. */
  function AddToGroup(d: DocState, a: string, n: string): (r: DocState)
    requires DocValid(d) && a in d.objects
    ensures DocValid(r) && SameDoc(r, d) && r.order == d.order
    ensures r.objects == d.objects[a := Joined(d.objects[a], n)]
  {
    PutObject(d, Joined(d.objects[a], n))
  }

  /** `getattr(doc, a).addObject(n)` for an object that exists already. */
  function JoinAnalysis(d: DocState, a: Wire, n: string): (r: Effect)
    requires DocValid(d)
    ensures DocValid(r.doc) && SameDoc(r.doc, d) && r.doc.order == d.order
    ensures r.err == GroupCheck(d, a)
    ensures r.err.Some? ==> r.doc == d
    ensures r.err.None? ==> r.doc.objects == d.objects[a.s := Joined(d.objects[a.s], n)]
  {
    match GroupCheck(d, a)
    case Some(f) => Effect(d, Some(f))
    case None => Effect(AddToGroup(d, a.s, n), None)
  }

  /** The loop of the mesh branch: each pair is assigned as given, and only
      when the object has an attribute of that name. Only attribute values
      change: no attribute is added and the other fields stay. */
  function SetPresent(o: ObjState, props: Dict): (r: ObjState)
    ensures r == o.(attrs := r.attrs) && r.attrs.Keys == o.attrs.Keys
    decreases |props|
  {
    if props == [] then o
    else
      var (p, v) := props[0];
      SetPresent(if HasAttr(o, p) then SetAttr(o, p, Native(v)) else o, props[1..])
  }

  /** A `Fem::FemMeshGmsh` request with an analysis: the mesh is made and
      joins the analysis before its Part is looked at. */
  function CreateMesh(k: Kernel, d: DocState, req: ObjectRequest): (r: Effect)
    requires KernelValid(k) && DocValid(d) && HasAnalysis(req)
    ensures DocValid(r.doc) && SameDoc(r.doc, d)
  {
    match GroupCheck(d, req.analysis)
    case Some(f) => Effect(d, Some(f))
    case None => MeshPart(NewMesh(k, d, req.name, req.analysis.s), FreshName(d.objects.Keys, req.name), req.properties)
  }

  /** The mesh made under `base` (or a fresh name) and added to the analysis a. */
  function NewMesh(k: Kernel, d: DocState, base: string, a: string): (r: DocState)
    requires KernelValid(k) && DocValid(d) && a in d.objects
    ensures DocValid(r) && SameDoc(r, d)
    ensures var n := FreshName(d.objects.Keys, base);
      && r.order == d.order + [n]
      && r.objects == d.objects[n := Instantiate(k.makers["makeMeshGmsh"], n)][a := Joined(d.objects[a], n)]
  {
    var (d1, n) := Make(d, k.makers["makeMeshGmsh"], base);
    assert d1.objects[a] == d.objects[a];
    AddToGroup(d1, a, n)
  }

  /** The new mesh n: `"Part" in props` is asked first; the Part is then
      resolved and assigned, and the remaining properties the mesh has are
      assigned. Properties that are no dict fail before any assignment. */
  function MeshPart(d: DocState, n: string, props: Wire): (r: Effect)
    requires DocValid(d) && n in d.objects
    ensures DocValid(r.doc) && SameDoc(r.doc, d) && r.doc.order == d.order
    ensures r.doc.objects.Keys == d.objects.Keys
    ensures forall m :: m in d.objects && m != n ==> r.doc.objects[m] == d.objects[m]
    ensures r.doc.objects[n] == d.objects[n].(attrs := r.doc.objects[n].attrs)
    ensures Contains(props, "Part") == Ok(false) ==> r == Effect(d, Some(MissingPart))
    ensures Contains(props, "Part").Err? ==> r == Effect(d, Some(Contains(props, "Part").error))
    ensures Contains(props, "Part") == Ok(true) && !props.WMap? ==> r == Effect(d, Some(BadIndex(props)))
  {
    match Contains(props, "Part")
    case Err(f) => Effect(d, Some(f))
    case Ok(has) =>
      if !has then Effect(d, Some(MissingPart))
      else if !props.WMap? then Effect(d, Some(BadIndex(props)))
      else
        match Resolve(d.objects.Keys, Lookup(props.entries, "Part").value)
        case Err(f) => Effect(d, Some(f))
        case Ok(target) =>
          Effect(PutObject(d, SetPresent(SetAttr(d.objects[n], "Part", target), Without(props.entries, "Part"))), None)
  }

  /** Any other `Fem::` type: the override table, else `"make" + short`. */
  function CreateFem(k: Kernel, d: DocState, req: ObjectRequest, short: string): (r: Effect)
    requires KernelValid(k) && DocValid(d) && req.typeName.WStr?
    ensures DocValid(r.doc) && SameDoc(r.doc, d)
  {
    match FemMaker(k.makers.Keys, short)
    case None => Effect(d, Some(NoCreationMethod("make" + short)))
    case Some(m) => FemSetup(Make(d, k.makers[m], req.name).0, FreshName(d.objects.Keys, req.name), req)
  }

  /** The new FEM object n gets the properties and then joins the analysis,
      when one is named and the object is not itself an analysis. */
  function FemSetup(d: DocState, n: string, req: ObjectRequest): (r: Effect)
    requires DocValid(d) && n in d.objects && req.typeName.WStr?
    ensures DocValid(r.doc) && SameDoc(r.doc, d) && r.doc.order == d.order
  {
    var e := BatchEffect(d, n, req.properties);
    if e.err.None? && req.typeName.s != "Fem::AnalysisPython" && HasAnalysis(req) then
      JoinAnalysis(e.doc, req.analysis, n)
    else e
  }

  /** Every other type: `doc.addObject`, then the properties. */
  function CreateGeneric(k: Kernel, d: DocState, req: ObjectRequest): (r: Effect)
    requires DocValid(d) && req.typeName.WStr?
    ensures DocValid(r.doc) && SameDoc(r.doc, d)
  {
    var t := req.typeName.s;
    if t !in k.catalog then Effect(d, Some(UnknownType(t)))
    else
      var (d1, n) := Make(d, k.catalog[t], req.name);
      BatchEffect(d1, n, req.properties)
  }

  /** The body of the try of `_create_object_gui` once the document is found.
      A type that is no string fails the `startswith` test. */
  function CreateInDoc(k: Kernel, d: DocState, req: ObjectRequest): (r: Effect)
    requires KernelValid(k) && DocValid(d)
    ensures DocValid(r.doc) && SameDoc(r.doc, d)
  {
    if !req.typeName.WStr? then Effect(d, Some(NoAttribute(TypeName(req.typeName), "startswith")))
    else
      match RouteOf(req.typeName.s, HasAnalysis(req))
      case MeshWithAnalysis => CreateMesh(k, d, req)
      case FemObject(short) => CreateFem(k, d, req, short)
      case Generic => CreateGeneric(k, d, req)
  }

  function CreateFailure(name: string, docName: string, f: Failure): string
  {
    "Failed to create object '" + name + "' in '" + docName + "': " + f.Message()
  }

  /** `_create_object_gui`: True, or the failure text; it never raises. */
  function CreateObjectTask(k: Kernel, docs: Docs, docName: string, req: ObjectRequest): (r: (Docs, TaskOutcome))
    requires KernelValid(k) && AppValid(docs)
    ensures AppValid(r.0) && r.0.Keys == docs.Keys
    ensures forall n :: n in docs && n != docName ==> r.0[n] == docs[n]
    ensures r.1.Returns? && (r.1.value == WBool(true) || r.1.value.WStr?)
  {
    if docName !in docs then (docs, Returns(WStr(CreateFailure(req.name, docName, UnknownDocument(docName)))))
    else
      var e := CreateInDoc(k, docs[docName], req);
      (docs[docName := e.doc],
       if e.err.None? then Returns(WBool(true)) else Returns(WStr(CreateFailure(req.name, docName, e.err.value))))
  }

  /** `for ref_name, face in w`, each pair resolved in order. */
  function ReferencesOf(names: set<string>, w: Wire): Result<seq<CadValue>, Failure>
  {
    Iterate(w).Then(pairs => ResolveRefs(names, pairs))
  }

  /** The try of `_edit_object_gui`: when the object has a References
      attribute, `"References" in props` is asked; a References value is
      resolved and assigned first, and then left out of the batch. */
  function EditInDoc(d: DocState, n: string, props: Wire): (r: Effect)
    requires DocValid(d) && n in d.objects
    ensures DocValid(r.doc) && SameDoc(r.doc, d) && r.doc.order == d.order && r.doc.objects.Keys == d.objects.Keys
  {
    var o := d.objects[n];
    if !HasAttr(o, "References") then BatchEffect(d, n, props)
    else
      match Contains(props, "References")
      case Err(f) => Effect(d, Some(f))
      case Ok(has) =>
        if !has then BatchEffect(d, n, props)
        else if !props.WMap? then Effect(d, Some(BadIndex(props)))
        else
          match ReferencesOf(d.objects.Keys, Lookup(props.entries, "References").value)
          case Err(f) => Effect(d, Some(f))
          case Ok(refs) =>
            BatchEffect(PutObject(d, SetAttr(o, "References", CList(refs))), n, WMap(Without(props.entries, "References")))
  }

  function NotFoundMessage(objName: string, docName: string): string
  {
    "Object '" + objName + "' not found in document '" + docName + "'.\n"
  }

  /** `_edit_object_gui`. FreeCAD.getDocument raises for a missing document,
      outside the try, so that task raises. */
  function EditObjectTask(docs: Docs, docName: string, objName: string, props: Wire): (r: (Docs, TaskOutcome))
    requires AppValid(docs)
    ensures AppValid(r.0) && r.0.Keys == docs.Keys
    ensures forall n :: n in docs && n != docName ==> r.0[n] == docs[n]
    ensures r.1.Raises? || r.1.value == WBool(true) || r.1.value.WStr?
  {
    if docName !in docs then (docs, Raises(UnknownDocument(docName).Message()))
    else if objName !in docs[docName].objects then (docs, Returns(WStr(NotFoundMessage(objName, docName))))
    else
      var e := EditInDoc(docs[docName], objName, props);
      (docs[docName := e.doc], Returns(if e.err.None? then WBool(true) else WStr(e.err.value.Message())))
  }

  /** `_delete_object_gui`: FreeCAD.getDocument raises outside the try, and
      `doc.removeObject` of a missing name raises inside it. */
  function DeleteObjectTask(docs: Docs, docName: string, objName: string): (r: (Docs, TaskOutcome))
    requires AppValid(docs)
    ensures AppValid(r.0) && r.0.Keys == docs.Keys
    ensures forall n :: n in docs && n != docName ==> r.0[n] == docs[n]
    ensures r.1.Raises? || r.1.value == WBool(true) || r.1.value.WStr?
  {
    if docName !in docs then (docs, Raises(UnknownDocument(docName).Message()))
    else if objName !in docs[docName].objects then (docs, Returns(WStr(NoSuchObject(objName).Message())))
    else (docs[docName := RemoveObject(docs[docName], objName)], Returns(WBool(true)))
  }

  /** The name create_document asks for when the call names none. */
  const DefaultDocumentName := "New_Document"

  /** `_create_document_gui`: FreeCAD.newDocument opens an empty document
      under the name, or a fresh one when it is taken. */
  function CreateDocumentTask(docs: Docs, name: string): (r: (Docs, TaskOutcome))
    requires AppValid(docs)
    ensures AppValid(r.0) && docs.Keys <= r.0.Keys && |r.0.Keys - docs.Keys| == 1
    ensures forall n :: n in docs ==> r.0[n] == docs[n]
    ensures name !in docs ==> name in r.0 && r.0[name].objects == map[]
    ensures forall n :: n in r.0.Keys - docs.Keys ==> r.0[n].objects == map[] && r.0[n].order == []
    ensures r.1 == Returns(WBool(true))
  {
    var n := FreshName(docs.Keys, name);
    assert docs[n := DocState(n, n, "", map[], [])].Keys - docs.Keys == {n};
    (docs[n := DocState(n, n, "", map[], [])], Returns(WBool(true)))
  }

  /** The `{"success": False, "error": msg}` a getter returns. */
  function FailureRecord(msg: string): Wire
  {
    WMap([("success", WBool(false)), ("error", WStr(msg))])
  }

  /** `get_objects`: the records of the document's objects in order, or a failure record. */
  function GetObjects(docs: Docs, docName: string, show: Show): (r: Wire)
    requires AppValid(docs)
    ensures docName !in docs ==> r == FailureRecord(UnknownDocument(docName).Message())
  {
    if docName !in docs then FailureRecord(UnknownDocument(docName).Message())
    else
      match ListRecord(ObjectsOf(docs[docName]), show)
      case Ok(records) => WList(records)
      case Err(m) => FailureRecord(m)
  }

  /** `get_object`: the object's record, or a failure record. */
  function GetObject(docs: Docs, docName: string, objName: string, show: Show): (r: Wire)
    ensures docName !in docs ==> r == FailureRecord(UnknownDocument(docName).Message())
    ensures docName in docs && objName !in docs[docName].objects ==>
      r == FailureRecord("Object '" + objName + "' not found in document '" + docName + "'.")
  {
    if docName !in docs then FailureRecord(UnknownDocument(docName).Message())
    else if objName !in docs[docName].objects then
      FailureRecord("Object '" + objName + "' not found in document '" + docName + "'.")
    else
      match ObjectRecord(docs[docName].objects[objName], show)
      case Ok(w) => w
      case Err(m) => FailureRecord(m)
  }
}
