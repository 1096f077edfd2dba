/** The live side of the bridge: the FreeCAD application whose documents the
    GUI-thread tasks change in place, and `FreeCADRPC`, whose methods queue a
    task, let the GUI thread drain the queue, and wrap the reply. */
module Bridge {
  import opened Values
  import opened Documents
  import opened Serialize
  import opened Applier
  import ApplierFacts
  import opened Dispatch
  import opened Sequencer
  import opened Factory

  /** The references resolved so far, in front of what the rest resolves to. */
  function Prefixed(refs: seq<CadValue>, r: Result<seq<CadValue>, Failure>): Result<seq<CadValue>, Failure>
  {
    match r
    case Ok(rest) => Ok(refs + rest)
    case Err(f) => Err(f)
  }

  /** `for ref_name, face in pairs: ... refs.append((ref_obj, face))`. */
  method ResolveReferences(names: set<string>, pairs: seq<Wire>) returns (r: Result<seq<CadValue>, Failure>)
    ensures r == ResolveRefs(names, pairs)
  {
    var refs: seq<CadValue> := [];
    var i := 0;
    ghost var all := ResolveRefs(names, pairs);
    if all.Ok? {
      assert [] + all.value == all.value;
    }
    while i < |pairs|
      invariant 0 <= i <= |pairs|
      invariant ResolveRefs(names, pairs) == Prefixed(refs, ResolveRefs(names, pairs[i..]))
    {
      assert pairs[i..][0] == pairs[i] && pairs[i..][1..] == pairs[i + 1..];
      var pair := Unpack2(pairs[i]);
      if pair.Err? {
        assert ResolveRefs(names, pairs[i..]) == Err(pair.error);
        return Err(pair.error);
      }
      var target := Resolve(names, pair.value.0);
      if target.Err? {
        assert ResolveRefs(names, pairs[i..]) == Err(target.error);
        return Err(target.error);
      }
      var x := CList([target.value, Native(pair.value.1)]);
      ghost var later := ResolveRefs(names, pairs[i + 1..]);
      assert later.Ok? ==> (refs + [x]) + later.value == refs + ([x] + later.value);
      refs := refs + [x];
      i := i + 1;
    }
    assert pairs[i..] == [] && refs + [] == refs;
    r := Ok(refs);
  }

  /** The References pre-step of edit_object: iterate the value, resolve each pair. */
  method ResolveReferencesOf(names: set<string>, w: Wire) returns (r: Result<seq<CadValue>, Failure>)
    ensures r == ReferencesOf(names, w)
  {
    var pairs := Iterate(w);
    if pairs.Err? {
      return Err(pairs.error);
    }
    r := ResolveReferences(names, pairs.value);
  }

  /** The FreeCAD application: its open documents and the kernel that makes objects. */
  class FreeCad {
    const kernel: Kernel
    var docs: Docs

    ghost predicate Valid()
      reads this
    {
      KernelValid(kernel) && AppValid(docs)
    }

    constructor(k: Kernel)
      requires KernelValid(k)
      ensures Valid() && kernel == k && docs == map[]
    {
      kernel := k;
      docs := map[];
    }

    /** `set_object_property` on object objName of document docName: the
        properties are assigned one by one on the live object, and the first
        one that raises ends the loop; properties that are no dict fail at
        `.items()` before anything is assigned. */
    method SetObjectProperty(docName: string, objName: string, props: Wire) returns (err: Option<Failure>)
      requires Valid() && docName in docs && objName in docs[docName].objects
      modifies this
      ensures Valid()
      ensures var e := BatchEffect(old(docs[docName]), objName, props);
        docs == old(docs)[docName := e.doc] && err == e.err
    {
      var d0 := docs[docName];
      var o0 := d0.objects[objName];
      if !props.WMap? {
        assert PutObject(d0, o0) == d0;
        UpdateSame(docs, docName);
        return Some(NoAttribute(TypeName(props), "items"));
      }
      var entries := props.entries;
      var names := d0.objects.Keys;
      var o := o0;
      err := None;
      var i := 0;
      assert o0.name == objName;
      while i < |entries| && err.None?
        invariant 0 <= i <= |entries|
        invariant Step(o, err) == ApplyBatch(names, o0, entries[..i])
        invariant ApplierFacts.SameFrame(o, o0)
        invariant docs == old(docs)
      {
        ApplierFacts.BatchStep(names, o0, entries, i);
        var (p, v) := entries[i];
        var s := ApplyOne(names, o, p, v);
        ApplierFacts.ApplyOneSame(names, o, p, v);
        if s.err.Some? {
          err := Some(AssignFailed(p, s.err.value));
        }
        o := s.obj;
        i := i + 1;
      }
      ApplierFacts.BatchStop(names, o0, entries, i);
      PutValid(docs, docName, PutObject(d0, o));
      docs := docs[docName := PutObject(d0, o)];
    }

    /** The loop of the mesh branch over the live object. */
    method SetPresentProperties(docName: string, objName: string, props: Dict)
      requires Valid() && docName in docs && objName in docs[docName].objects
      modifies this
      ensures Valid()
      ensures docs == old(docs)[docName := PutObject(old(docs[docName]), SetPresent(old(docs[docName].objects[objName]), props))]
    {
      var d0 := docs[docName];
      var o0 := d0.objects[objName];
      var o := o0;
      var i := 0;
      while i < |props|
        invariant 0 <= i <= |props|
        invariant SetPresent(o, props[i..]) == SetPresent(o0, props)
        invariant o == o0.(attrs := o.attrs)
      {
        var (p, v) := props[i];
        assert props[i..][0] == (p, v) && props[i..][1..] == props[i + 1..];
        if HasAttr(o, p) {
          o := SetAttr(o, p, Native(v));
        }
        i := i + 1;
      }
      assert props[i..] == [];
      PutValid(docs, docName, PutObject(d0, o));
      docs := docs[docName := PutObject(d0, o)];
    }

    /** `_create_document_gui`. */
    method CreateDocumentGui(name: string) returns (res: TaskOutcome)
      requires Valid()
      modifies this
      ensures Valid()
      ensures (docs, res) == CreateDocumentTask(old(docs), name)
    {
      var n := FreshName(docs.Keys, name);
      docs := docs[n := DocState(n, n, "", map[], [])];
      res := Returns(WBool(true));
    }

    /** `_create_object_gui`. */
    method CreateObjectGui(docName: string, req: ObjectRequest) returns (res: TaskOutcome)
      requires Valid()
      modifies this
      ensures Valid()
      ensures (docs, res) == CreateObjectTask(kernel, old(docs), docName, req)
    {
      if docName !in docs {
        return Returns(WStr(CreateFailure(req.name, docName, UnknownDocument(docName))));
      }
      var err: Option<Failure>;
      if !req.typeName.WStr? {
        UpdateSame(docs, docName);
        err := Some(NoAttribute(TypeName(req.typeName), "startswith"));
      } else {
        match RouteOf(req.typeName.s, HasAnalysis(req)) {
          case MeshWithAnalysis =>
            err := CreateMeshGui(docName, req);
          case FemObject(short) =>
            err := CreateFemGui(docName, req, short);
          case Generic =>
            err := CreateGenericGui(docName, req);
        }
      }
      res := if err.None? then Returns(WBool(true)) else Returns(WStr(CreateFailure(req.name, docName, err.value)));
    }

    method CreateMeshGui(docName: string, req: ObjectRequest) returns (err: Option<Failure>)
      requires Valid() && docName in docs && HasAnalysis(req)
      modifies this
      ensures Valid()
      ensures var e := CreateMesh(kernel, old(docs[docName]), req);
        docs == old(docs)[docName := e.doc] && err == e.err
    {
      var d := docs[docName];
      err := GroupCheck(d, req.analysis);
      if err.Some? {
        UpdateSame(docs, docName);
        return;
      }
      var a := req.analysis.s;
      var n := FreshName(d.objects.Keys, req.name);
      var d2 := NewMesh(kernel, d, req.name, a);
      PutValid(docs, docName, d2);
      docs := docs[docName := d2];
      err := MeshPartGui(docName, n, req.properties);
      UpdateTwice(old(docs), docName, d2, docs[docName]);
    }

    method MeshPartGui(docName: string, n: string, props: Wire) returns (err: Option<Failure>)
      requires Valid() && docName in docs && n in docs[docName].objects
      modifies this
      ensures Valid()
      ensures var e := MeshPart(old(docs[docName]), n, props);
        docs == old(docs)[docName := e.doc] && err == e.err
    {
      var d := docs[docName];
      var has := Contains(props, "Part");
      if has.Err? || !has.value || !props.WMap? {
        UpdateSame(docs, docName);
        return Some(if has.Err? then has.error else if !has.value then MissingPart else BadIndex(props));
      }
      var target := Resolve(d.objects.Keys, Lookup(props.entries, "Part").value);
      if target.Err? {
        UpdateSame(docs, docName);
        return Some(target.error);
      }
      var mesh := SetAttr(d.objects[n], "Part", target.value);
      var rest := Without(props.entries, "Part");
      PutValid(docs, docName, PutObject(d, mesh));
      docs := docs[docName := PutObject(d, mesh)];
      SetPresentProperties(docName, n, rest);
      PutObjectTwice(d, mesh, SetPresent(mesh, rest));
      UpdateTwice(old(docs), docName, PutObject(d, mesh), PutObject(d, SetPresent(mesh, rest)));
      err := None;
    }

    method CreateFemGui(docName: string, req: ObjectRequest, short: string) returns (err: Option<Failure>)
      requires Valid() && docName in docs && req.typeName.WStr?
      modifies this
      ensures Valid()
      ensures var e := CreateFem(kernel, old(docs[docName]), req, short);
        docs == old(docs)[docName := e.doc] && err == e.err
    {
      var d := docs[docName];
      match FemMaker(kernel.makers.Keys, short) {
        case None =>
          UpdateSame(docs, docName);
          err := Some(NoCreationMethod("make" + short));
        case Some(m) =>
          var (d1, n) := Make(d, kernel.makers[m], req.name);
          PutValid(docs, docName, d1);
          docs := docs[docName := d1];
          err := FemSetupGui(docName, n, req);
          UpdateTwice(old(docs), docName, d1, docs[docName]);
      }
    }

    method FemSetupGui(docName: string, n: string, req: ObjectRequest) returns (err: Option<Failure>)
      requires Valid() && docName in docs && n in docs[docName].objects && req.typeName.WStr?
      modifies this
      ensures Valid()
      ensures var e := FemSetup(old(docs[docName]), n, req);
        docs == old(docs)[docName := e.doc] && err == e.err
    {
      err := SetObjectProperty(docName, n, req.properties);
      if err.None? && req.typeName.s != "Fem::AnalysisPython" && HasAnalysis(req) {
        ghost var mid := docs[docName];
        var j := JoinAnalysis(docs[docName], req.analysis, n);
        PutValid(docs, docName, j.doc);
        docs := docs[docName := j.doc];
        UpdateTwice(old(docs), docName, mid, j.doc);
        err := j.err;
      }
    }

    method CreateGenericGui(docName: string, req: ObjectRequest) returns (err: Option<Failure>)
      requires Valid() && docName in docs && req.typeName.WStr?
      modifies this
      ensures Valid()
      ensures var e := CreateGeneric(kernel, old(docs[docName]), req);
        docs == old(docs)[docName := e.doc] && err == e.err
    {
      var d := docs[docName];
      var t := req.typeName.s;
      if t !in kernel.catalog {
        UpdateSame(docs, docName);
        return Some(UnknownType(t));
      }
      var (d1, n) := Make(d, kernel.catalog[t], req.name);
      PutValid(docs, docName, d1);
      docs := docs[docName := d1];
      err := SetObjectProperty(docName, n, req.properties);
      UpdateTwice(old(docs), docName, d1, docs[docName]);
    }

    /** `_edit_object_gui`. */
    method EditObjectGui(docName: string, objName: string, props: Wire) returns (res: TaskOutcome)
      requires Valid()
      modifies this
      ensures Valid()
      ensures (docs, res) == EditObjectTask(old(docs), docName, objName, props)
    {
      if docName !in docs {
        return Raises(UnknownDocument(docName).Message());
      }
      if objName !in docs[docName].objects {
        return Returns(WStr(NotFoundMessage(objName, docName)));
      }
      var err := EditInDocGui(docName, objName, props);
      res := Returns(if err.None? then WBool(true) else WStr(err.value.Message()));
    }

    /** The try of `_edit_object_gui`, on the live object. */
    method EditInDocGui(docName: string, objName: string, props: Wire) returns (err: Option<Failure>)
      requires Valid() && docName in docs && objName in docs[docName].objects
      modifies this
      ensures Valid()
      ensures var e := EditInDoc(old(docs[docName]), objName, props);
        docs == old(docs)[docName := e.doc] && err == e.err
    {
      var d := docs[docName];
      var o := d.objects[objName];
      if !HasAttr(o, "References") {
        err := SetObjectProperty(docName, objName, props);
        return;
      }
      var has := Contains(props, "References");
      if has.Err? {
        UpdateSame(docs, docName);
        return Some(has.error);
      }
      if !has.value {
        err := SetObjectProperty(docName, objName, props);
        return;
      }
      if !props.WMap? {
        UpdateSame(docs, docName);
        return Some(BadIndex(props));
      }
      var refs := ResolveReferencesOf(d.objects.Keys, Lookup(props.entries, "References").value);
      if refs.Err? {
        UpdateSame(docs, docName);
        return Some(refs.error);
      }
      var d1 := PutObject(d, SetAttr(o, "References", CList(refs.value)));
      PutValid(docs, docName, d1);
      docs := docs[docName := d1];
      err := SetObjectProperty(docName, objName, WMap(Without(props.entries, "References")));
      UpdateTwice(old(docs), docName, d1, docs[docName]);
    }

    /** `_delete_object_gui`. */
    method DeleteObjectGui(docName: string, objName: string) returns (res: TaskOutcome)
      requires Valid()
      modifies this
      ensures Valid()
      ensures (docs, res) == DeleteObjectTask(old(docs), docName, objName)
    {
      if docName !in docs {
        return Raises(UnknownDocument(docName).Message());
      }
      if objName !in docs[docName].objects {
        return Returns(WStr(NoSuchObject(objName).Message()));
      }
      docs := docs[docName := RemoveObject(docs[docName], objName)];
      res := Returns(WBool(true));
    }
  }

  /** `FreeCADRPC`: each call queues one task on idle queues and waits for its reply. */
  class FreeCadRpc {
    const app: FreeCad
    const queue: GuiTaskQueue

    ghost predicate Valid()
      reads this, app, queue
    {
      app.Valid() && queue.requests == [] && queue.responses == []
    }

    constructor(k: Kernel)
      requires KernelValid(k)
      ensures Valid() && app.docs == map[] && app.kernel == k && fresh(app) && fresh(queue)
    {
      app := new FreeCad(k);
      queue := new GuiTaskQueue();
    }

    /** Queue the task's outcome, let the GUI thread drain, take the reply. */
    method Call(t: TaskOutcome) returns (r: Wire)
      requires Valid() && t != Returns(WNone)
      modifies queue
      ensures Valid()
      ensures r == Answer(t)
      ensures queue.executed == old(queue.executed) + [t]
    {
      var reply := RoundTrip(queue, t);
      r := reply.value;
    }

    /** `create_document`; a call without a name asks for "New_Document". */
    method CreateDocument(name: Option<string>) returns (r: Wire)
      requires Valid()
      modifies app, queue
      ensures Valid()
      ensures var n := if name.Some? then name.value else DefaultDocumentName;
        var (docs, t) := CreateDocumentTask(old(app.docs), n);
        app.docs == docs && queue.executed == old(queue.executed) + [t] &&
        r == Envelope(Answer(t), "document_name", n)
    {
      var n := if name.Some? then name.value else DefaultDocumentName;
      var t := app.CreateDocumentGui(n);
      var res := Call(t);
      r := Envelope(res, "document_name", n);
    }

    /** `create_object`: a request without a Type is answered at once and
        queues nothing. */
    method CreateObject(docName: string, objData: Dict) returns (r: Wire)
      requires Valid()
      modifies app, queue
      ensures Valid()
      ensures ParseCreateRequest(objData).Err? ==>
        && r == WMap([("success", WBool(false)), ("error", WStr(ParseCreateRequest(objData).error))])
        && app.docs == old(app.docs) && queue.executed == old(queue.executed)
      ensures ParseCreateRequest(objData).Ok? ==>
        var req := ParseCreateRequest(objData).value;
        var (docs, t) := CreateObjectTask(app.kernel, old(app.docs), docName, req);
        app.docs == docs && queue.executed == old(queue.executed) + [t] &&
        r == Envelope(Answer(t), "object_name", req.name)
    {
      match ParseCreateRequest(objData) {
        case Err(m) =>
          r := WMap([("success", WBool(false)), ("error", WStr(m))]);
        case Ok(req) =>
          var t := app.CreateObjectGui(docName, req);
          var res := Call(t);
          r := Envelope(res, "object_name", req.name);
      }
    }

    /** `edit_object`: the Properties entry, whatever it holds, is queued. */
    method EditObject(docName: string, objName: string, properties: Dict) returns (r: Wire)
      requires Valid()
      modifies app, queue
      ensures Valid()
      ensures var (docs, t) := EditObjectTask(old(app.docs), docName, objName, EditProperties(properties));
        app.docs == docs && queue.executed == old(queue.executed) + [t] &&
        r == Envelope(Answer(t), "object_name", objName)
    {
      var t := app.EditObjectGui(docName, objName, EditProperties(properties));
      var res := Call(t);
      r := Envelope(res, "object_name", objName);
    }

    /** `delete_object`. */
    method DeleteObject(docName: string, objName: string) returns (r: Wire)
      requires Valid()
      modifies app, queue
      ensures Valid()
      ensures var (docs, t) := DeleteObjectTask(old(app.docs), docName, objName);
        app.docs == docs && queue.executed == old(queue.executed) + [t] &&
        r == Envelope(Answer(t), "object_name", objName)
    {
      var t := app.DeleteObjectGui(docName, objName);
      var res := Call(t);
      r := Envelope(res, "object_name", objName);
    }

    /** `get_active_screenshot`: the facts about the GUI and the image the
        view saves are parameters; a call without a view asks for "Isometric". */
    method GetActiveScreenshot(hasActiveDocument: bool, hasView: bool, canSave: bool, viewName: Option<string>, image: string)
      returns (r: Option<Wire>)
      requires Valid()
      modifies queue
      ensures Valid() && app.docs == old(app.docs)
      ensures var v := if viewName.Some? then viewName.value else DefaultViewName;
        var t := Returns(ScreenshotTask(hasActiveDocument, hasView, canSave, v, image));
        queue.executed == old(queue.executed) + [t] && r == ScreenshotReply(Answer(t))
    {
      var v := if viewName.Some? then viewName.value else DefaultViewName;
      var res := Call(Returns(ScreenshotTask(hasActiveDocument, hasView, canSave, v, image)));
      r := ScreenshotReply(res);
    }
  }
}
