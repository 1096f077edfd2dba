/** What the GUI-thread tasks promise: how a create request is routed and
    what each route leaves in the document, that the edit assigns References
    before the rest, what a delete removes, and what the caller's envelope
    then says. */
module FactoryFacts {
  import opened Values
  import opened Documents
  import opened Serialize
  import opened Applier
  import ApplierFacts
  import opened Dispatch
  import opened Sequencer
  import opened Factory

  /** The envelope of a task's answer says success exactly when the task
      returned True; a raising task's error is the text the GUI thread
      published for it. */
  lemma EnvelopeOfTask(t: TaskOutcome, key: string, name: string)
    requires t != Returns(WNone) && key != "success"
    ensures Lookup(Envelope(Answer(t), key, name).entries, "success") == Some(WBool(t == Returns(WBool(true))))
    ensures t == Returns(WBool(true)) ==> Lookup(Envelope(Answer(t), key, name).entries, key) == Some(WStr(name))
    ensures t.Raises? ==> Lookup(Envelope(Answer(t), key, name).entries, "error") == Some(WStr(UnhandledPrefix + t.message))
    ensures t.Returns? && t.value != WBool(true) ==> Lookup(Envelope(Answer(t), key, name).entries, "error") == Some(t.value)
  {
    EnvelopeSpec(Answer(t), key, name);
  }

  /** The mesh branch's loop: a name the batch does not mention keeps its
      value, and (the keys being distinct, as in a Python dict) a name the
      object has gets the batch's value. */
  lemma {:induction false} SetPresentSpec(o: ObjState, props: Dict, q: string)
    ensures !HasKey(props, q) ==> ReadAttr(SetPresent(o, props), q) == ReadAttr(o, q)
    ensures Distinct(KeysOf(props)) && HasKey(props, q) && HasAttr(o, q) ==>
      SetPresent(o, props).attrs[q] == Value(Native(Lookup(props, q).value))
    decreases |props|
  {
    if props != [] {
      var (p, v) := props[0];
      var o1 := if HasAttr(o, p) then SetAttr(o, p, Native(v)) else o;
      var rest := props[1..];
      assert props == [props[0]] + rest;
      LookupCons(props[0], rest, q);
      assert KeysOf(props) == [p] + KeysOf(rest);
      SetPresentSpec(o1, rest, q);
      if Distinct(KeysOf(props)) {
        DistinctTail(props);
      }
    }
  }

  /** The Part of a new mesh n: a name the document does not know fails
      and changes nothing; a known one is linked, and the other properties
      are assigned only where the mesh has them, so the mesh keeps its
      attribute names plus Part, and an attribute the batch does not name
      keeps its value. */
  lemma MeshPartSpec(d: DocState, n: string, props: Dict, t: string)
    requires DocValid(d) && n in d.objects
    requires Lookup(props, "Part") == Some(WStr(t))
    ensures t !in d.objects ==> MeshPart(d, n, WMap(props)) == Effect(d, Some(RefNotFound(t)))
    ensures var r := MeshPart(d, n, WMap(props)); var o := d.objects[n];
      t in d.objects ==>
        && r.err.None?
        && r.doc.objects[n].attrs["Part"] == Value(CLink(t))
        && r.doc.objects[n].attrs.Keys == o.attrs.Keys + {"Part"}
        && (forall q :: q in o.attrs && q != "Part" && !HasKey(props, q) ==> r.doc.objects[n].attrs[q] == o.attrs[q])
        && (Distinct(KeysOf(props)) ==>
              forall q :: q in o.attrs && q != "Part" && HasKey(props, q) ==>
                r.doc.objects[n].attrs[q] == Value(Native(Lookup(props, q).value)))
  {
    assert Contains(WMap(props), "Part") == Ok(true);
    if t in d.objects {
      var o1 := SetAttr(d.objects[n], "Part", CLink(t));
      assert MeshPart(d, n, WMap(props)).doc.objects[n] == SetPresent(o1, Without(props, "Part"));
      SetPresentWithoutPart(o1, props);
    }
  }

  /** The loop of the mesh branch over the properties other than Part. */
  lemma SetPresentWithoutPart(o: ObjState, props: Dict)
    ensures var r := SetPresent(o, Without(props, "Part"));
      && ReadAttr(r, "Part") == ReadAttr(o, "Part")
      && (forall q :: q in o.attrs && q != "Part" && !HasKey(props, q) ==> r.attrs[q] == o.attrs[q])
      && (Distinct(KeysOf(props)) ==>
            forall q :: q in o.attrs && q != "Part" && HasKey(props, q) ==>
              r.attrs[q] == Value(Native(Lookup(props, q).value)))
  {
    var rest := Without(props, "Part");
    var r := SetPresent(o, rest);
    if Distinct(KeysOf(props)) {
      WithoutDistinct(props, "Part");
    }
    SetPresentSpec(o, rest, "Part");
    forall q | q in o.attrs && q != "Part"
      ensures !HasKey(props, q) ==> r.attrs[q] == o.attrs[q]
      ensures Distinct(KeysOf(props)) && HasKey(props, q) ==> r.attrs[q] == Value(Native(Lookup(props, q).value))
    {
      assert Lookup(rest, q) == Lookup(props, q);
      SetPresentSpec(o, rest, q);
    }
  }

  /** A falsy Analysis (None, "", 0, an empty list or dict) counts as no
      analysis: the request does what it does without one. */
  lemma FalsyAnalysisIgnored(k: Kernel, d: DocState, req: ObjectRequest)
    requires KernelValid(k) && DocValid(d) && !Truthy(req.analysis)
    ensures CreateInDoc(k, d, req) == CreateInDoc(k, d, req.(analysis := WNone))
  {
    var bare := req.(analysis := WNone);
    assert !HasAnalysis(req) && !HasAnalysis(bare);
    if req.typeName.WStr? && RouteOf(req.typeName.s, false).FemObject? {
      var short := RouteOf(req.typeName.s, false).short;
      if FemMaker(k.makers.Keys, short).Some? {
        var d1 := Make(d, k.makers[FemMaker(k.makers.Keys, short).value], req.name).0;
        var n := FreshName(d.objects.Keys, req.name);
        assert FemSetup(d1, n, req) == FemSetup(d1, n, bare);
      }
    }
  }

  /** A `Fem::FemMeshGmsh` request with an analysis: when the analysis is no
      member-holding object of the document nothing is made; otherwise the
      mesh goes last in the document and is linked last in the analysis's
      Group before its Part is looked at, so a request without Part, or
      with properties that are no dict, fails with the mesh in place. */
  lemma MeshCreation(k: Kernel, d: DocState, req: ObjectRequest)
    requires KernelValid(k) && DocValid(d)
    requires req.typeName == WStr("Fem::FemMeshGmsh") && HasAnalysis(req)
    ensures GroupCheck(d, req.analysis).Some? ==>
      CreateInDoc(k, d, req) == Effect(d, GroupCheck(d, req.analysis))
    ensures var n := FreshName(d.objects.Keys, req.name); var r := CreateInDoc(k, d, req);
      var c := Contains(req.properties, "Part");
      GroupCheck(d, req.analysis).None? ==>
        var a := req.analysis.s;
        && r.doc.order == d.order + [n]
        && r.doc.objects[a] == Joined(d.objects[a], n)
        && Members(r.doc.objects[a]) == Members(d.objects[a]) + [CLink(n)]
        && r.doc.objects[n].typeId == k.makers["makeMeshGmsh"].typeId
        && (c == Ok(false) ==> r.err == Some(MissingPart))
        && (c.Err? ==> r.err == Some(c.error))
        && (c == Ok(true) && !req.properties.WMap? ==> r.err == Some(BadIndex(req.properties)))
  {
    assert RouteOf(req.typeName.s, true) == MeshWithAnalysis;
    if GroupCheck(d, req.analysis).None? {
      var a := req.analysis.s;
      var n := FreshName(d.objects.Keys, req.name);
      assert a != n;
      assert CreateInDoc(k, d, req) == MeshPart(NewMesh(k, d, req.name, a), n, req.properties);
    }
  }

  /** The Part of the mesh a request makes: a name the document does not
      know fails after the mesh is made; a known one (the new mesh included)
      is linked, and the mesh ends with the maker's attributes plus Part,
      those the request does not name holding the maker's values. */
  lemma MeshPartResolution(k: Kernel, d: DocState, req: ObjectRequest, t: string)
    requires KernelValid(k) && DocValid(d)
    requires req.typeName == WStr("Fem::FemMeshGmsh") && HasAnalysis(req)
    requires GroupCheck(d, req.analysis).None?
    requires req.properties.WMap? && Lookup(req.properties.entries, "Part") == Some(WStr(t))
    ensures var n := FreshName(d.objects.Keys, req.name); var r := CreateInDoc(k, d, req);
      t !in d.objects && t != n ==> r.err == Some(RefNotFound(t))
    ensures var n := FreshName(d.objects.Keys, req.name); var mk := k.makers["makeMeshGmsh"]; var r := CreateInDoc(k, d, req);
      var props := req.properties.entries;
      t in d.objects || t == n ==>
        && r.err.None?
        && r.doc.objects[n].attrs["Part"] == Value(CLink(t))
        && r.doc.objects[n].attrs.Keys == mk.attrs.Keys + {"Part"}
        && (forall q :: q in mk.attrs && q != "Part" && !HasKey(props, q) ==>
              r.doc.objects[n].attrs[q] == mk.attrs[q])
        && (Distinct(KeysOf(props)) ==>
              forall q :: q in mk.attrs && q != "Part" && HasKey(props, q) ==>
                r.doc.objects[n].attrs[q] == Value(Native(Lookup(props, q).value)))
  {
    var a := req.analysis.s;
    assert RouteOf(req.typeName.s, true) == MeshWithAnalysis;
    var n := FreshName(d.objects.Keys, req.name);
    var d2 := NewMesh(k, d, req.name, a);
    assert a != n;
    assert CreateInDoc(k, d, req) == MeshPart(d2, n, req.properties);
    assert d2.objects[n] == Instantiate(k.makers["makeMeshGmsh"], n);
    assert t in d2.objects <==> t in d.objects || t == n;
    MeshPartSpec(d2, n, req.properties.entries, t);
  }

  /** A FEM type other than the mesh with an analysis is made by its maker. */
  lemma FemRoute(k: Kernel, d: DocState, req: ObjectRequest, x: string)
    requires KernelValid(k) && DocValid(d)
    requires req.typeName == WStr("Fem::" + x) && !HasSeparator(x)
    requires !(x == "FemMeshGmsh" && HasAnalysis(req))
    ensures CreateInDoc(k, d, req) == CreateFem(k, d, req, x)
  {
    FemShortNameOf(x);
    assert ("Fem::" + x)[5..] == x;
    assert "Fem::FemMeshGmsh"[5..] == "FemMeshGmsh";
    assert RouteOf(req.typeName.s, HasAnalysis(req)) == FemObject(x);
  }

  /** The setup of a new FEM object n: the properties in order, then, for an
      object that is no analysis, linking it last in the named analysis's
      Group; that fails, with the object kept, when the analysis is no
      member-holding object. */
  lemma FemSetupSpec(d: DocState, n: string, req: ObjectRequest)
    requires DocValid(d) && n in d.objects && req.typeName.WStr?
    ensures var s := ApplyProperties(d.objects.Keys, d.objects[n], req.properties); var r := FemSetup(d, n, req);
      && (s.err.Some? || req.analysis != WStr(n) ==> r.doc.objects[n] == s.obj)
      && (r.doc.objects[n] == s.obj || r.doc.objects[n] == Joined(s.obj, n))
      && (s.err.Some? ==> r.err == s.err)
      && (s.err.None? && (req.typeName.s == "Fem::AnalysisPython" || !HasAnalysis(req)) ==> r.err.None?)
      && (s.err.None? && req.typeName.s != "Fem::AnalysisPython" && HasAnalysis(req) && req.analysis != WStr(n) ==>
            && r.err == GroupCheck(d, req.analysis)
            && (r.err.None? ==> r.doc.objects[req.analysis.s] == Joined(d.objects[req.analysis.s], n)))
  {
    var e := BatchEffect(d, n, req.properties);
    if req.analysis.WStr? && req.analysis.s != n {
      var a := req.analysis.s;
      assert a in e.doc.objects <==> a in d.objects;
      assert a in d.objects ==> e.doc.objects[a] == d.objects[a];
      assert GroupCheck(e.doc, req.analysis) == GroupCheck(d, req.analysis);
    }
  }

  /** Any other `Fem::` type: without a maker nothing is made; with one, the
      object it makes goes last in the document, under the requested name
      when that is free, and receives the properties in order; properties
      that are no dict fail at `.items()` with the object kept. */
  lemma FemCreation(k: Kernel, d: DocState, req: ObjectRequest, short: string)
    requires KernelValid(k) && DocValid(d) && req.typeName.WStr?
    ensures FemMaker(k.makers.Keys, short).None? ==>
      CreateFem(k, d, req, short) == Effect(d, Some(NoCreationMethod("make" + short)))
    ensures var r := CreateFem(k, d, req, short); var n := FreshName(d.objects.Keys, req.name);
      FemMaker(k.makers.Keys, short).Some? ==>
        var o := Instantiate(k.makers[FemMaker(k.makers.Keys, short).value], n);
        var s := ApplyProperties(d.objects.Keys + {n}, o, req.properties);
        && r.doc.order == d.order + [n]
        && (req.name !in d.objects ==> n == req.name)
        && (s.err.Some? || req.analysis != WStr(n) ==> r.doc.objects[n] == s.obj)
        && (r.doc.objects[n] == s.obj || r.doc.objects[n] == Joined(s.obj, n))
        && (s.err.Some? ==> r.err == s.err)
        && (!req.properties.WMap? ==>
              r.doc.objects[n] == o && r.err == Some(NoAttribute(TypeName(req.properties), "items")))
  {
    if FemMaker(k.makers.Keys, short).Some? {
      var m := FemMaker(k.makers.Keys, short).value;
      var n := FreshName(d.objects.Keys, req.name);
      var d1 := Make(d, k.makers[m], req.name).0;
      assert d1.objects.Keys == d.objects.Keys + {n};
      FemSetupSpec(d1, n, req);
    }
  }

  /** A new FEM object whose properties were all assigned is linked last in
      the named analysis's Group unless it is an analysis itself; joining
      fails, with the object kept, when the analysis is no member-holding
      object. */
  lemma FemJoin(k: Kernel, d: DocState, req: ObjectRequest, short: string)
    requires KernelValid(k) && DocValid(d) && req.typeName.WStr?
    requires FemMaker(k.makers.Keys, short).Some?
    ensures var r := CreateFem(k, d, req, short); var n := FreshName(d.objects.Keys, req.name);
      var s := ApplyProperties(d.objects.Keys + {n}, Instantiate(k.makers[FemMaker(k.makers.Keys, short).value], n), req.properties);
      s.err.None? ==>
        && (req.typeName.s == "Fem::AnalysisPython" || !HasAnalysis(req) ==> r.err.None?)
        && (req.typeName.s != "Fem::AnalysisPython" && HasAnalysis(req) && req.analysis != WStr(n) ==>
              && r.err == GroupCheck(d, req.analysis)
              && (r.err.None? ==>
                    && r.doc.objects[req.analysis.s] == Joined(d.objects[req.analysis.s], n)
                    && Members(r.doc.objects[req.analysis.s]) == Members(d.objects[req.analysis.s]) + [CLink(n)]))
  {
    var m := FemMaker(k.makers.Keys, short).value;
    var n := FreshName(d.objects.Keys, req.name);
    var d1 := Make(d, k.makers[m], req.name).0;
    assert d1.objects.Keys == d.objects.Keys + {n};
    FemSetupSpec(d1, n, req);
    if req.analysis.WStr? && req.analysis.s != n {
      assert req.analysis.s in d.objects ==> d1.objects[req.analysis.s] == d.objects[req.analysis.s];
      assert GroupCheck(d1, req.analysis) == GroupCheck(d, req.analysis);
    }
  }

  /** A type that does not start with `Fem::` is made by `doc.addObject`. */
  lemma GenericRoute(k: Kernel, d: DocState, req: ObjectRequest, t: string)
    requires KernelValid(k) && DocValid(d)
    requires req.typeName == WStr(t) && !StartsWith(t, "Fem::")
    ensures CreateInDoc(k, d, req) == CreateGeneric(k, d, req)
  {
    assert RouteOf(t, HasAnalysis(req)) == Generic;
  }

  /** `doc.addObject`: a type the kernel does not know makes nothing; a
      known one is added last and receives the properties in order, and the
      batch's exception is the task's. */
  lemma GenericCreation(k: Kernel, d: DocState, req: ObjectRequest)
    requires DocValid(d) && req.typeName.WStr?
    ensures var t := req.typeName.s;
      t !in k.catalog ==> CreateGeneric(k, d, req) == Effect(d, Some(UnknownType(t)))
    ensures var t := req.typeName.s; var n := FreshName(d.objects.Keys, req.name); var r := CreateGeneric(k, d, req);
      t in k.catalog ==>
        var s := ApplyProperties(d.objects.Keys + {n}, Instantiate(k.catalog[t], n), req.properties);
        && r.doc.order == d.order + [n]
        && r.doc.objects == d.objects[n := s.obj]
        && r.err == s.err
  {
    var t := req.typeName.s;
    if t in k.catalog {
      var (d1, n) := Make(d, k.catalog[t], req.name);
      assert d1.objects.Keys == d.objects.Keys + {n};
    }
  }

  /** Properties that are no dict fail only at `.items()`, after
      `doc.addObject`: the new object stays in the document, as made, and
      the reply is the failure text. */
  lemma CreateWithBadProperties(k: Kernel, docs: Docs, docName: string, req: ObjectRequest, t: string)
    requires KernelValid(k) && AppValid(docs) && docName in docs
    requires req.typeName == WStr(t) && !StartsWith(t, "Fem::") && t in k.catalog && !req.properties.WMap?
    ensures var r := CreateObjectTask(k, docs, docName, req); var d := docs[docName];
      var n := FreshName(d.objects.Keys, req.name);
      && r.0[docName].order == d.order + [n]
      && r.0[docName].objects == d.objects[n := Instantiate(k.catalog[t], n)]
      && r.1 == Returns(WStr(CreateFailure(req.name, docName, NoAttribute(TypeName(req.properties), "items"))))
  {
    GenericRoute(k, docs[docName], req, t);
    GenericCreation(k, docs[docName], req);
  }

  /** The create envelope names the object as it was requested: when the
      name is taken the kernel makes the object under another name, the
      object already called so is untouched, and the reply still reports
      success with the requested name. */
  lemma CreateUnderTakenName(k: Kernel, docs: Docs, docName: string, req: ObjectRequest, t: string)
    requires KernelValid(k) && AppValid(docs) && docName in docs
    requires req.typeName == WStr(t) && !StartsWith(t, "Fem::") && t in k.catalog && req.properties == WMap([])
    requires req.name in docs[docName].objects
    ensures var r := CreateObjectTask(k, docs, docName, req); var n := FreshName(docs[docName].objects.Keys, req.name);
      && r.1 == Returns(WBool(true))
      && Lookup(Envelope(Answer(r.1), "object_name", req.name).entries, "object_name") == Some(WStr(req.name))
      && n != req.name
      && r.0[docName].order == docs[docName].order + [n]
      && r.0[docName].objects[req.name] == docs[docName].objects[req.name]
  {
    var d := docs[docName];
    var n := FreshName(d.objects.Keys, req.name);
    GenericRoute(k, d, req, t);
    GenericCreation(k, d, req);
    assert ApplyProperties(d.objects.Keys + {n}, Instantiate(k.catalog[t], n), WMap([])).err.None?;
    EnvelopeSpec(WBool(true), "object_name", req.name);
  }

  /** Creating in a document that is not open changes nothing, and the
      envelope carries the failure text naming object and document. */
  lemma CreateInMissingDocument(k: Kernel, docs: Docs, docName: string, req: ObjectRequest)
    requires KernelValid(k) && AppValid(docs) && docName !in docs
    ensures var r := CreateObjectTask(k, docs, docName, req);
      var env := Envelope(Answer(r.1), "object_name", req.name).entries;
      && r.0 == docs
      && Lookup(env, "success") == Some(WBool(false))
      && Lookup(env, "error") == Some(WStr(CreateFailure(req.name, docName, UnknownDocument(docName))))
  {
    EnvelopeOfTask(CreateObjectTask(k, docs, docName, req).1, "object_name", req.name);
  }

  /** Editing in a missing document raises on the GUI thread; editing a
      missing object answers the not-found text. Neither changes anything,
      and the envelope reports failure with that text. */
  lemma EditNotFound(docs: Docs, docName: string, objName: string, props: Wire)
    requires AppValid(docs) && (docName !in docs || objName !in docs[docName].objects)
    ensures var r := EditObjectTask(docs, docName, objName, props);
      var env := Envelope(Answer(r.1), "object_name", objName).entries;
      && r.0 == docs
      && Lookup(env, "success") == Some(WBool(false))
      && Lookup(env, "error") == Some(WStr(if docName !in docs then UnhandledPrefix + UnknownDocument(docName).Message()
                                           else NotFoundMessage(objName, docName)))
  {
    EnvelopeOfTask(EditObjectTask(docs, docName, objName, props).1, "object_name", objName);
  }

  /** An object with a References attribute gets the resolved references
      first; the rest of the batch runs without the References entry, so the
      assigned list survives whatever the rest does. */
  lemma EditReferencesFirst(d: DocState, n: string, props: Dict, refs: seq<CadValue>)
    requires DocValid(d) && n in d.objects && HasAttr(d.objects[n], "References")
    requires Lookup(props, "References").Some?
    requires ReferencesOf(d.objects.Keys, Lookup(props, "References").value) == Ok(refs)
    ensures var s := ApplyBatch(d.objects.Keys, SetAttr(d.objects[n], "References", CList(refs)), Without(props, "References"));
      var r := EditInDoc(d, n, WMap(props));
      && r.doc.objects == d.objects[n := s.obj]
      && r.err == s.err
      && ReadAttr(r.doc.objects[n], "References") == Value(CList(refs))
  {
    assert Contains(WMap(props), "References") == Ok(true);
    var o1 := SetAttr(d.objects[n], "References", CList(refs));
    var d1 := PutObject(d, o1);
    assert d1.objects.Keys == d.objects.Keys;
    ApplierFacts.BatchFrame(d.objects.Keys, o1, Without(props, "References"));
    var s := ApplyBatch(d.objects.Keys, o1, Without(props, "References"));
    assert d1.objects[n := s.obj] == d.objects[n := s.obj];
  }

  /** References that do not resolve stop the edit before anything is
      assigned, and the answer is the bare exception text. */
  lemma EditReferencesRejected(docs: Docs, docName: string, objName: string, props: Dict, f: Failure)
    requires AppValid(docs) && docName in docs && objName in docs[docName].objects
    requires HasAttr(docs[docName].objects[objName], "References") && Lookup(props, "References").Some?
    requires ReferencesOf(docs[docName].objects.Keys, Lookup(props, "References").value) == Err(f)
    ensures EditObjectTask(docs, docName, objName, WMap(props)) == (docs, Returns(WStr(f.Message())))
  {
    assert Contains(WMap(props), "References") == Ok(true);
    UpdateSame(docs, docName);
  }

  /** Properties that are no dict are still queued: the task changes
      nothing, and answers the exception of `"References" in props`, of
      `props["References"]`, or of `props.items()`, whichever comes first. */
  lemma EditBadProperties(docs: Docs, docName: string, objName: string, props: Wire)
    requires AppValid(docs) && docName in docs && objName in docs[docName].objects && !props.WMap?
    ensures var r := EditObjectTask(docs, docName, objName, props); var o := docs[docName].objects[objName];
      var c := Contains(props, "References");
      && r.0 == docs
      && (!HasAttr(o, "References") || c == Ok(false) ==>
            r.1 == Returns(WStr(NoAttribute(TypeName(props), "items").Message())))
      && (HasAttr(o, "References") && c.Err? ==> r.1 == Returns(WStr(c.error.Message())))
      && (HasAttr(o, "References") && c == Ok(true) ==> r.1 == Returns(WStr(BadIndex(props).Message())))
  {
    var d := docs[docName];
    assert PutObject(d, d.objects[objName]) == d;
    UpdateSame(docs, docName);
  }

  /** Deleting an object removes exactly that object, keeps the order of
      the others, and reports success with its name. */
  lemma DeleteRemoves(docs: Docs, docName: string, objName: string)
    requires AppValid(docs) && docName in docs && objName in docs[docName].objects
    ensures var r := DeleteObjectTask(docs, docName, objName);
      && r.1 == Returns(WBool(true))
      && r.0[docName].objects == docs[docName].objects - {objName}
      && r.0[docName].order == Remove(docs[docName].order, objName)
      && (forall m :: m in r.0[docName].order <==> m in docs[docName].order && m != objName)
      && Lookup(Envelope(Answer(r.1), "object_name", objName).entries, "object_name") == Some(WStr(objName))
  {
    EnvelopeSpec(WBool(true), "object_name", objName);
  }

  /** Deleting in a missing document raises on the GUI thread; deleting a
      missing object fails inside the try. Neither changes anything, and the
      envelope reports failure with the text. */
  lemma DeleteNotFound(docs: Docs, docName: string, objName: string)
    requires AppValid(docs) && (docName !in docs || objName !in docs[docName].objects)
    ensures var r := DeleteObjectTask(docs, docName, objName);
      var env := Envelope(Answer(r.1), "object_name", objName).entries;
      && r.0 == docs
      && Lookup(env, "success") == Some(WBool(false))
      && Lookup(env, "error") == Some(WStr(if docName !in docs then UnhandledPrefix + UnknownDocument(docName).Message()
                                           else NoSuchObject(objName).Message()))
  {
    EnvelopeOfTask(DeleteObjectTask(docs, docName, objName).1, "object_name", objName);
  }

  /** create_document always reports success under the requested name; when
      that name is taken the new document gets another one and the open
      document of that name is untouched. */
  lemma CreateDocumentReply(docs: Docs, name: string)
    requires AppValid(docs)
    ensures var r := CreateDocumentTask(docs, name);
      var env := Envelope(Answer(r.1), "document_name", name).entries;
      && Lookup(env, "success") == Some(WBool(true))
      && Lookup(env, "document_name") == Some(WStr(name))
      && (name in docs ==> r.0[name] == docs[name])
  {
    EnvelopeSpec(WBool(true), "document_name", name);
  }

  /** get_objects of an open document whose placements all read lists one
      record per object, in document order. */
  lemma GetObjectsRecords(docs: Docs, docName: string, show: Show)
    requires AppValid(docs) && docName in docs
    requires forall n :: n in docs[docName].objects ==> PlacementRead(docs[docName].objects[n]).Value?
    ensures var r := GetObjects(docs, docName, show); var d := docs[docName];
      && r.WList?
      && |r.items| == |d.order|
      && forall i :: 0 <= i < |d.order| ==> r.items[i] == ObjectRecord(d.objects[d.order[i]], show).value
  {
    var d := docs[docName];
    ListRecordSpec(ObjectsOf(d), show);
    assert forall i :: 0 <= i < |d.order| ==> d.order[i] in d.objects;
  }

  /** get_object of an existing object whose placement reads is its record. */
  lemma GetObjectRecord(docs: Docs, docName: string, objName: string, show: Show)
    requires docName in docs && objName in docs[docName].objects
    requires PlacementRead(docs[docName].objects[objName]).Value?
    ensures GetObject(docs, docName, objName, show) == ObjectRecord(docs[docName].objects[objName], show).value
  {
  }

  /** After `analysis.addObject(n)` the analysis's serialized Group lists
      its earlier members as before and the link to n last. */
  lemma JoinedRecord(o: ObjState, n: string, show: Show)
    requires "Group" in o.declared
    ensures var g := Lookup(PropertiesRecord(Joined(o, n), show), "Group");
      && g.Some? && g.value.WList?
      && |g.value.items| == |Members(o)| + 1
      && g.value.items[|Members(o)|] == WStr(show(CLink(n)))
      && forall i :: 0 <= i < |Members(o)| ==> g.value.items[i] == Encode(Members(o)[i], show)
  {
    var j := Joined(o, n);
    var xs := Members(o) + [CLink(n)];
    PropertiesRecordSpec(j, show);
    assert ReadAttr(j, "Group") == Value(CList(xs));
    assert PropertyEntry(j, "Group", show) == Encode(CList(xs), show);
    EncodeList(xs, show, |Members(o)|);
    forall i | 0 <= i < |Members(o)|
      ensures Encode(CList(xs), show).items[i] == Encode(Members(o)[i], show)
    {
      EncodeList(xs, show, i);
    }
  }

  /** get_object of an analysis after an object joined it: the record's
      Properties are those of the analysis with the new link last in its
      Group. */
  lemma GetJoinedAnalysis(docs: Docs, docName: string, a: string, n: string, show: Show)
    requires AppValid(docs) && docName in docs && a in docs[docName].objects
    requires PlacementRead(docs[docName].objects[a]).Value?
    ensures var o := docs[docName].objects[a];
      var rec := GetObject(docs[docName := AddToGroup(docs[docName], a, n)], docName, a, show);
      && rec.WMap?
      && Lookup(rec.entries, "Properties") == Some(WMap(PropertiesRecord(Joined(o, n), show)))
  {
    var o := docs[docName].objects[a];
    assert PlacementRead(Joined(o, n)) == PlacementRead(o);
    ObjectRecordFields(Joined(o, n), show);
  }
}
