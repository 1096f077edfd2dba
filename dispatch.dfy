/** The pure decisions of the RPC handlers: reply envelopes, reading a create
    request, routing a type name to a FEM maker, and the screenshot checks. */
module Dispatch {
  import opened Values

  /** The reply of create_document, create_object, edit_object and
      delete_object: success exactly when the task answered True. */
  function Envelope(res: Wire, key: string, name: string): (r: Wire)
    ensures r.WMap?
  {
    if res == WBool(true) then WMap([("success", WBool(true)), (key, WStr(name))])
    else WMap([("success", WBool(false)), ("error", res)])
  }

  /** The envelope says success with the name when the answer is True, and
      otherwise failure carrying the answer as its error. */
  lemma EnvelopeSpec(res: Wire, key: string, name: string)
    requires key != "success"
    ensures Lookup(Envelope(res, key, name).entries, "success") == Some(WBool(res == WBool(true)))
    ensures res == WBool(true) ==> Lookup(Envelope(res, key, name).entries, key) == Some(WStr(name))
    ensures res != WBool(true) ==> Lookup(Envelope(res, key, name).entries, "error") == Some(res)
    ensures res != WBool(true) ==> !HasKey(Envelope(res, key, name).entries, key) || key == "error"
  {
    var v := if res == WBool(true) then WStr(name) else res;
    var k := if res == WBool(true) then key else "error";
    var t: Dict := [(k, v)];
    assert Envelope(res, key, name).entries == [("success", WBool(res == WBool(true)))] + t;
    LookupCons(("success", WBool(res == WBool(true))), t, "success");
    LookupCons(("success", WBool(res == WBool(true))), t, k);
    LookupCons((k, v), [], k);
    assert KeysOf(Envelope(res, key, name).entries) == ["success", k];
  }

  /** The Object record a create call queues. Type, Analysis and Properties
      are kept as they arrived, since the handler only inspects them on the
      GUI thread. */
  datatype ObjectRequest = ObjectRequest(name: string, typeName: Wire, analysis: Wire, properties: Wire)

  const MissingTypeMessage := "Missing required field in obj_data: 'Type'"

  /** `obj.analysis` in a condition: its Python truth value. */
  predicate HasAnalysis(req: ObjectRequest)
  {
    Truthy(req.analysis)
  }

  /** Reading obj_data into an Object: Type is required, Name defaults to
      New_Object, Analysis to None and Properties to {}. */
  function ParseCreateRequest(objData: Dict): (r: Result<ObjectRequest, string>)
    ensures !HasKey(objData, "Type") ==> r == Err(MissingTypeMessage)
    ensures r.Ok? ==> Lookup(objData, "Type") == Some(r.value.typeName)
    ensures r.Ok? && !HasKey(objData, "Name") ==> r.value.name == "New_Object"
    ensures r.Ok? && !HasKey(objData, "Properties") ==> r.value.properties == WMap([])
    ensures r.Ok? && !HasKey(objData, "Analysis") ==> r.value.analysis == WNone
    ensures r.Ok? && HasKey(objData, "Properties") ==> Lookup(objData, "Properties") == Some(r.value.properties)
    ensures r.Ok? && HasKey(objData, "Analysis") ==> Lookup(objData, "Analysis") == Some(r.value.analysis)
    ensures HasKey(objData, "Type") ==> (r.Ok? <==> GetOr(objData, "Name", WStr("New_Object")).WStr?)
  {
    match Lookup(objData, "Type")
    case None => Err(MissingTypeMessage)
    case Some(t) =>
      var name := GetOr(objData, "Name", WStr("New_Object"));
      if !name.WStr? then Err("Name must be a string")
      else Ok(ObjectRequest(name.s, t, GetOr(objData, "Analysis", WNone), GetOr(objData, "Properties", WMap([]))))
  }

  /** A request with every field well formed is read as it is. */
  lemma ParseWellFormed(name: string, t: Wire, props: Dict)
    ensures ParseCreateRequest([("Name", WStr(name)), ("Type", t), ("Properties", WMap(props))]) ==
      Ok(ObjectRequest(name, t, WNone, WMap(props)))
  {
    var d: Dict := [("Name", WStr(name)), ("Type", t), ("Properties", WMap(props))];
    var t2: Dict := [("Properties", WMap(props))];
    var t1 := [("Type", t)] + t2;
    assert d == [("Name", WStr(name))] + t1;
    forall k ensures Lookup(d, k) == if k == "Name" then Some(WStr(name)) else Lookup(t1, k) {
      LookupCons(("Name", WStr(name)), t1, k);
    }
    forall k ensures Lookup(t1, k) == if k == "Type" then Some(t) else Lookup(t2, k) {
      LookupCons(("Type", t), t2, k);
    }
    LookupCons(("Properties", WMap(props)), [], "Properties");
    LookupCons(("Properties", WMap(props)), [], "Analysis");
  }

  /** The edit request's properties: `properties.get("Properties", {})`,
      whatever kind of value that is. */
  function EditProperties(data: Dict): (r: Wire)
    ensures !HasKey(data, "Properties") ==> r == WMap([])
    ensures HasKey(data, "Properties") ==> Lookup(data, "Properties") == Some(r)
  {
    GetOr(data, "Properties", WMap([]))
  }

  /** The text before the first "::" (all of s when it has none): a prefix
      of s without "::", which is all of s or is followed by "::". */
  function UpToSeparator(s: string): (r: string)
    ensures |r| <= |s| && r == s[..|r|]
    ensures !HasSeparator(r)
    ensures r == s || StartsWith(s[|r|..], "::")
  {
    if |s| < 2 then s
    else if s[0] == ':' && s[1] == ':' then ""
    else [s[0]] + UpToSeparator(s[1..])
  }

  predicate HasSeparator(s: string)
  {
    exists i :: 0 <= i < |s| - 1 && s[i] == ':' && s[i + 1] == ':'
  }

  /** A suffix without "::" is kept whole. */
  lemma {:induction false} UpToSeparatorWhole(s: string)
    requires !HasSeparator(s)
    ensures UpToSeparator(s) == s
  {
    if |s| >= 2 {
      assert !(s[0] == ':' && s[1] == ':');
      forall i | 0 <= i < |s[1..]| - 1 ensures !(s[1..][i] == ':' && s[1..][i + 1] == ':') {
        assert s[1..][i] == s[i + 1] && s[1..][i + 1] == s[i + 2];
      }
      UpToSeparatorWhole(s[1..]);
    }
  }

  /** `type.split("::")[1]` for a type that starts with "Fem::". */
  function FemShortName(typeName: string): string
    requires StartsWith(typeName, "Fem::")
  {
    UpToSeparator(typeName[5..])
  }

  lemma FemShortNameOf(x: string)
    requires !HasSeparator(x)
    ensures StartsWith("Fem::" + x, "Fem::")
    ensures FemShortName("Fem::" + x) == x
  {
    assert ("Fem::" + x)[..5] == "Fem::";
    assert ("Fem::" + x)[5..] == x;
    UpToSeparatorWhole(x);
  }

  /** With more parts, the short name is the part right after "Fem::", as
      `split("::")[1]` gives: "Fem::A::B" has short name "A". */
  lemma FemShortNameSplit(x: string, y: string)
    requires !HasSeparator(x) && (x == [] || x[|x| - 1] != ':')
    ensures StartsWith("Fem::" + x + "::" + y, "Fem::")
    ensures FemShortName("Fem::" + x + "::" + y) == x
  {
    var t := "Fem::" + x + "::" + y;
    assert t[..5] == "Fem::";
    assert t[5..] == x + "::" + y;
    UpToSeparatorFirst(x, y);
  }

  /** The separator found is the first one. */
  lemma {:induction false} UpToSeparatorFirst(x: string, y: string)
    requires !HasSeparator(x) && (x == [] || x[|x| - 1] != ':')
    ensures UpToSeparator(x + "::" + y) == x
  {
    var s := x + "::" + y;
    if x == [] {
      assert s[0] == ':' && s[1] == ':';
    } else {
      assert s[0] == x[0];
      assert |s| >= 2;
      if |x| == 1 {
        assert s[1] == ':' && x[0] != ':';
      } else {
        assert s[1] == x[1];
        assert !(x[0] == ':' && x[1] == ':');
      }
      var x' := x[1..];
      assert !HasSeparator(x') by {
        forall i | 0 <= i < |x'| - 1 ensures !(x'[i] == ':' && x'[i + 1] == ':') {
          assert x'[i] == x[i + 1] && x'[i + 1] == x[i + 2];
        }
      }
      assert s[1..] == x' + "::" + y;
      UpToSeparatorFirst(x', y);
    }
  }

  /** The maker the override table names for a short FEM type name, if any. */
  function Override(short: string): Option<string>
  {
    if short == "MaterialCommon" then Some("makeMaterialSolid")
    else if short == "AnalysisPython" then Some("makeAnalysis")
    else None
  }

  /** The ObjectsFem function a FEM type is made with: the override, else
      "make" + the short name when ObjectsFem has it callable. */
  function FemMaker(makers: set<string>, short: string): (r: Option<string>)
    ensures Override(short).Some? ==> r == Override(short)
    ensures Override(short).None? ==> (r.Some? <==> "make" + short in makers)
    ensures Override(short).None? && r.Some? ==> r.value == "make" + short
  {
    match Override(short)
    case Some(m) => Some(m)
    case None => if "make" + short in makers then Some("make" + short) else None
  }

  /** How _create_object_gui builds an object of a given type. */
  datatype Route = MeshWithAnalysis | FemObject(short: string) | Generic

  function RouteOf(typeName: string, hasAnalysis: bool): (r: Route)
    ensures r.MeshWithAnalysis? <==> typeName == "Fem::FemMeshGmsh" && hasAnalysis
    ensures r.FemObject? <==> StartsWith(typeName, "Fem::") && !(typeName == "Fem::FemMeshGmsh" && hasAnalysis)
    ensures r.FemObject? ==> r.short == FemShortName(typeName)
  {
    if typeName == "Fem::FemMeshGmsh" && hasAnalysis then MeshWithAnalysis
    else if StartsWith(typeName, "Fem::") then FemObject(FemShortName(typeName))
    else Generic
  }

  /** The view names _save_active_screenshot understands. */
  const ViewNames: seq<string> := ["Isometric", "Front", "Top", "Right", "Back", "Left", "Bottom", "Dimetric", "Trimetric"]

  /** `_save_active_screenshot` with the kernel's view calls left out: True,
      or the text of the check that failed. */
  function SaveActiveScreenshot(canSave: bool, viewName: string): (r: Wire)
    ensures !canSave ==> r == WStr("Current view does not support screenshots")
    ensures canSave ==> (r == WBool(true) <==> viewName in ViewNames)
    ensures canSave && viewName !in ViewNames ==> r == WStr("Invalid view name: " + viewName)
  {
    if !canSave then WStr("Current view does not support screenshots")
    else if viewName in ViewNames then WBool(true)
    else WStr("Invalid view name: " + viewName)
  }

  const NoActiveDocumentMessage := "No active document" + " found to take a screenshot."
  const NoScreenshotViewMessage := "Current view does not" + " support screenshots."

  /** The view get_active_screenshot shows when the call names none. */
  const DefaultViewName := "Isometric"

  /** The GUI-thread task of get_active_screenshot. `image` is the base64
      text of what the view saves. The answer of the save is not looked at:
      when it saved nothing the file is still the empty one that was created, and
      its base64 text is empty. */
  function ScreenshotTask(hasActiveDocument: bool, hasView: bool, canSave: bool, viewName: string, image: string): (r: Wire)
    ensures r.WStr?
  {
    if !hasActiveDocument then WStr(NoActiveDocumentMessage)
    else if !hasView || !canSave then WStr(NoScreenshotViewMessage)
    else if SaveActiveScreenshot(canSave, viewName) == WBool(true) then WStr(image)
    else WStr("")
  }

  /** Base64 of PNG, GIF and JPEG data starts with one of these. */
  predicate ImagePrefix(s: string)
  {
    StartsWith(s, "iVBOR") || StartsWith(s, "R0lGOD") || StartsWith(s, "/9j/")
  }

  /** The result check of get_active_screenshot: a string without an image
      prefix is an error and becomes None. */
  function ScreenshotReply(res: Wire): (r: Option<Wire>)
    ensures r.None? <==> res.WStr? && !ImagePrefix(res.s)
    ensures r.Some? ==> r.value == res
  {
    if res.WStr? && !ImagePrefix(res.s) then None else Some(res)
  }

  /** An unknown view name ends as None, as do the two failed checks. */
  lemma ScreenshotFailures(hasActiveDocument: bool, hasView: bool, canSave: bool, viewName: string, image: string)
    requires !hasActiveDocument || !hasView || !canSave || viewName !in ViewNames
    ensures ScreenshotReply(ScreenshotTask(hasActiveDocument, hasView, canSave, viewName, image)) == None
  {
    if !hasActiveDocument {
      NotImagePrefix(NoActiveDocumentMessage);
    } else if !hasView || !canSave {
      NotImagePrefix(NoScreenshotViewMessage);
    }
  }

  /** Text that starts with none of 'i', 'R' and '/' has no image prefix. */
  lemma NotImagePrefix(s: string)
    requires |s| > 0 && s[0] != 'i' && s[0] != 'R' && s[0] != '/'
    ensures !ImagePrefix(s)
  {
    if |s| >= 4 {
      assert s[..4][0] == s[0];
    }
    if |s| >= 5 {
      assert s[..5][0] == s[0];
    }
    if |s| >= 6 {
      assert s[..6][0] == s[0];
    }
  }

  /** All nine names are understood, and an image with a PNG, GIF or JPEG
      prefix taken from any of them is handed back. */
  lemma ScreenshotSuccess(viewName: string, image: string)
    requires viewName in ViewNames && ImagePrefix(image)
    ensures ScreenshotReply(ScreenshotTask(true, true, true, viewName, image)) == Some(WStr(image))
  {
  }
}
