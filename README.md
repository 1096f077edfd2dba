# FreeCAD MCP bridge, modelled in Dafny

The FreeCAD MCP addon runs an XML-RPC server inside FreeCAD. Its methods
(`create_document`, `create_object`, `edit_object`, `delete_object`,
`get_objects`, `get_object`, `get_active_screenshot`) put a task on a request
queue. The GUI thread drains that queue in `process_gui_tasks`, runs each task
against the open documents, and puts the result on a response queue. The RPC
method then wraps the result in a reply envelope. Values go to the client
through the encoder of `serialize.py`. Values from the client come in through
`set_object_property`, which decodes each wire value by the rules of the
property it is assigned to.

This project models that core:

- `values.dfy` (`Values`): the two value worlds. One is CAD values (`CadValue`), what a document property holds. The other is wire values (`Wire`), what crosses the transport. It also holds ordered dictionaries, with Python's `get`, `d[k] = v` and `del`.
- `documents.dfy` (`Documents`): documents as maps from internal name to object, plus the document order. Each object has its PropertiesList, its attribute values (a read may raise), an optional shape, an optional view record, and whether it can hold members. A group's members are the links in its Group property.
- `serialize.py` becomes `serialize.dfy` (`Serialize`). `Encode` is `serialize_value`, with the shape, view, object and document records on top. `SerializeProperties` and `SerializeObject` are the loop of `serialize_object`.
- `set_object_property` becomes `applier.dfy`:
  - `Applier` holds one iteration as `ApplyOne` and the whole batch as `ApplyBatch`;
  - `ApplierFacts` holds the batch and frame laws;
  - `DecodeFacts` holds the Placement and Vector decode rules and their round trips;
  - `RoutingFacts` holds the reference slots, References, and ShapeColor/ViewObject routing.
- `process_gui_tasks` becomes `sequencer.dfy` (`Sequencer`): the class `GuiTaskQueue` with both queues and a `while` loop that drains them. Tasks are abstract outcomes: a returned value, None, or a raised message.
- `dispatch.dfy` (`Dispatch`): the pure decisions. These are the reply envelope, reading `obj_data` into an `Object` request, the `Fem::` routing and maker override table, the nine view names, and the base64 prefix check.
- `factory.dfy` (`Factory`): `_create_document_gui`, `_create_object_gui` (mesh, FEM and generic routes), `_edit_object_gui` and `_delete_object_gui`. Each is a function from the open documents to the new documents and the task's outcome. The getters are here too.
- `factory_facts.dfy` (`FactoryFacts`): what those tasks promise, one route or case at a time, and what the caller's envelope says afterwards.
- `bridge.dfy` (`Bridge`): the state-changing side.
  - The class `FreeCad` holds the open documents. Its methods are the GUI-thread tasks, and `SetObjectProperty` has the loop of `set_object_property`; each is proved equal to its function in `Factory`.
  - The class `FreeCadRpc` owns a `FreeCad` and a `GuiTaskQueue`. Its methods queue one task, drain, take the reply and build the envelope.

The kernel itself is a parameter, `Factory.Kernel`. For each type `doc.addObject` knows it gives the new object's template, and the same for each callable `ObjectsFem` maker. The kernel's choice of a free name is `Documents.FreshName`. `str()` of a kernel object is the function parameter `Serialize.Show`.

Where the description of the system and the code differ, the model follows the code:

- `FreeCAD.getDocument` raises for a missing document. So `_edit_object_gui` and `_delete_object_gui` raise outside their `try` on a missing document, and their `if not doc` branches never run. The caller receives `"Unhandled exception in GUI task: Unknown document '<d>'"`, not a not-found text.
- For a missing object, the edit answers `"Object '<o>' not found in document '<d>'.\n"`. The delete answers the kernel's exception text.
- `create_object` reports the requested name even when the kernel made the object under another one (`FactoryFacts.CreateUnderTakenName`).
- An invalid screenshot view name makes `_save_active_screenshot` return its error text. `screenshot_task` ignores that text and returns the base64 of the empty file, so the caller receives None.

## Model

| member | source | states |
|---|---|---|
| Serialize.Encode | addon/FreeCADMCP/rpc_server/serialize.py:5-25 | The encoder is total and never yields None. It yields a list exactly for lists and colors, and a list keeps its length. |
| Serialize.PlainRoundTrip | addon/FreeCADMCP/rpc_server/serialize.py:6-7 | int, float, str and bool (and lists of them) pass through unchanged. Assigning the encoding back as it is gives the same value. |
| Serialize.PlainWireRoundTrip | addon/FreeCADMCP/rpc_server/serialize.py:6-7 | A plain wire value assigned as it is and serialized again comes back identical. |
| Serialize.EncodeList | addon/FreeCADMCP/rpc_server/serialize.py:20-21 | The i-th element of an encoded list is the encoding of the i-th element. |
| Serialize.VectorEncoding | addon/FreeCADMCP/rpc_server/serialize.py:8-9 | A Vector encodes to exactly the keys x, y, z, in that order, carrying its components. |
| Serialize.PlacementEncoding | addon/FreeCADMCP/rpc_server/serialize.py:10-19 | A Placement encodes to exactly Base and Rotation, never Position. Both are encoded recursively, and the rotation becomes exactly Axis and Angle. |
| Serialize.ShapeRecord | addon/FreeCADMCP/rpc_server/serialize.py:28-30 | The record is None exactly when there is no shape. |
| Serialize.ShapeCounts | addon/FreeCADMCP/rpc_server/serialize.py:31-37 | VertexCount, EdgeCount and FaceCount are the lengths of the shape's lists. |
| Serialize.ViewRecord | addon/FreeCADMCP/rpc_server/serialize.py:40-47 | The record is None exactly when there is no view. |
| Serialize.PropertiesRecordSpec | addon/FreeCADMCP/rpc_server/serialize.py:71-75 | The Properties keys are exactly the PropertiesList, in its order when it has no repeats. Each value is the encoded read, and a read that raises gives `<error: msg>` without stopping the others. |
| Serialize.FillLookup | addon/FreeCADMCP/rpc_server/serialize.py:71-75 | After the loop, each listed property maps to its entry, and every other key keeps its earlier value. |
| Serialize.FillKeys | addon/FreeCADMCP/rpc_server/serialize.py:71-75 | With distinct new names, the loop appends the listed names to the keys in order. |
| Serialize.SerializeProperties | addon/FreeCADMCP/rpc_server/serialize.py:65-75 | The loop that fills Properties builds exactly the Properties record. |
| Serialize.ObjectRecord | addon/FreeCADMCP/rpc_server/serialize.py:61-69 | An object's record fails exactly when reading its Placement raises; a missing Placement counts as None. |
| Serialize.ObjectRecordFields | addon/FreeCADMCP/rpc_server/serialize.py:61-79 | The record holds the Properties record and the encoded Placement (the text None when absent). ViewObject is the view record, or {} for an object without a view. |
| Serialize.SerializeObject | addon/FreeCADMCP/rpc_server/serialize.py:60-81 | The imperative serializer builds exactly the object record. |
| Serialize.ListRecordSpec | addon/FreeCADMCP/rpc_server/serialize.py:51-52 | A list succeeds exactly when every element does, and it keeps length and order element by element. |
| Serialize.DocumentRecord | addon/FreeCADMCP/rpc_server/serialize.py:53-59 | The record has exactly the keys Name, Label, FileName and Objects, in that order. They hold the document's name, label and file name and its object list. The record fails exactly when reading some object's Placement raises. |
| Serialize.DocumentObjectsRead | addon/FreeCADMCP/rpc_server/serialize.py:58 | The object list succeeds exactly when every object's Placement reads. |
| Serialize.DocumentRecordObjects | addon/FreeCADMCP/rpc_server/serialize.py:53-59 | Objects has one record per object, in document order. |
| Applier.ToReal | addon/FreeCADMCP/rpc_server/rpc_server.py:94-95 | float() accepts bool, int and float, and fails on every other wire value. |
| Applier.ToReals | addon/FreeCADMCP/rpc_server/rpc_server.py:94-95 | The float tuple succeeds exactly when every component converts, keeping length and order. |
| Applier.Iterate | addon/FreeCADMCP/rpc_server/rpc_server.py:85 | Iterating succeeds exactly for lists, strings and dicts. A list yields its items. |
| Applier.Unpack2 | addon/FreeCADMCP/rpc_server/rpc_server.py:85 | A two-element list unpacks into its two elements. |
| Applier.Contains | addon/FreeCADMCP/rpc_server/rpc_server.py:333 | `key in w` answers for a dict, list or string (key, element, substring) and raises the not-iterable error for anything else. |
| Applier.ApplyProperties | addon/FreeCADMCP/rpc_server/rpc_server.py:56 | A dict runs the batch over its pairs, and anything else fails at `.items()` before any assignment. |
| ApplierFacts.BatchSplit | addon/FreeCADMCP/rpc_server/rpc_server.py:56-57 | A batch is its first part followed, unless that part raised, by the rest. |
| ApplierFacts.BatchAbort | addon/FreeCADMCP/rpc_server/rpc_server.py:104-106 | The first failing property ends the batch with `Property '<p>' assignment error`. Earlier properties stay applied and later ones are untouched. |
| ApplierFacts.BatchApplied | addon/FreeCADMCP/rpc_server/rpc_server.py:56-103 | A property that succeeds after a clean prefix extends the batch by that one step. |
| ApplierFacts.BatchStep | addon/FreeCADMCP/rpc_server/rpc_server.py:56-106 | One more loop iteration after a clean prefix is the batch over the longer prefix, wrapped on failure. |
| ApplierFacts.BatchStop | addon/FreeCADMCP/rpc_server/rpc_server.py:56-106 | Stopping at the end or at the first failure gives the whole batch's result. |
| ApplierFacts.ApplyViewFrame | addon/FreeCADMCP/rpc_server/rpc_server.py:96-101 | A ViewObject mapping changes only the view record, and the view stays present. |
| ApplierFacts.ApplyOneFrame | addon/FreeCADMCP/rpc_server/rpc_server.py:57-103 | One step changes only the property it names, or the view when routed there. A step that raised before assigning leaves the object as it was. |
| ApplierFacts.DeclaredFrame | addon/FreeCADMCP/rpc_server/rpc_server.py:58-93 | A declared property either gets one value assigned or, when decoding fails, nothing changes. |
| ApplierFacts.SetOrFailFrame | addon/FreeCADMCP/rpc_server/rpc_server.py:73-91 | A decoded value is assigned, and a failed decode changes nothing. |
| ApplierFacts.UndeclaredFrame | addon/FreeCADMCP/rpc_server/rpc_server.py:94-103 | An undeclared name changes that attribute or the view record only. |
| ApplierFacts.BatchFrame | addon/FreeCADMCP/rpc_server/rpc_server.py:56-106 | A batch changes only the properties it names, and the view only through ShapeColor or ViewObject. |
| DecodeFacts.VectorRoundTrip | addon/FreeCADMCP/rpc_server/rpc_server.py:74-76 | A Vector property given the encoding of a vector gets that vector back. |
| DecodeFacts.VectorDefaults | addon/FreeCADMCP/rpc_server/rpc_server.py:75 | For every mapping, the vector succeeds exactly when each coordinate present converts by float(). A present coordinate is its float() value; a missing x or y is 0, and a missing z is the caller's default. |
| DecodeFacts.VectorNeedsMapping | addon/FreeCADMCP/rpc_server/rpc_server.py:75 | A value that is no mapping fails with the `.get` attribute error. |
| DecodeFacts.PlacementRoundTrip | addon/FreeCADMCP/rpc_server/rpc_server.py:59-73 | A serialized Placement decodes to the same base, axis and angle. |
| DecodeFacts.PositionAlias | addon/FreeCADMCP/rpc_server/rpc_server.py:60 | Position is read when Base is absent. |
| DecodeFacts.PlacementFrom | addon/FreeCADMCP/rpc_server/rpc_server.py:59-73 | A {Base or Position, Rotation} mapping decodes to that placement. |
| DecodeFacts.BaseBeatsPosition | addon/FreeCADMCP/rpc_server/rpc_server.py:60 | When Base is present, Position is ignored. |
| DecodeFacts.PlacementDefaults | addon/FreeCADMCP/rpc_server/rpc_server.py:60-71 | For every mapping: the base is decoded from Base, else Position, else {} (the origin). A missing Rotation gives axis (0,0,1) and angle 0; within a Rotation mapping a missing Axis gives (0,0,1) and a missing Angle 0. A Rotation that is no mapping fails with the `.get` error. |
| RoutingFacts.RefSlotResolution | addon/FreeCADMCP/rpc_server/rpc_server.py:77-82 | A string on Base, Tool, Source or Profile links the named object, or raises `Referenced object ... not found.` and changes nothing. |
| RoutingFacts.ResolveRefsSpec | addon/FreeCADMCP/rpc_server/rpc_server.py:84-90 | References resolve exactly when every name exists, pair by pair in order; otherwise the error names a missing object. |
| RoutingFacts.ReferencesResolution | addon/FreeCADMCP/rpc_server/rpc_server.py:83-91 | A References list is stored as resolved pairs when all names resolve. Otherwise the object is unchanged. |
| RoutingFacts.ShapeColorToView | addon/FreeCADMCP/rpc_server/rpc_server.py:94-95 | An undeclared ShapeColor with a view goes to the view record as floats, and the attributes stay. |
| RoutingFacts.ShapeColorNotRouted | addon/FreeCADMCP/rpc_server/rpc_server.py:102-103 | Without a view, ShapeColor is assigned raw to the object. |
| RoutingFacts.ViewObjectShapeColor | addon/FreeCADMCP/rpc_server/rpc_server.py:96-99 | A ViewObject mapping's ShapeColor is set on the view as floats. |
| RoutingFacts.EditRoundTrip | addon/FreeCADMCP/rpc_server/rpc_server.py:58-93 | A property read by get_object and written back unchanged by edit_object leaves the object unchanged. This covers plain values, Vectors and Placement. |
| Documents.AddObject | addon/FreeCADMCP/rpc_server/rpc_server.py:307 | The new object goes last in the document order, and the document stays consistent. |
| Documents.RemoveObject | addon/FreeCADMCP/rpc_server/rpc_server.py:361 | Exactly that object leaves the objects map. The order loses that name and keeps every other name in its relative order, and the document stays consistent. |
| Documents.RemoveAppend | addon/FreeCADMCP/rpc_server/rpc_server.py:361 | Removing a name from two joined runs of the order removes it from each run, so the relative order of the others is kept. |
| Documents.Joined | addon/FreeCADMCP/rpc_server/rpc_server.py:301 | `addObject` on a group puts the link to the new member last in its Group property, adds no other attribute and changes no other value. |
| Documents.FreshName | addon/FreeCADMCP/rpc_server/rpc_server.py:298-307 | The kernel's name is not taken, and it is the requested one when that is free. |
| Sequencer.Publish | addon/FreeCADMCP/rpc_server/rpc_server.py:32-40 | A task publishes at most one response, and none exactly when it returned None. |
| Sequencer.Reply | addon/FreeCADMCP/rpc_server/rpc_server.py:33-40 | The reply is the returned value, or `Unhandled exception in GUI task: <msg>` for a raise. |
| Sequencer.Answer | addon/FreeCADMCP/rpc_server/rpc_server.py:117 | What the blocked RPC thread receives for a task that does not return None is that task's reply. |
| Sequencer.PublishedAppend | addon/FreeCADMCP/rpc_server/rpc_server.py:30-40 | Draining two runs publishes the first run's responses and then the second's. |
| Sequencer.PublishedOneToOne | addon/FreeCADMCP/rpc_server/rpc_server.py:30-40 | Tasks that never return None publish exactly one response each, in task order. |
| Sequencer.RaiseContinues | addon/FreeCADMCP/rpc_server/rpc_server.py:36-40 | A raising task publishes its error text in its place, and the tasks after it still run. |
| Sequencer.GuiTaskQueue.ProcessGuiTasks | addon/FreeCADMCP/rpc_server/rpc_server.py:29-41 | The pass empties the request queue. It runs every queued task once in FIFO order and appends what they publish to the response queue. |
| Sequencer.GuiTaskQueue.Submit | addon/FreeCADMCP/rpc_server/rpc_server.py:116 | The task goes at the back of the request queue. |
| Sequencer.GuiTaskQueue.TakeResponse | addon/FreeCADMCP/rpc_server/rpc_server.py:117 | The oldest response is taken off the response queue. |
| Sequencer.RoundTrip | addon/FreeCADMCP/rpc_server/rpc_server.py:116-117 | On idle queues, a queued task's reply is its own reply, and the queues are idle again afterwards. |
| Dispatch.EnvelopeSpec | addon/FreeCADMCP/rpc_server/rpc_server.py:118-121 | success is true exactly when the result is True, and then the name is reported. Otherwise the result is the error. |
| Dispatch.ParseCreateRequest | addon/FreeCADMCP/rpc_server/rpc_server.py:124-132 | Without Type the request fails naming the missing field. Name defaults to New_Object, Analysis to None and Properties to {}. Analysis and Properties are passed on as given, whatever their kind, and with a Type present only a Name that is no string is refused. |
| Dispatch.ParseWellFormed | addon/FreeCADMCP/rpc_server/rpc_server.py:125-130 | A well-formed obj_data is read field for field. |
| Dispatch.EditProperties | addon/FreeCADMCP/rpc_server/rpc_server.py:146 | The properties are the Properties entry as given, whatever its kind, or {} when there is none. |
| Dispatch.UpToSeparator | addon/FreeCADMCP/rpc_server/rpc_server.py:293 | The result is a prefix of the type that contains no `::` and is either the whole type or followed by `::`: it ends at the first `::`. |
| Dispatch.UpToSeparatorFirst | addon/FreeCADMCP/rpc_server/rpc_server.py:293 | A text x without `::` followed by `::` and anything is cut back to x. |
| Dispatch.UpToSeparatorWhole | addon/FreeCADMCP/rpc_server/rpc_server.py:293 | A suffix without `::` is kept whole. |
| Dispatch.FemShortNameOf | addon/FreeCADMCP/rpc_server/rpc_server.py:293 | `("Fem::" + x).split("::")[1]` is x. |
| Dispatch.FemShortNameSplit | addon/FreeCADMCP/rpc_server/rpc_server.py:293 | `("Fem::" + x + "::" + y).split("::")[1]` is x, for x without `::` that does not end in a colon. |
| Dispatch.FemMaker | addon/FreeCADMCP/rpc_server/rpc_server.py:289-297 | The override table wins. Otherwise the maker is `"make" + short`, and exactly when ObjectsFem has it. |
| Dispatch.RouteOf | addon/FreeCADMCP/rpc_server/rpc_server.py:267-306 | The mesh route is taken exactly for FemMeshGmsh with an analysis, and the FEM route exactly for the other `Fem::` types. |
| Dispatch.SaveActiveScreenshot | addon/FreeCADMCP/rpc_server/rpc_server.py:379-404 | Exactly the nine view names succeed, and any other name gives `Invalid view name: <v>`. |
| Dispatch.ScreenshotTask | addon/FreeCADMCP/rpc_server/rpc_server.py:220-242 | The screenshot task always answers a string. |
| Dispatch.ScreenshotReply | addon/FreeCADMCP/rpc_server/rpc_server.py:248-251 | A string without a PNG, GIF or JPEG base64 prefix becomes None, and everything else is returned as it is. |
| Dispatch.ScreenshotFailures | addon/FreeCADMCP/rpc_server/rpc_server.py:219-250 | No active document, no saving view, or an unknown view name ends as None. |
| Dispatch.NotImagePrefix | addon/FreeCADMCP/rpc_server/rpc_server.py:248 | Text starting with a letter other than i, R or / has no image prefix. |
| Dispatch.ScreenshotSuccess | addon/FreeCADMCP/rpc_server/rpc_server.py:382-403 | For each of the nine names, an image with an image prefix is handed back. |
| Factory.Make | addon/FreeCADMCP/rpc_server/rpc_server.py:298-307 | The new object goes last under a free name, the requested one when possible, and nothing else changes. |
| Factory.BatchEffect | addon/FreeCADMCP/rpc_server/rpc_server.py:299 | set_object_property on a live object changes only that object, as the batch does; properties that are no dict change nothing and fail at `.items()`. |
| Factory.GroupCheck | addon/FreeCADMCP/rpc_server/rpc_server.py:300-301 | `getattr(doc, a).addObject` succeeds exactly when a is a string naming an object of the document that can hold members. |
| Factory.AddToGroup | addon/FreeCADMCP/rpc_server/rpc_server.py:301 | The link to the object goes last in the analysis's Group property, the one get_object reports, and nothing else changes. |
| Factory.JoinAnalysis | addon/FreeCADMCP/rpc_server/rpc_server.py:300-301 | Joining fails exactly as the group check does, and then changes nothing. Otherwise only the analysis changes: its Group gains the link to the object, last. |
| Factory.SetPresent | addon/FreeCADMCP/rpc_server/rpc_server.py:280-282 | The mesh loop adds no attribute and changes nothing but attribute values. |
| Factory.NewMesh | addon/FreeCADMCP/rpc_server/rpc_server.py:269 | The mesh is added last under a free name, and the link to it goes last in the analysis's Group. |
| Factory.MeshPart | addon/FreeCADMCP/rpc_server/rpc_server.py:270-282 | Only the mesh's attribute values change. Properties without Part fail with the Part text and change nothing. Properties that cannot be searched fail at `in`, and a list or string that contains Part fails at the subscript, both changing nothing. |
| Factory.CreateObjectTask | addon/FreeCADMCP/rpc_server/rpc_server.py:263-316 | The create task never raises. It answers True or a failure text, and only the named document can change. |
| Factory.EditInDoc | addon/FreeCADMCP/rpc_server/rpc_server.py:331-347 | The edit keeps the document's objects and order. |
| Factory.EditObjectTask | addon/FreeCADMCP/rpc_server/rpc_server.py:318-352 | Only the named document changes, and the answer is never None. |
| Factory.DeleteObjectTask | addon/FreeCADMCP/rpc_server/rpc_server.py:354-366 | Only the named document changes, and the answer is never None. |
| Factory.CreateDocumentTask | addon/FreeCADMCP/rpc_server/rpc_server.py:253-261 | Exactly one new document opens, and it is empty. It gets the name when that is free, and the open ones are untouched. The answer is True. |
| Factory.GetObjects | addon/FreeCADMCP/rpc_server/rpc_server.py:187-192 | A missing document gives the failure record with the kernel's error text. |
| Factory.GetObject | addon/FreeCADMCP/rpc_server/rpc_server.py:194-203 | A missing document or object gives the failure record with its text. |
| FactoryFacts.EnvelopeOfTask | addon/FreeCADMCP/rpc_server/rpc_server.py:117-121 | The envelope of a queued task reports success exactly when the task returned True. A raising task's error is the published error text. |
| FactoryFacts.SetPresentSpec | addon/FreeCADMCP/rpc_server/rpc_server.py:280-282 | A name the batch does not mention keeps its value. A name the object has gets the batch's value. |
| FactoryFacts.SetPresentWithoutPart | addon/FreeCADMCP/rpc_server/rpc_server.py:276-282 | With Part deleted from the map, the loop keeps Part and sets exactly the other names the mesh has. |
| FactoryFacts.MeshPartSpec | addon/FreeCADMCP/rpc_server/rpc_server.py:270-282 | An unknown Part fails and changes nothing. A known one is linked, and the remaining properties are set only where the mesh has them. |
| FactoryFacts.MeshCreation | addon/FreeCADMCP/rpc_server/rpc_server.py:267-278 | A bad analysis makes nothing. Otherwise the mesh is made and linked last in the analysis's Group before Part is checked. So properties without Part, or that cannot be searched or subscripted, fail with the mesh in place. |
| FactoryFacts.FalsyAnalysisIgnored | addon/FreeCADMCP/rpc_server/rpc_server.py:267-301 | A falsy Analysis (None, an empty string, 0, False, an empty list or dict) does exactly what no analysis does. |
| FactoryFacts.MeshPartResolution | addon/FreeCADMCP/rpc_server/rpc_server.py:270-282 | An unknown Part fails after the mesh is made. A known one (the mesh included) is linked; the mesh keeps the maker's attributes plus Part, with the maker's values where the request names none. |
| FactoryFacts.FemRoute | addon/FreeCADMCP/rpc_server/rpc_server.py:288-293 | Any `Fem::X` other than the mesh with an analysis is made by the maker for X. |
| FactoryFacts.FemSetupSpec | addon/FreeCADMCP/rpc_server/rpc_server.py:298-301 | The properties are applied and then the object is linked last in the analysis's Group, unless it is an analysis itself or the batch raised. Joining fails as the group check does, with the object kept. |
| FactoryFacts.FemCreation | addon/FreeCADMCP/rpc_server/rpc_server.py:288-304 | Without a maker, it fails with `No creation method` and nothing is made. Otherwise the made object goes last, under the name when free, with the properties applied. Properties that are no dict fail at `.items()`, with the new object kept as made. |
| FactoryFacts.FemJoin | addon/FreeCADMCP/rpc_server/rpc_server.py:300-301 | After a clean batch, a non-analysis joins the named analysis, its link going last in the Group. This fails exactly as the group check does in the original document. |
| FactoryFacts.GenericRoute | addon/FreeCADMCP/rpc_server/rpc_server.py:306-307 | A type not starting with `Fem::` goes to `doc.addObject`. |
| FactoryFacts.GenericCreation | addon/FreeCADMCP/rpc_server/rpc_server.py:306-308 | An unknown type makes nothing. A known one is added last and receives the batch, and the batch's error is the task's. |
| FactoryFacts.CreateWithBadProperties | addon/FreeCADMCP/rpc_server/rpc_server.py:306-316 | Properties that are no dict fail only after `doc.addObject`. The new object stays in the document as made, and the reply is the failure text of `.items()`. |
| FactoryFacts.CreateUnderTakenName | addon/FreeCADMCP/rpc_server/rpc_server.py:134-137 | With the name taken, the object is made under another name, the existing object is untouched, and the envelope still reports the requested name. |
| FactoryFacts.CreateInMissingDocument | addon/FreeCADMCP/rpc_server/rpc_server.py:263-316 | Creating in a missing document changes nothing. The envelope carries the failure text naming object and document. |
| FactoryFacts.EditNotFound | addon/FreeCADMCP/rpc_server/rpc_server.py:318-329 | Editing a missing document or object changes nothing, and the envelope reports failure with the text. |
| FactoryFacts.EditReferencesFirst | addon/FreeCADMCP/rpc_server/rpc_server.py:333-347 | References are assigned first, the rest runs without them, and the assigned list survives. |
| FactoryFacts.EditReferencesRejected | addon/FreeCADMCP/rpc_server/rpc_server.py:333-352 | Unresolvable References change nothing, and the answer is the bare exception text. |
| FactoryFacts.EditBadProperties | addon/FreeCADMCP/rpc_server/rpc_server.py:331-352 | Properties that are no dict are still run. They change nothing, and the answer is the exception of `in`, of the References subscript, or of `.items()`, whichever comes first. |
| FactoryFacts.DeleteRemoves | addon/FreeCADMCP/rpc_server/rpc_server.py:360-364 | Exactly that object is removed, the others keep their order, and the envelope reports success with its name. |
| FactoryFacts.DeleteNotFound | addon/FreeCADMCP/rpc_server/rpc_server.py:354-366 | Deleting a missing document or object changes nothing, and the envelope reports failure with the text. |
| FactoryFacts.CreateDocumentReply | addon/FreeCADMCP/rpc_server/rpc_server.py:115-119 | create_document reports success under the requested name, and an existing document of that name is untouched. |
| FactoryFacts.GetObjectsRecords | addon/FreeCADMCP/rpc_server/rpc_server.py:187-190 | get_objects lists one record per object, in document order. |
| FactoryFacts.GetObjectRecord | addon/FreeCADMCP/rpc_server/rpc_server.py:194-199 | get_object of an existing object is its record. |
| FactoryFacts.JoinedRecord | addon/FreeCADMCP/rpc_server/serialize.py:71-75 | After a member joins, the analysis's serialized Group lists the earlier members as before, then the link to the new member. |
| FactoryFacts.GetJoinedAnalysis | addon/FreeCADMCP/rpc_server/rpc_server.py:194-199 | get_object of an analysis after a join reports the Properties of the joined analysis. |
| Bridge.ResolveReferences | addon/FreeCADMCP/rpc_server/rpc_server.py:334-340 | The appending loop over the pairs computes the reference resolution, failing at the first unknown name. |
| Bridge.ResolveReferencesOf | addon/FreeCADMCP/rpc_server/rpc_server.py:333-341 | The References pre-step iterates the value and resolves each pair. |
| Bridge.FreeCad.SetObjectProperty | addon/FreeCADMCP/rpc_server/rpc_server.py:53-106 | The loop over the live object leaves the document as the batch does, and raises what it raises; properties that are no dict raise at `.items()`. |
| Bridge.FreeCad.SetPresentProperties | addon/FreeCADMCP/rpc_server/rpc_server.py:280-282 | The hasattr-guarded loop over the live mesh. |
| Bridge.FreeCad.CreateDocumentGui | addon/FreeCADMCP/rpc_server/rpc_server.py:253-261 | The in-place task matches the create-document task. |
| Bridge.FreeCad.CreateObjectGui | addon/FreeCADMCP/rpc_server/rpc_server.py:263-316 | The in-place task matches the create-object task. |
| Bridge.FreeCad.CreateMeshGui | addon/FreeCADMCP/rpc_server/rpc_server.py:267-282 | The in-place mesh route matches the mesh route function. |
| Bridge.FreeCad.MeshPartGui | addon/FreeCADMCP/rpc_server/rpc_server.py:270-282 | The in-place Part step matches its function. |
| Bridge.FreeCad.CreateFemGui | addon/FreeCADMCP/rpc_server/rpc_server.py:288-304 | The in-place FEM route matches the FEM route function. |
| Bridge.FreeCad.FemSetupGui | addon/FreeCADMCP/rpc_server/rpc_server.py:298-301 | The in-place FEM setup matches its function. |
| Bridge.FreeCad.CreateGenericGui | addon/FreeCADMCP/rpc_server/rpc_server.py:306-308 | The in-place generic route matches its function. |
| Bridge.FreeCad.EditObjectGui | addon/FreeCADMCP/rpc_server/rpc_server.py:318-352 | The in-place task matches the edit task. |
| Bridge.FreeCad.EditInDocGui | addon/FreeCADMCP/rpc_server/rpc_server.py:331-347 | The in-place edit body matches its function. |
| Bridge.FreeCad.DeleteObjectGui | addon/FreeCADMCP/rpc_server/rpc_server.py:354-366 | The in-place task matches the delete task. |
| Bridge.FreeCadRpc.Call | addon/FreeCADMCP/rpc_server/rpc_server.py:116-117 | One queued task runs exactly once, and its answer is returned. |
| Bridge.FreeCadRpc.CreateDocument | addon/FreeCADMCP/rpc_server/rpc_server.py:115-121 | A call without a name asks for New_Document. The documents become the task's, and the reply is the envelope of its answer under document_name. |
| Bridge.FreeCadRpc.CreateObject | addon/FreeCADMCP/rpc_server/rpc_server.py:123-139 | A request without Type, or whose Name is no string, is answered at once and queues nothing. Otherwise the task runs once, and the envelope of its answer is returned under object_name. |
| Bridge.FreeCadRpc.EditObject | addon/FreeCADMCP/rpc_server/rpc_server.py:141-153 | The Properties entry is queued whatever its kind. The documents become the edit task's, and the reply is the envelope of its answer. |
| Bridge.FreeCadRpc.DeleteObject | addon/FreeCADMCP/rpc_server/rpc_server.py:155-161 | The documents become the delete task's, and the reply is the envelope of its answer. |
| Bridge.FreeCadRpc.GetActiveScreenshot | addon/FreeCADMCP/rpc_server/rpc_server.py:219-251 | A call without a view asks for Isometric. The documents are unchanged, and the reply is the prefix check of the screenshot task's answer. |

## Left out

- The XML-RPC transport, the server thread, `start_rpc_server`/`stop_rpc_server`, `ping`, and the QTimer that reschedules `process_gui_tasks`. These are I/O and thread lifecycle. A call is modelled on idle queues: queue, drain once, take the reply.
- `execute_code`: it runs arbitrary Python.
- `list_documents`, `get_parts_list`, `insert_part_from_library` and the parts library: these are a file system scan and a foreign kernel call.
- Mesh generation (`GmshTools.create_mesh`) and every `doc.recompute()`. These are kernel computations; the model ends the mesh branch once its properties are set.
- The kernel's own checking and conversion of assigned values. Every `setattr` is taken to accept the value as given, so the kernel's type errors (`KernelFailed`) are never raised by the model.
- Applier.ToReal: `float()` of a numeric string, such as `"1.5"`, fails here but succeeds in Python. The text of Python's number parsing is not modelled.
- The texts of kernel and Python exceptions are the model's own `Failure.Message` strings. They follow the usual messages but are not byte-exact.
- Dispatch.ParseCreateRequest and Bridge.FreeCadRpc.CreateObject: a Name that is no string is refused when the request is read, and nothing is queued. In the source the task runs, and the kernel's `makeMeshGmsh`, maker or `doc.addObject` raises on it, so the answer is a failure text, but what the kernel does first is not modelled.
- A non-dict `obj_data` or `properties` argument is not modelled: `.get` raises in the RPC thread, and the transport answers with a fault.
- Documents.RemoveObject: FreeCAD's `removeObject` also clears links to the removed object from other objects (Group members, Base and Tool links). The model leaves those links in place.
- Serialize.ViewRecord: Transparency and Visibility go through the encoder, while `serialize_view_object` sends them as they are. They differ only for a view field holding a value the encoder turns to text, such as None or a dict.
- The Placement read of an object record: `getattr(obj, "Placement", None)` turns an AttributeError raised by the Placement getter into None. The model fails the record on any failed read of Placement.
- Attributes of the document itself: `getattr(doc, analysis)` finds only the document's objects here.
- Rotation's degree/radian conversion and axis normalisation: a Rotation is viewed as storing its axis and angle.
- The kernel's sanitising of requested names. `FreshName` only promises a free name, and the requested one when free.
- The screenshot's temporary file, `view.fitAll`/`view.saveImage`, and base64 encoding. The image text is a parameter of `GetActiveScreenshot`, and the `Failed to capture screenshot` path of an I/O error is not modelled.
- Factory.CreateDocumentTask: the failure path of `FreeCAD.newDocument` is not modelled, so creating a document always answers True.
- Factory.GetObjects: the ensures covers only the missing document. The open-document case is stated in `FactoryFacts.GetObjectsRecords`, where every Placement reads.
- The unreachable `if not doc` branches of `_edit_object_gui` and `_delete_object_gui`, because `FreeCAD.getDocument` raises for a missing document.
- Bridge.FreeCad.SetObjectProperty and Bridge.FreeCad.SetPresentProperties: the loops work on a local copy of the object and write it back to the document once at the end. Nothing else can observe the object during the loop, so the document ends the same.
- Repeated keys in a request's property map cannot occur in a Python dict. The model's `Dict` allows them, and the value statements that depend on this require distinct keys.
