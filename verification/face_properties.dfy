/** What the extractor promises about its result, stated over the model of
    `fetch_face_data_for_ui`. */
module FaceProperties {
  import opened Values
  import opened Documents
  import opened FaceRecords

  /** The item writes an entry under `key`. */
  ghost predicate Writes(item: Item, key: string) {
    Classify(item).Keep? && Classify(item).info.faceId == key
  }

  /** No item after position i writes under `key`. */
  ghost predicate LastWriter(items: seq<Item>, i: nat, key: string) {
    forall j :: i < j < |items| ==> !Writes(items[j], key)
  }

  /** The keys of a successful run: those it started with and those some
      item wrote. */
  lemma {:induction false} RunKeys(acc: FaceMap, items: seq<Item>, key: string)
    requires Run(acc, items).Ok?
    ensures key in Run(acc, items).value
            <==> key in acc || exists i :: 0 <= i < |items| && Writes(items[i], key)
    decreases |items|
  {
    if items != [] {
      var n := |items| - 1;
      var prefix := items[..n];
      RunKeys(acc, prefix, key);
      assert forall i :: 0 <= i < n ==> prefix[i] == items[i];
      if exists i :: 0 <= i < n && Writes(prefix[i], key) {
        var i :| 0 <= i < n && Writes(prefix[i], key);
        assert Writes(items[i], key);
      }
    }
  }

  /** Last write wins: under a written key a successful run holds the entry of
      the last item that wrote it. */
  lemma {:induction false} RunLastWriter(acc: FaceMap, items: seq<Item>, i: nat, key: string)
    requires Run(acc, items).Ok?
    requires i < |items| && Writes(items[i], key) && LastWriter(items, i, key)
    ensures key in Run(acc, items).value && Run(acc, items).value[key] == Classify(items[i]).info
    decreases |items|
  {
    var n := |items| - 1;
    if i < n {
      var prefix := items[..n];
      assert prefix[i] == items[i];
      assert !Writes(items[n], key);
      RunLastWriter(acc, prefix, i, key);
    }
  }

  /** A key no item writes keeps the entry the run started with. */
  lemma {:induction false} RunUntouched(acc: FaceMap, items: seq<Item>, key: string)
    requires Run(acc, items).Ok? && key in acc
    requires forall i :: 0 <= i < |items| ==> !Writes(items[i], key)
    ensures key in Run(acc, items).value && Run(acc, items).value[key] == acc[key]
    decreases |items|
  {
    if items != [] {
      var n := |items| - 1;
      assert !Writes(items[n], key);
      RunUntouched(acc, items[..n], key);
    }
  }

  /** Some later item writes the same key, or this one is the last writer. */
  lemma {:induction false} LastWriterExists(items: seq<Item>, i: nat, key: string)
    requires i < |items| && Writes(items[i], key)
    ensures exists l: nat :: i <= l < |items| && Writes(items[l], key) && LastWriter(items, l, key)
    decreases |items| - i
  {
    if !LastWriter(items, i, key) {
      var j :| i < j < |items| && Writes(items[j], key);
      LastWriterExists(items, j, key);
    }
  }

  /** A run fails exactly when some item aborts. */
  lemma {:induction false} RunFails(acc: FaceMap, items: seq<Item>)
    ensures Run(acc, items).Err? <==> exists i :: 0 <= i < |items| && Classify(items[i]).Abort?
    decreases |items|
  {
    if items != [] {
      var n := |items| - 1;
      var prefix := items[..n];
      RunFails(acc, prefix);
      assert forall i :: 0 <= i < n ==> prefix[i] == items[i];
      if exists i :: 0 <= i < n && Classify(prefix[i]).Abort? {
        var i :| 0 <= i < n && Classify(prefix[i]).Abort?;
        assert Classify(items[i]).Abort?;
      }
    }
  }

  /** The error a failing run reports is that of the first item that aborts,
      whatever map it started from. */
  lemma RunFirstError(acc: FaceMap, items: seq<Item>, i: nat)
    requires i < |items| && Classify(items[i]).Abort?
    requires forall j :: 0 <= j < i ==> !Classify(items[j]).Abort?
    ensures Run(acc, items) == Err(Classify(items[i]).error)
  {
    var prefix := items[..i + 1];
    assert prefix[..i] == items[..i];
    RunFails(acc, items[..i]);
    assert Run(acc, prefix) == Err(Classify(items[i]).error);
    RunFailedPrefix(acc, items, i + 1);
  }

  /** The alias table means the source's nested `get` calls: each field is
      taken from the capitalised key when that key is present, whatever its
      value, from the camel-case key when only that one is present, and
      otherwise defaults to `None`, `{}` and `0`. */
  lemma ClassifyByKeyPresence(fileId: string, index: nat, fields: map<string, Value>)
    ensures
      var id := if "FaceId" in fields then fields["FaceId"]
                else if "faceId" in fields then fields["faceId"] else Null;
      var box := if "BoundingBox" in fields then fields["BoundingBox"]
                 else if "boundingBox" in fields then fields["boundingBox"] else Obj(map[]);
      var confidence := if "Confidence" in fields then fields["Confidence"]
                        else if "confidence" in fields then fields["confidence"] else Int(0);
      Classify(Face(fileId, index, Obj(fields)))
      == if !(Truthy(id) && Truthy(box)) then Skip
         else if !id.Str? then Abort(FaceIdNotString(fileId, index))
         else Keep(FaceInfo(fileId, id.s, box, confidence))
  {
  }

  /** A present but falsy `FaceId` is final: `faceId` is never consulted and
      the entry is dropped. */
  lemma PresentFaceIdShadows(fileId: string, index: nat, fields: map<string, Value>)
    requires "FaceId" in fields && !Truthy(fields["FaceId"])
    ensures Classify(Face(fileId, index, Obj(fields))) == Skip
  {
  }

  /** An entry without a truthy id or without a truthy bounding box is
      skipped, whatever else it holds. */
  lemma IncompleteEntrySkipped(fileId: string, index: nat, fields: map<string, Value>)
    requires !Truthy(ResolvedId(fields)) || !Truthy(ResolvedBox(fields))
    ensures Classify(Face(fileId, index, Obj(fields))) == Skip
    ensures forall acc: FaceMap :: Apply(acc, Face(fileId, index, Obj(fields))) == Ok(acc)
  {
  }

  /** An accepted entry with neither confidence key gets confidence 0. */
  lemma ConfidenceDefaultsToZero(fileId: string, index: nat, fields: map<string, Value>)
    requires Classify(Face(fileId, index, Obj(fields))).Keep?
    requires "Confidence" !in fields && "confidence" !in fields
    ensures Classify(Face(fileId, index, Obj(fields))).info.confidence == Int(0)
  {
  }

  /** Every item a file id contributes is stamped with that file id. */
  lemma FileItemsOwnFile(store: Store, userId: string, fileId: string)
    ensures forall it :: it in FileItems(store, userId, fileId) ==> it.fileId == fileId
  {
  }

  /** Every item comes from one of the listed file ids. */
  lemma {:induction false} ItemsFromFileIds(store: Store, userId: string, fileIds: seq<string>)
    ensures forall it :: it in Items(store, userId, fileIds) ==> it.fileId in fileIds
    decreases |fileIds|
  {
    if fileIds != [] {
      var n := |fileIds| - 1;
      ItemsFromFileIds(store, userId, fileIds[..n]);
      FileItemsOwnFile(store, userId, fileIds[n]);
      assert forall f :: f in fileIds[..n] ==> f in fileIds;
    }
  }

  /** Every stored entry is the normalised entry of the last item that wrote
      its key: it sits under its own face id, which is non-empty, has a truthy
      bounding box, and names the file of that item, one of the listed files. */
  lemma StoredEntriesConsistent(store: Store, userId: string, fileIds: seq<string>, key: string)
    requires FaceDataMap(store, userId, fileIds).Ok?
    requires key in FaceDataMap(store, userId, fileIds).value
    ensures var info := FaceDataMap(store, userId, fileIds).value[key];
            info.faceId == key && key != "" && Truthy(info.boundingBox) && info.fileId in fileIds
    ensures var items := Items(store, userId, fileIds);
            exists l: nat :: l < |items| && Writes(items[l], key) && LastWriter(items, l, key)
                             && FaceDataMap(store, userId, fileIds).value[key] == Classify(items[l]).info
                             && Classify(items[l]).info.fileId == items[l].fileId
  {
    var items := Items(store, userId, fileIds);
    RunKeys(map[], items, key);
    var i :| 0 <= i < |items| && Writes(items[i], key);
    LastWriterExists(items, i, key);
    var l: nat :| i <= l < |items| && Writes(items[l], key) && LastWriter(items, l, key);
    RunLastWriter(map[], items, l, key);
    ItemsFromFileIds(store, userId, fileIds);
    assert items[l] in items;
  }

  /** File-list order: a file's entries are applied on top of the map built
      from the files before it. */
  lemma FileOrder(store: Store, userId: string, fileIds: seq<string>, fileId: string)
    ensures FaceDataMap(store, userId, fileIds + [fileId])
            == Then(FaceDataMap(store, userId, fileIds), FileItems(store, userId, fileId))
  {
    ItemsSnoc(store, userId, fileIds, fileId);
    RunAppend(map[], Items(store, userId, fileIds), FileItems(store, userId, fileId));
  }

  /** A later file's entry replaces an earlier file's entry with the same face id. */
  lemma LaterFileWins(store: Store, userId: string, fileIds: seq<string>, fileId: string, j: nat, key: string)
    requires FaceDataMap(store, userId, fileIds + [fileId]).Ok?
    requires j < |FileItems(store, userId, fileId)| && Writes(FileItems(store, userId, fileId)[j], key)
    ensures key in FaceDataMap(store, userId, fileIds + [fileId]).value
    ensures FaceDataMap(store, userId, fileIds + [fileId]).value[key].fileId == fileId
  {
    var before := Items(store, userId, fileIds);
    var own := FileItems(store, userId, fileId);
    var items := Items(store, userId, fileIds + [fileId]);
    ItemsSnoc(store, userId, fileIds, fileId);
    var p := |before| + j;
    assert items[p] == own[j];
    LastWriterExists(items, p, key);
    var l: nat :| p <= l < |items| && Writes(items[l], key) && LastWriter(items, l, key);
    RunLastWriter(map[], items, l, key);
    FileItemsOwnFile(store, userId, fileId);
    assert items[l] == own[l - |before|];
    assert own[l - |before|] in own;
  }

  /** First location wins: once the files collection holds the document, the
      user sub-collection is irrelevant, even when that document has no
      `extractedFaces`. */
  lemma FirstLocationWins(store: Store, userId: string, fileId: string, other: map<(string, string), Document>)
    requires fileId in store.files
    ensures FileItems(store, userId, fileId) == DocItems(fileId, store.files[fileId])
    ensures FileItems(Store(store.files, other), userId, fileId) == FileItems(store, userId, fileId)
    ensures ExtractedFaces !in store.files[fileId] ==> FileItems(store, userId, fileId) == []
  {
  }

  /** A file id found nowhere, or whose document has no or an empty
      `extractedFaces`, leaves the result exactly as if it were not listed. */
  lemma NoFacesContributeNothing(store: Store, userId: string, before: seq<string>, fileId: string, after: seq<string>)
    requires var doc := Locate(store, userId, fileId);
             doc.None? || ExtractedFaces !in doc.value || !Truthy(doc.value[ExtractedFaces])
    ensures FaceDataMap(store, userId, before + [fileId] + after) == FaceDataMap(store, userId, before + after)
  {
    ItemsAppend(store, userId, before + [fileId], after);
    ItemsAppend(store, userId, before, [fileId]);
    ItemsAppend(store, userId, before, after);
    assert [fileId][..0] == [];
    assert Items(store, userId, [fileId]) == [];
    assert Items(store, userId, before + [fileId]) == Items(store, userId, before);
  }
}
