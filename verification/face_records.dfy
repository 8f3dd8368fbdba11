/** The face-record extractor: for each file id in order, locate its document,
    normalise every entry of its `extractedFaces` array and keep the accepted
    ones in a map keyed by face id, the last write winning. */
module FaceRecords {
  import opened Values
  import opened Documents

  /** The accepted spellings of each logical field, most preferred first. */
  const FaceIdKeys: seq<string> := ["FaceId", "faceId"]
  const BoundingBoxKeys: seq<string> := ["BoundingBox", "boundingBox"]
  const ConfidenceKeys: seq<string> := ["Confidence", "confidence"]

  /** The array field of a document that holds its detected faces. */
  const ExtractedFaces: string := "extractedFaces"

  /** A normalised face entry: `{fileId, faceId, boundingBox, confidence}`. */
  datatype FaceInfo = FaceInfo(fileId: string, faceId: string, boundingBox: Value, confidence: Value)

  type FaceMap = map<string, FaceInfo>

  /** The assembled `{userId, faces, files}` object. */
  datatype Output = Output(userId: string, faces: FaceMap, files: seq<string>)

  /** The ways the source raises an exception, which ends the run before any
      output is assembled. */
  datatype Error =
    | FacesNotList(fileId: string)              // `extractedFaces` is truthy but not a list
    | FaceNotMapping(fileId: string, index: nat) // an array element has no `.get`
    | FaceIdNotString(fileId: string, index: nat) // a truthy id that cannot be hashed or sliced

  datatype Result<T> = Ok(value: T) | Err(error: Error)

  /** One unit of work in processing order: a face entry of a located
      document, or a document whose `extractedFaces` cannot be iterated as a
      list of entries. */
  datatype Item =
    | Face(fileId: string, index: nat, face: Value)
    | BadFaces(fileId: string)

  /** What one item does to the face map. */
  datatype Effect = Skip | Keep(info: FaceInfo) | Abort(error: Error)

  function ResolvedId(fields: map<string, Value>): Value {
    Resolve(fields, FaceIdKeys, Null)
  }

  function ResolvedBox(fields: map<string, Value>): Value {
    Resolve(fields, BoundingBoxKeys, Obj(map[]))
  }

  function ResolvedConfidence(fields: map<string, Value>): Value {
    Resolve(fields, ConfidenceKeys, Int(0))
  }

  /** The normalisation and filter applied to one item. */
  function Classify(item: Item): (e: Effect)
    ensures e.Keep? ==> item.Face? && e.info.fileId == item.fileId
                         && e.info.faceId != "" && Truthy(e.info.boundingBox)
  {
    match item
    case BadFaces(fileId) => Abort(FacesNotList(fileId))
    case Face(fileId, index, face) =>
      if !face.Obj? then Abort(FaceNotMapping(fileId, index))
      else
        var id := ResolvedId(face.fields);
        var box := ResolvedBox(face.fields);
        if !(Truthy(id) && Truthy(box)) then Skip
        else if !id.Str? then Abort(FaceIdNotString(fileId, index))
        else Keep(FaceInfo(fileId, id.s, box, ResolvedConfidence(face.fields)))
  }

  /** `face_data_map[face_id] = face_info`, or nothing, or an exception. */
  function Apply(faceMap: FaceMap, item: Item): Result<FaceMap> {
    match Classify(item)
    case Skip => Ok(faceMap)
    case Keep(info) => Ok(faceMap[info.faceId := info])
    case Abort(e) => Err(e)
  }

  /** Apply the items in order, stopping at the first exception. Defined on
      the last item so that it follows a loop over growing prefixes. */
  function Run(faceMap: FaceMap, items: seq<Item>): Result<FaceMap>
    decreases |items|
  {
    if items == [] then Ok(faceMap)
    else
      match Run(faceMap, items[..|items| - 1])
      case Err(e) => Err(e)
      case Ok(m) => Apply(m, items[|items| - 1])
  }

  /** Continue a run with more items, unless it already failed. */
  function Then(r: Result<FaceMap>, items: seq<Item>): Result<FaceMap> {
    match r
    case Err(e) => Err(e)
    case Ok(m) => Run(m, items)
  }

  /** The items of a face array, in array order. */
  function FaceItems(fileId: string, faces: seq<Value>): seq<Item> {
    seq(|faces|, j requires 0 <= j < |faces| => Face(fileId, j, faces[j]))
  }

  /** The items a found document contributes: none when `extractedFaces` is
      missing or falsy, its entries when it is a list, and a failure otherwise. */
  function DocItems(fileId: string, doc: Document): seq<Item> {
    if ExtractedFaces !in doc || !Truthy(doc[ExtractedFaces]) then []
    else if doc[ExtractedFaces].Arr? then FaceItems(fileId, doc[ExtractedFaces].items)
    else [BadFaces(fileId)]
  }

  /** The items one file id contributes. */
  function FileItems(store: Store, userId: string, fileId: string): seq<Item> {
    match Locate(store, userId, fileId)
    case None => []
    case Some(doc) => DocItems(fileId, doc)
  }

  /** The items of each file id in turn. */
  function Concat(fileIds: seq<string>, itemsOf: string -> seq<Item>): seq<Item>
    decreases |fileIds|
  {
    if fileIds == [] then []
    else Concat(fileIds[..|fileIds| - 1], itemsOf) + itemsOf(fileIds[|fileIds| - 1])
  }

  function FileItemsOf(store: Store, userId: string): string -> seq<Item> {
    fileId => FileItems(store, userId, fileId)
  }

  /** The items of all file ids, file-list order first, then array order. */
  function Items(store: Store, userId: string, fileIds: seq<string>): seq<Item> {
    Concat(fileIds, FileItemsOf(store, userId))
  }

  /** The map the source returns. */
  function FaceDataMap(store: Store, userId: string, fileIds: seq<string>): Result<FaceMap> {
    Run(map[], Items(store, userId, fileIds))
  }

  /** The output object the source assembles from that map. */
  function Extract(store: Store, userId: string, fileIds: seq<string>): Result<Output> {
    match FaceDataMap(store, userId, fileIds)
    case Err(e) => Err(e)
    case Ok(m) => Ok(Output(userId, m, fileIds))
  }

  /** Running two item sequences one after the other is running their
      concatenation. */
  lemma {:induction false} RunAppend(faceMap: FaceMap, first: seq<Item>, second: seq<Item>)
    ensures Run(faceMap, first + second) == Then(Run(faceMap, first), second)
    decreases |second|
  {
    if second == [] {
      assert first + second == first;
    } else {
      var n := |second| - 1;
      assert (first + second)[..|first + second| - 1] == first + second[..n];
      assert (first + second)[|first + second| - 1] == second[n];
      RunAppend(faceMap, first, second[..n]);
    }
  }

  /** A run that failed on a prefix fails with the same error on the whole. */
  lemma RunFailedPrefix(faceMap: FaceMap, items: seq<Item>, k: nat)
    requires k <= |items| && Run(faceMap, items[..k]).Err?
    ensures Run(faceMap, items) == Run(faceMap, items[..k])
  {
    RunAppend(faceMap, items[..k], items[k..]);
    assert items[..k] + items[k..] == items;
  }

  /** The items of a concatenated file list are the concatenated items. */
  lemma {:induction false} ConcatAppend(first: seq<string>, second: seq<string>, itemsOf: string -> seq<Item>)
    ensures Concat(first + second, itemsOf) == Concat(first, itemsOf) + Concat(second, itemsOf)
    decreases |second|
  {
    if second == [] {
      assert first + second == first;
    } else {
      var n := |second| - 1;
      var whole := first + second;
      assert whole[..|whole| - 1] == first + second[..n];
      assert whole[|whole| - 1] == second[n];
      ConcatAppend(first, second[..n], itemsOf);
    }
  }

  lemma ItemsAppend(store: Store, userId: string, first: seq<string>, second: seq<string>)
    ensures Items(store, userId, first + second) == Items(store, userId, first) + Items(store, userId, second)
  {
    ConcatAppend(first, second, FileItemsOf(store, userId));
  }

  /** The items of one more file id. */
  lemma ItemsSnoc(store: Store, userId: string, fileIds: seq<string>, fileId: string)
    ensures Items(store, userId, fileIds + [fileId]) == Items(store, userId, fileIds) + FileItems(store, userId, fileId)
  {
  }

  /** The per-face loop over one document's `extractedFaces` array. */
  method ScanFaces(faceDataMap: FaceMap, fileId: string, faces: seq<Value>) returns (r: Result<FaceMap>)
    ensures r == Run(faceDataMap, FaceItems(fileId, faces))
  {
    var current := faceDataMap;
    ghost var items := FaceItems(fileId, faces);
    var j := 0;
    while j < |faces|
      invariant 0 <= j <= |faces|
      invariant Run(faceDataMap, items[..j]) == Ok(current)
    {
      assert items[..j + 1][..j] == items[..j];
      var face := faces[j];
      if !face.Obj? {
        RunFailedPrefix(faceDataMap, items, j + 1);
        return Err(FaceNotMapping(fileId, j));
      }
      var faceId := Resolve(face.fields, FaceIdKeys, Null);
      var boundingBox := Resolve(face.fields, BoundingBoxKeys, Obj(map[]));
      if Truthy(faceId) && Truthy(boundingBox) {
        if !faceId.Str? {
          RunFailedPrefix(faceDataMap, items, j + 1);
          return Err(FaceIdNotString(fileId, j));
        }
        var faceInfo := FaceInfo(fileId, faceId.s, boundingBox, Resolve(face.fields, ConfidenceKeys, Int(0)));
        current := current[faceId.s := faceInfo];
      }
      j := j + 1;
    }
    assert items[..j] == items;
    r := Ok(current);
  }

  /** Processing one more file id continues the run with that file's items. */
  lemma PrefixStep(store: Store, userId: string, fileIds: seq<string>, i: nat, faceMap: FaceMap)
    requires i < |fileIds| && Run(map[], Items(store, userId, fileIds[..i])) == Ok(faceMap)
    ensures Run(map[], Items(store, userId, fileIds[..i + 1]))
            == Run(faceMap, FileItems(store, userId, fileIds[i]))
  {
    assert fileIds[..i + 1] == fileIds[..i] + [fileIds[i]];
    ItemsSnoc(store, userId, fileIds[..i], fileIds[i]);
    RunAppend(map[], Items(store, userId, fileIds[..i]), FileItems(store, userId, fileIds[i]));
  }

  /** A run that failed on the first k file ids fails the same way on all of them. */
  lemma PrefixFails(store: Store, userId: string, fileIds: seq<string>, k: nat)
    requires k <= |fileIds| && Run(map[], Items(store, userId, fileIds[..k])).Err?
    ensures FaceDataMap(store, userId, fileIds) == Run(map[], Items(store, userId, fileIds[..k]))
  {
    ItemsAppend(store, userId, fileIds[..k], fileIds[k..]);
    assert fileIds[..k] + fileIds[k..] == fileIds;
    RunAppend(map[], Items(store, userId, fileIds[..k]), Items(store, userId, fileIds[k..]));
  }

  /** One iteration of the loop over file ids: probe the locations, then scan
      the faces of the document found, if it has any. */
  method ProcessFile(faceDataMap: FaceMap, store: Store, userId: string, fileId: string)
    returns (r: Result<FaceMap>)
    ensures r == Run(faceDataMap, FileItems(store, userId, fileId))
  {
    ghost var probed;
    var doc, found;
    doc, found, probed := LocateDocument(store, userId, fileId);
    if !found {
      return Ok(faceDataMap);
    }
    var docData := doc.value;
    if ExtractedFaces !in docData {
      return Ok(faceDataMap);
    }
    var faces := docData[ExtractedFaces];
    if !Truthy(faces) {
      return Ok(faceDataMap);
    }
    if !faces.Arr? {
      assert [BadFaces(fileId)][..0] == [];
      return Err(FacesNotList(fileId));
    }
    r := ScanFaces(faceDataMap, fileId, faces.items);
  }

  /** `fetch_face_data_for_ui` with the user id, the file ids and the two
      stores as parameters: process each file id in order and assemble the
      output. `returned` is the function's return value; `output` is the
      object it would write out. */
  method FetchFaceDataForUi(store: Store, userId: string, fileIds: seq<string>)
    returns (output: Result<Output>, returned: Result<FaceMap>)
    ensures output == Extract(store, userId, fileIds)
    ensures returned == FaceDataMap(store, userId, fileIds)
    ensures output.Ok? <==> returned.Ok?
    ensures output.Ok? ==> output.value.userId == userId && output.value.files == fileIds
                           && output.value.faces == returned.value
  {
    var faceDataMap: FaceMap := map[];
    var i := 0;
    while i < |fileIds|
      invariant 0 <= i <= |fileIds|
      invariant Run(map[], Items(store, userId, fileIds[..i])) == Ok(faceDataMap)
    {
      PrefixStep(store, userId, fileIds, i, faceDataMap);
      var processed := ProcessFile(faceDataMap, store, userId, fileIds[i]);
      if processed.Err? {
        PrefixFails(store, userId, fileIds, i + 1);
        output, returned := Err(processed.error), Err(processed.error);
        return;
      }
      faceDataMap := processed.value;
      i := i + 1;
    }
    assert fileIds[..i] == fileIds;
    output := Ok(Output(userId, faceDataMap, fileIds));
    returned := Ok(faceDataMap);
  }
}
