# Face-record extractor, modelled in Dafny

This project models `fetch_face_data_for_ui`, the face-record extractor of
FaceManagerService. The extractor takes a user id and an ordered list of file
ids. For each file id it looks for the file's document first in the top-level
`files` collection and then in the user's `users/{userId}/files`
sub-collection, and it uses the first document that exists. It reads that
document's `extractedFaces` array. Each entry's field names are normalised
(`FaceId`/`faceId`, `BoundingBox`/`boundingBox`, `Confidence`/`confidence`),
entries without a usable id or bounding box are dropped, and the rest go into
a map keyed by face id, so the last write wins. At the end it assembles
`{userId, faces, files}` and returns the map.

Layout:

- `values.dfy` (module `Values`): field values as the store returns them, with
  Python truthiness (`Truthy`) and `dict.get` with a default (`Resolve`, over
  an ordered list of key aliases).
- `documents.dfy` (module `Documents`): the two stores as maps, one
  `doc_ref.get()` (`Fetch`), and the location probe with its early `break`
  (`LocateDocument`).
- `face_records.dfy` (module `FaceRecords`): the normalisation and filter of
  one entry (`Classify`), and the specification of the whole run. The run is
  flattened into a sequence of items in processing order, file-list order first
  and array order second (`Items`). It is then folded with `Run`, which stops
  at the first exception. The module also holds the imperative code proved
  equal to that specification: `ScanFaces` for the loop over faces,
  `ProcessFile` for the body of the loop over files, and
  `FetchFaceDataForUi` for that loop and the output.
- `face_properties.dfy` (module `FaceProperties`): what the result promises,
  as lemmas. It covers last write wins, the exact key set, untouched keys,
  error paths, alias resolution by key presence, default confidence,
  consistency of stored entries, file order, first location wins, and that
  ids with nothing to contribute leave the result alone.
- `scenarios.dfy` (module `FaceScenarios`): the extractor's result on four small stores, proved.

The source raises an exception in some cases. The run then ends before any
output is built. The model returns `Err` in exactly these cases:

- `extractedFaces` is truthy but not a list (`len()` fails, or iteration
  yields strings that have no `.get`): `FacesNotList`.
- An array element is not a mapping (no `.get`): `FaceNotMapping`.
- An entry's resolved id and box are both truthy but the id is not a string.
  Lists and maps cannot be dict keys at line 74. Numbers and booleans cannot
  be sliced by `face_id[:20]` at line 77. Either way the result is
  `FaceIdNotString`.

So every key the model stores is a non-empty string.

## Model

| member | source | states |
|---|---|---|
| `Values.ResolveFirstPresent` | fetch_real_face_data.py:61-71 | the value under the first alias present as a key, whatever that value is (even falsy); the default only when no alias is present |
| `Values.ResolveTwo` | fetch_real_face_data.py:61-71 | two-alias resolution is exactly the nested `get(first, get(second, default))` |
| `Documents.Fetch` | fetch_real_face_data.py:41-49 | a location yields a document exactly when the files map, or the user sub-collection map under (user id, file id), has that key |
| `Documents.LocateDocument` | fetch_real_face_data.py:40-50 | the probe returns the document of the first location where it exists; `doc_found` is set exactly when one is found; only the files collection is read when it holds the document, otherwise both are read, in order |
| `FaceRecords.Classify` | fetch_real_face_data.py:60-74 | a kept entry comes from a face item, carries that item's file id, and has a non-empty face id and a truthy bounding box |
| `FaceRecords.ScanFaces` | fetch_real_face_data.py:60-74 | the per-face loop yields exactly the fold of the specification over the array's entries in order, including its first exception |
| `FaceRecords.ProcessFile` | fetch_real_face_data.py:40-82 | one iteration of the loop over file ids yields exactly the fold of the specification over the items of the document found, and leaves the map unchanged when none is found or it has no faces |
| `FaceRecords.FetchFaceDataForUi` | fetch_real_face_data.py:16-101 | the method equals the specification; it succeeds exactly when the specification does; then `userId` is the given id, `files` is the input list unchanged (order and duplicates), and `faces` is the returned map |
| `FaceProperties.RunKeys` | fetch_real_face_data.py:66-74 | a successful run holds exactly the keys it started with plus the keys some kept entry wrote |
| `FaceProperties.RunLastWriter` | fetch_real_face_data.py:36-74 | last write wins: under a written key the run holds the entry of the last item, in processing order, that wrote it |
| `FaceProperties.RunUntouched` | fetch_real_face_data.py:66-74 | a key no item writes keeps its earlier entry; line 74 is the only write |
| `FaceProperties.RunFails` | fetch_real_face_data.py:55-77 | a run raises exactly when some item in it aborts |
| `FaceProperties.RunFirstError` | fetch_real_face_data.py:36-77 | the error raised is that of the first aborting item, whatever the map held before |
| `FaceProperties.ClassifyByKeyPresence` | fetch_real_face_data.py:61-71 | per entry: id, box and confidence come from the capitalised key if present, else the camel-case key, else `None`, `{}` and `0`; the entry is skipped unless id and box are truthy, aborts on a non-string id, and is otherwise kept as `{fileId, faceId, boundingBox, confidence}` |
| `FaceProperties.PresentFaceIdShadows` | fetch_real_face_data.py:61-66 | a present but falsy `FaceId` drops the entry, whatever `faceId` holds |
| `FaceProperties.IncompleteEntrySkipped` | fetch_real_face_data.py:61-66 | an entry without a truthy id or a truthy box leaves any map unchanged |
| `FaceProperties.ConfidenceDefaultsToZero` | fetch_real_face_data.py:71 | a kept entry with neither confidence key has confidence `0` |
| `FaceProperties.StoredEntriesConsistent` | fetch_real_face_data.py:66-74 | every stored entry is the normalised entry of the last item that wrote its key, so it has `faceId` equal to its key, a non-empty key, a truthy box, and the `fileId` of that item, one of the input list |
| `FaceProperties.FileOrder` | fetch_real_face_data.py:36 | a file's entries are applied on top of the map built from the files listed before it |
| `FaceProperties.LaterFileWins` | fetch_real_face_data.py:36-74 | when the last listed file writes a face id, the final entry under it names that file |
| `FaceProperties.FirstLocationWins` | fetch_real_face_data.py:40-82 | once the files collection holds the document, the user sub-collection does not matter, even when that document has no `extractedFaces` |
| `FaceProperties.NoFacesContributeNothing` | fetch_real_face_data.py:45-85 | an id found nowhere, or whose document has no or a falsy `extractedFaces`, leaves the map exactly as if it were not listed |
| `FaceScenarios.OneFoundOneMissing` | fetch_real_face_data.py:36-92 | one face in the files collection and one id found nowhere: the face is kept and `files` lists both ids |
| `FaceScenarios.EmptyBoxExcluded` | fetch_real_face_data.py:61-66 | an entry with a `faceId` but an empty `boundingBox`, found in the user sub-collection, is excluded |
| `FaceScenarios.SameFaceInTwoFiles` | fetch_real_face_data.py:36-74 | the same face id in two files: the later file's entry and confidence are kept |
| `FaceScenarios.FacesNotAListAborts` | fetch_real_face_data.py:55-60 | a non-empty string as `extractedFaces` raises, so no output is built |

## Left out

- Firebase initialisation and the process-wide `_apps` guard (lines 12-14): credential and SDK set-up, outside the logic.
- The Firestore client (lines 20, 41-47): replaced by two given maps, the `files` collection keyed by file id and the user sub-collections keyed by (user id, file id).
- Writing the output as indented JSON (lines 94-96): I/O. The model stops at the assembled output value and the returned map; a failing write is not modelled.
- Console tracing (lines 22-23, 37, 51, 58, 76-79, 81, 85, 98-99): not part of the result. One exception: the slice `face_id[:20]` at line 77 raises for a numeric or boolean id, and that exception is modelled as `FaceIdNotString`.
- Hard-coded user id, file ids and output path (lines 19, 26-32, 94): parameters instead.
- The meaning of bounding-box contents and confidences: kept as opaque values. Only truthiness and key presence matter.
- Firestore value kinds beyond null, booleans, integers, doubles, strings, arrays and maps (timestamps, geo points, references, bytes), and NaN doubles: not in `Values.Value`.
- Key order of `face_data_map` (first-insertion order, kept across overwrites at line 74) is not modelled; `faces` is an unordered map, so the order in which the returned dict and the `faces` object list their keys is not captured.
- Exception messages: errors carry the file id and the entry index, not Python's message text.
- `FaceRecords.ProcessFile`: the source scans the faces inside the location loop and then breaks. The model probes first (`LocateDocument`) and scans afterwards. This is equivalent because the `break` follows the scan directly.

Two behaviours of the code worth noting:

- The bounding box is tested for Python truthiness (line 66), so a non-empty string or a non-zero number is accepted as a box.
- A truthy non-list `extractedFaces`, a non-mapping entry, or a truthy non-string id whose box is also truthy raises (lines 57-77); it is not skipped.
