/** The two places a file's document may live, with the remote reads replaced
    by lookups in two given maps, and the probe that tries them in order. */
module Documents {
  import opened Values

  /** A document's fields, as `to_dict()` returns them. */
  type Document = map<string, Value>

  /** The top-level `files` collection, keyed by file id, and the per-user
      `users/{userId}/files` sub-collections, keyed by (user id, file id). */
  datatype Store = Store(files: map<string, Document>, userFiles: map<(string, string), Document>)

  datatype Location = FilesCollection | UserSubcollection

  /** The locations to check, in the order they are checked. */
  const LocationsToCheck: seq<Location> := [FilesCollection, UserSubcollection]

  /** One `doc_ref.get()`: the document at that location, if it exists. */
  function Fetch(store: Store, location: Location, userId: string, fileId: string): (doc: Option<Document>)
    ensures location == FilesCollection ==> (doc.Some? <==> fileId in store.files)
    ensures location == UserSubcollection ==> (doc.Some? <==> (userId, fileId) in store.userFiles)
  {
    match location
    case FilesCollection =>
      if fileId in store.files then Some(store.files[fileId]) else None
    case UserSubcollection =>
      if (userId, fileId) in store.userFiles then Some(store.userFiles[(userId, fileId)]) else None
  }

  /** The document the probe settles on: the first location in which it exists. */
  function Locate(store: Store, userId: string, fileId: string): Option<Document> {
    if fileId in store.files then Some(store.files[fileId])
    else if (userId, fileId) in store.userFiles then Some(store.userFiles[(userId, fileId)])
    else None
  }

  /** The location probe: fetch each location in turn and stop at the first
      document that exists. `found` is the source's `doc_found` flag and
      `probed` records which locations were read. */
  method LocateDocument(store: Store, userId: string, fileId: string)
    returns (doc: Option<Document>, found: bool, ghost probed: seq<Location>)
    ensures doc == Locate(store, userId, fileId)
    ensures found <==> doc.Some?
    ensures probed == if fileId in store.files then [FilesCollection]
                      else [FilesCollection, UserSubcollection]
  {
    doc, found, probed := None, false, [];
    assert LocationsToCheck[0] == FilesCollection && LocationsToCheck[1] == UserSubcollection;
    var k := 0;
    while k < |LocationsToCheck|
      invariant 0 <= k <= |LocationsToCheck|
      invariant probed == LocationsToCheck[..k]
      invariant !found && doc == None
      invariant k >= 1 ==> fileId !in store.files
      invariant forall j :: 0 <= j < k ==> Fetch(store, LocationsToCheck[j], userId, fileId) == None
    {
      var location := LocationsToCheck[k];
      var fetched := Fetch(store, location, userId, fileId);
      probed := probed + [location];
      if fetched.Some? {
        found := true;
        doc := fetched;
        break;
      }
      k := k + 1;
    }
    assert !found ==> probed == LocationsToCheck;
  }
}
