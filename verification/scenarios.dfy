/** The extractor's result on small stores, proved for each. */
module FaceScenarios {
  import opened Values
  import opened Documents
  import opened FaceRecords
  import opened FaceProperties

  const Box: Value := Obj(map["Width" := Float(0.1), "Height" := Float(0.2)])

  lemma ItemsOfOne(store: Store, userId: string, a: string)
    ensures Items(store, userId, [a]) == FileItems(store, userId, a)
  {
    ItemsSnoc(store, userId, [], a);
    assert [] + [a] == [a];
  }

  lemma ItemsOfTwo(store: Store, userId: string, a: string, b: string)
    ensures Items(store, userId, [a, b]) == FileItems(store, userId, a) + FileItems(store, userId, b)
  {
    ItemsOfOne(store, userId, a);
    ItemsSnoc(store, userId, [a], b);
    assert [a] + [b] == [a, b];
  }

  lemma BoxIsTruthy()
    ensures Truthy(Box)
  {
    assert "Width" in Box.fields;
  }

  /** One face found in the files collection, one id found nowhere: the face
      is kept and `files` still lists both ids. */
  lemma OneFoundOneMissing()
    ensures
      var face := Obj(map["FaceId" := Str("f1"), "BoundingBox" := Box, "Confidence" := Float(98.2)]);
      var store := Store(map["A" := map[ExtractedFaces := Arr([face])]], map[]);
      Extract(store, "u", ["A", "B"])
      == Ok(Output("u", map["f1" := FaceInfo("A", "f1", Box, Float(98.2))], ["A", "B"]))
  {
    var face := Obj(map["FaceId" := Str("f1"), "BoundingBox" := Box, "Confidence" := Float(98.2)]);
    var store := Store(map["A" := map[ExtractedFaces := Arr([face])]], map[]);
    var items := FaceItems("A", [face]);
    ClassifyByKeyPresence("A", 0, face.fields);
    BoxIsTruthy();
    assert Classify(items[0]) == Keep(FaceInfo("A", "f1", Box, Float(98.2)));
    assert items[..0] == [];
    assert Run(map[], items) == Ok(map["f1" := FaceInfo("A", "f1", Box, Float(98.2))]);
    ItemsOfTwo(store, "u", "A", "B");
  }

  /** An entry with an id but an empty bounding box is left out. */
  lemma EmptyBoxExcluded()
    ensures
      var face := Obj(map["faceId" := Str("f2"), "boundingBox" := Obj(map[])]);
      var store := Store(map[], map[("u", "A") := map[ExtractedFaces := Arr([face])]]);
      Extract(store, "u", ["A"]) == Ok(Output("u", map[], ["A"]))
  {
    var face := Obj(map["faceId" := Str("f2"), "boundingBox" := Obj(map[])]);
    var store := Store(map[], map[("u", "A") := map[ExtractedFaces := Arr([face])]]);
    var items := FaceItems("A", [face]);
    ClassifyByKeyPresence("A", 0, face.fields);
    assert Classify(items[0]) == Skip;
    assert items[..0] == [];
    assert Run(map[], items) == Ok(map[]);
    ItemsOfOne(store, "u", "A");
  }

  /** The same face id in two files: the later file's entry is kept. */
  lemma SameFaceInTwoFiles()
    ensures
      var inA := Obj(map["FaceId" := Str("f"), "BoundingBox" := Box, "Confidence" := Int(90)]);
      var inB := Obj(map["FaceId" := Str("f"), "BoundingBox" := Box, "Confidence" := Int(95)]);
      var store := Store(map["A" := map[ExtractedFaces := Arr([inA])],
                             "B" := map[ExtractedFaces := Arr([inB])]], map[]);
      Extract(store, "u", ["A", "B"])
      == Ok(Output("u", map["f" := FaceInfo("B", "f", Box, Int(95))], ["A", "B"]))
  {
    var inA := Obj(map["FaceId" := Str("f"), "BoundingBox" := Box, "Confidence" := Int(90)]);
    var inB := Obj(map["FaceId" := Str("f"), "BoundingBox" := Box, "Confidence" := Int(95)]);
    var store := Store(map["A" := map[ExtractedFaces := Arr([inA])],
                           "B" := map[ExtractedFaces := Arr([inB])]], map[]);
    var items := FaceItems("A", [inA]) + FaceItems("B", [inB]);
    ClassifyByKeyPresence("A", 0, inA.fields);
    ClassifyByKeyPresence("B", 0, inB.fields);
    BoxIsTruthy();
    assert Classify(items[0]) == Keep(FaceInfo("A", "f", Box, Int(90)));
    assert Classify(items[1]) == Keep(FaceInfo("B", "f", Box, Int(95)));
    assert items[..1][..0] == [];
    assert Run(map[], items[..1]) == Ok(map["f" := FaceInfo("A", "f", Box, Int(90))]);
    assert |items| == 2 && items[..|items| - 1] == items[..1];
    assert map["f" := FaceInfo("A", "f", Box, Int(90))]["f" := FaceInfo("B", "f", Box, Int(95))]
           == map["f" := FaceInfo("B", "f", Box, Int(95))];
    assert Run(map[], items) == Ok(map["f" := FaceInfo("B", "f", Box, Int(95))]);
    ItemsOfTwo(store, "u", "A", "B");
    assert FileItems(store, "u", "A") == FaceItems("A", [inA]);
    assert FileItems(store, "u", "B") == FaceItems("B", [inB]);
  }

  /** A document whose `extractedFaces` is a non-empty string ends the run
      with an exception, so no output is assembled. */
  lemma FacesNotAListAborts()
    ensures
      var store := Store(map["A" := map[ExtractedFaces := Str("f1")]], map[]);
      Extract(store, "u", ["A", "B"]) == Err(FacesNotList("A"))
  {
    var store := Store(map["A" := map[ExtractedFaces := Str("f1")]], map[]);
    ItemsOfTwo(store, "u", "A", "B");
    assert [BadFaces("A")][..0] == [];
    assert Run(map[], [BadFaces("A")]) == Err(FacesNotList("A"));
  }
}
