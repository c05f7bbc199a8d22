/**
 * The data side of the training service (training_service/utils/data_loader.py):
 * the per-image filter, the course data load with its dense label encoding,
 * and the version rule of the face-model registry.
 *
 * Requests go through the client of `TrainingApi`; the server's answers and
 * the face preprocessor are parameters.
 */
module TrainingData {
  import opened Wrappers
  import opened Text
  import opened TrainingApi

  /** The origin the API prefixes to stored file paths; it is cut out before reading the file. */
  const AppOrigin: string := "http://app:8000"

  /**
   * One training-image record. `filePath` is `None` when the key is missing
   * or null, `member` likewise.
   */
  datatype ImageRecord = ImageRecord(filePath: Option<string>, member: Option<int>)

  /** The body of the training-image listing: a bare list, or a page whose `results` may be missing. */
  datatype ImagePayload =
    | ImageList(items: seq<ImageRecord>)
    | ImagePage(results: Option<seq<ImageRecord>>)

  datatype LoaderError =
    | NoToken                 // the `ValueError` raised before any request
    | MissingFilePath         // the `KeyError`/`AttributeError` of the path-cleaning loop

  /** The records `load_course_data` walks; a falsy or failed answer gives none. */
  function ImagesOf(answer: Option<ImagePayload>): (r: seq<ImageRecord>)
    ensures answer.Some? && answer.value.ImageList? ==> r == answer.value.items
    ensures answer.Some? && answer.value.ImagePage? && answer.value.results.Some? ==> r == answer.value.results.value
    ensures r != [] ==> answer.Some? && (answer.value.ImageList? || answer.value.results.Some?)
  {
    match answer
    case None => []
    case Some(ImageList(items)) => items
    case Some(ImagePage(results)) => results.GetOr([])
  }

  /** `os.path.join('.', p)`: an absolute `p` replaces the dot. */
  function JoinDot(p: string): (r: string)
    ensures EndsWith(r, p)
    ensures r == p <==> StartsWith(p, "/")
  {
    if StartsWith(p, "/") then p
    else
      assert ("./" + p)[|"./" + p| - |p|..] == p;
      "./" + p
  }

  /**
   * `_process_image(image_data)`: a face and its member id, or nothing. A
   * missing or empty path, a missing or zero member, and a preprocessor that
   * gives `None` or raises (both `None` in `preprocess`) all give nothing.
   */
  function ProcessImage<Face>(record: ImageRecord, preprocess: string -> Option<Face>): (r: Option<(Face, int)>)
    ensures r.Some? <==>
      record.filePath.Some? && record.filePath.value != ""
      && record.member.Some? && record.member.value != 0
      && preprocess(JoinDot(record.filePath.value)).Some?
    ensures r.Some? ==>
      r.value.1 == record.member.value && Some(r.value.0) == preprocess(JoinDot(record.filePath.value))
  {
    if record.filePath.None? || record.filePath.value == "" || record.member.None? || record.member.value == 0
    then None
    else
      match preprocess(JoinDot(record.filePath.value))
      case None => None
      case Some(face) => Some((face, record.member.value))
  }

  /** `path.replace('http://app:8000', '')`: never longer, and a path without the origin is left as it is. */
  function CleanPath(path: string): (r: string)
    ensures |r| <= |path|
    ensures !Occurs(path, AppOrigin) ==> r == path
  {
    CleanPathKeepsPlainPaths(path);
    RemoveAll(path, AppOrigin)
  }

  lemma CleanPathKeepsPlainPaths(path: string)
    ensures !Occurs(path, AppOrigin) ==> RemoveAll(path, AppOrigin) == path
  {
    if !Occurs(path, AppOrigin) {
      RemoveAllAbsent(path, AppOrigin);
    }
  }

  /** A URL the API serves, `http://app:8000` followed by a path without it, cleans to that path. */
  lemma CleanPathOfServedUrl(path: string)
    requires !Occurs(path, AppOrigin)
    ensures CleanPath(AppOrigin + path) == path
  {
    RemoveAllLeading(AppOrigin, path);
    RemoveAllAbsent(path, AppOrigin);
  }

  /**
   * The records after the cleaning loop, or `None` when one of them has no
   * path, which makes the loop raise.
   */
  function Cleaned(records: seq<ImageRecord>): (r: Option<seq<ImageRecord>>)
    ensures r.Some? <==> forall i :: 0 <= i < |records| ==> records[i].filePath.Some?
    ensures r.Some? ==> |r.value| == |records|
    ensures r.Some? ==> forall i :: 0 <= i < |records| ==>
      r.value[i] == records[i].(filePath := Some(CleanPath(records[i].filePath.value)))
  {
    if records == [] then Some([])
    else if records[0].filePath.None? then None
    else
      match Cleaned(records[1..])
      case None => None
      case Some(rest) =>
        Some([records[0].(filePath := Some(CleanPath(records[0].filePath.value)))] + rest)
  }

  /** One more record with a path, cleaned and appended. */
  lemma CleanedAppend(records: seq<ImageRecord>, rec: ImageRecord)
    requires Cleaned(records).Some? && rec.filePath.Some?
    ensures Cleaned(records + [rec]) == Some(Cleaned(records).value + [rec.(filePath := Some(CleanPath(rec.filePath.value)))])
  {
    var all := records + [rec];
    var before := Cleaned(records).value;
    var last := rec.(filePath := Some(CleanPath(rec.filePath.value)));
    assert forall i :: 0 <= i < |records| ==> all[i] == records[i];
    assert all[|records|] == rec;
    assert forall i :: 0 <= i < |all| ==> all[i].filePath.Some?;
    var after := Cleaned(all).value;
    assert |after| == |all|;
    forall i | 0 <= i < |all|
      ensures after[i] == (before + [last])[i]
    {
      if i < |records| {
        assert after[i] == records[i].(filePath := Some(CleanPath(records[i].filePath.value)));
      }
    }
    assert after == before + [last];
  }

  /** The faces and ids the collecting loop keeps, in record order. */
  function Kept<Face>(records: seq<ImageRecord>, preprocess: string -> Option<Face>): (r: seq<(Face, int)>)
    ensures |r| <= |records|
    ensures forall i :: 0 <= i < |r| ==> r[i].1 != 0
    ensures forall k :: 0 <= k < |records| && ProcessImage(records[k], preprocess).Some? ==>
      ProcessImage(records[k], preprocess).value in r
    ensures forall sample :: sample in r ==>
      exists k :: 0 <= k < |records| && ProcessImage(records[k], preprocess) == Some(sample)
  {
    if records == [] then []
    else
      var rest := Kept(records[1..], preprocess);
      assert forall rec :: rec in records[1..] ==> rec in records;
      match ProcessImage(records[0], preprocess)
      case None => rest
      case Some(sample) => [sample] + rest
  }

  /**
   * The collecting loop seen one record at a time: a record adds its sample
   * at the end when it yields one, and nothing otherwise. With `Kept([]) == []`
   * this fixes the order and multiplicity of the kept samples.
   */
  lemma {:induction false} KeptAppend<Face>(records: seq<ImageRecord>, rec: ImageRecord, preprocess: string -> Option<Face>)
    ensures Kept(records + [rec], preprocess) ==
      Kept(records, preprocess) + (if ProcessImage(rec, preprocess).Some? then [ProcessImage(rec, preprocess).value] else [])
  {
    if records == [] {
      assert [] + [rec] == [rec];
      assert [rec][1..] == [];
    } else {
      assert (records + [rec])[1..] == records[1..] + [rec];
      KeptAppend(records[1..], rec, preprocess);
    }
  }

  /** The samples a listing answer yields, or `None` when cleaning its paths raises. */
  function KeptSamples<Face>(answer: Option<ImagePayload>, preprocess: string -> Option<Face>): (r: Option<seq<(Face, int)>>)
    ensures r.None? <==> exists i :: 0 <= i < |ImagesOf(answer)| && ImagesOf(answer)[i].filePath.None?
    ensures r.Some? ==> |r.value| <= |ImagesOf(answer)|
    ensures r.Some? ==> forall i :: 0 <= i < |r.value| ==> r.value[i].1 != 0
  {
    match Cleaned(ImagesOf(answer))
    case None => None
    case Some(records) => Some(Kept(records, preprocess))
  }

  function Ids<Face>(samples: seq<(Face, int)>): (r: seq<int>)
    ensures |r| == |samples| && forall i :: 0 <= i < |r| ==> r[i] == samples[i].1
  {
    if samples == [] then [] else [samples[0].1] + Ids(samples[1..])
  }

  lemma IdsAppend<Face>(samples: seq<(Face, int)>, sample: (Face, int))
    ensures Ids(samples + [sample]) == Ids(samples) + [sample.1]
  {
    assert forall i :: 0 <= i < |samples| ==> (samples + [sample])[i] == samples[i];
  }

  /**
   * `label_map`: the distinct ids, each sent to its own index in `0 .. n-1`.
   * Which id gets which index follows the iteration order of a Python set,
   * so any such bijection is accepted.
   */
  ghost predicate DenseEncoding(labelMap: map<int, int>, ids: seq<int>) {
    && labelMap.Keys == (set id | id in ids)
    && (forall id :: id in labelMap ==> 0 <= labelMap[id] < |labelMap|)
    && (forall a, b :: a in labelMap && b in labelMap && a != b ==> labelMap[a] != labelMap[b])
  }

  /** `inverse_label_map` undoes `label_map` in both directions. */
  ghost predicate InverseOf(inverse: map<int, int>, labelMap: map<int, int>) {
    && (forall id :: id in labelMap ==> labelMap[id] in inverse && inverse[labelMap[id]] == id)
    && (forall k :: k in inverse ==> inverse[k] in labelMap && labelMap[inverse[k]] == k)
  }

  /** `[label_map[label] for label in y]`. */
  function Encode(labelMap: map<int, int>, ids: seq<int>): (codes: seq<int>)
    requires forall i :: 0 <= i < |ids| ==> ids[i] in labelMap
    ensures |codes| == |ids|
  {
    if ids == [] then [] else [labelMap[ids[0]]] + Encode(labelMap, ids[1..])
  }

  /** Encoding one more id appends its index: the encoding is position by position. */
  lemma {:induction false} EncodeAppend(labelMap: map<int, int>, ids: seq<int>, id: int)
    requires forall i :: 0 <= i < |ids| ==> ids[i] in labelMap
    requires id in labelMap
    ensures Encode(labelMap, ids + [id]) == Encode(labelMap, ids) + [labelMap[id]]
  {
    if ids == [] {
      assert [] + [id] == [id];
      assert [id][1..] == [];
    } else {
      assert (ids + [id])[1..] == ids[1..] + [id];
      EncodeAppend(labelMap, ids[1..], id);
    }
  }

  /** Reading class indices back through `inverse_label_map`. */
  function Decode(inverse: map<int, int>, codes: seq<int>): Option<seq<int>> {
    if codes == [] then Some([])
    else if codes[0] !in inverse then None
    else
      match Decode(inverse, codes[1..])
      case None => None
      case Some(rest) => Some([inverse[codes[0]]] + rest)
  }

  /** Decoding the encoded labels gives the member ids back. */
  lemma {:induction false} DecodeEncode(labelMap: map<int, int>, inverse: map<int, int>, ids: seq<int>)
    requires InverseOf(inverse, labelMap)
    requires forall i :: 0 <= i < |ids| ==> ids[i] in labelMap
    ensures Decode(inverse, Encode(labelMap, ids)) == Some(ids)
  {
    if ids != [] {
      var codes := Encode(labelMap, ids);
      var id := ids[0];
      assert id in labelMap;
      var code := labelMap[id];
      assert code in inverse && inverse[code] == id;
      assert codes == [code] + Encode(labelMap, ids[1..]);
      DecodeEncode(labelMap, inverse, ids[1..]);
      assert [ids[0]] + ids[1..] == ids;
    }
  }

  /** An injective map has as many distinct values as keys. */
  lemma {:induction false} InjectiveValues(m: map<int, int>)
    requires forall a, b :: a in m && b in m && a != b ==> m[a] != m[b]
    ensures |m.Values| == |m|
    decreases |m|
  {
    if |m| == 0 {
      assert m == map[];
    } else {
      if forall y :: y !in m {
        assert false;
      }
      var k :| k in m;
      var rest := m - {k};
      InjectiveValues(rest);
      forall v | v in m.Values
        ensures v in rest.Values + {m[k]}
      {
        if forall y :: y in m ==> m[y] != v {
          assert false;
        }
        var j :| j in m && m[j] == v;
        if j != k {
          assert j in rest && rest[j] == v;
        }
      }
      forall v | v in rest.Values + {m[k]}
        ensures v in m.Values
      {
        if v != m[k] {
          if forall y :: y in rest ==> rest[y] != v {
            assert false;
          }
          var j :| j in rest && rest[j] == v;
          assert j in m && m[j] == v;
        }
      }
      assert m.Values == rest.Values + {m[k]};
      assert m[k] !in rest.Values;
    }
  }

  /** The indices `0 .. n-1`. */
  function IndexSet(n: nat): (r: set<int>)
    ensures forall j :: j in r <==> 0 <= j < n
    ensures |r| == n
  {
    if n == 0 then {} else IndexSet(n - 1) + {n - 1}
  }

  /** A dense encoding of `n` distinct ids uses every index below `n`: it is a bijection onto `0 .. n-1`. */
  lemma DenseEncodingIsOnto(labelMap: map<int, int>, ids: seq<int>)
    requires DenseEncoding(labelMap, ids)
    ensures labelMap.Values == IndexSet(|labelMap|)
  {
    var range := IndexSet(|labelMap|);
    forall v | v in labelMap.Values
      ensures v in range
    {
      if forall y :: y in labelMap ==> labelMap[y] != v {
        assert false;
      }
    }
    InjectiveValues(labelMap);
    SameSizeSubsetEqual(labelMap.Values, range);
  }

  /**
   * Numbering distinct labels by position, and reading the position back,
   * gives a dense encoding of the ids and its exact inverse.
   */
  lemma PositionalEncoding(labels: seq<int>, ids: seq<int>, labelMap: map<int, int>, inverse: map<int, int>)
    requires Distinct(labels) && (set l | l in labels) == (set id | id in ids)
    requires labelMap.Keys == (set l | l in labels)
    requires forall i :: 0 <= i < |labels| ==> labelMap[labels[i]] == i
    requires inverse == map i | 0 <= i < |labels| :: labels[i]
    ensures DenseEncoding(labelMap, ids) && InverseOf(inverse, labelMap)
  {
    DistinctCardinality(labels);
    assert |labelMap| == |labels|;
    forall id | id in labelMap
      ensures 0 <= labelMap[id] < |labels| && inverse[labelMap[id]] == id
    {
      var i :| 0 <= i < |labels| && labels[i] == id;
    }
    forall a, b | a in labelMap && b in labelMap && a != b
      ensures labelMap[a] != labelMap[b]
    {
      var i :| 0 <= i < |labels| && labels[i] == a;
      var j :| 0 <= j < |labels| && labels[j] == b;
    }
  }

  /** What `existing.get('model_version', ...)` finds on a registry entry. */
  datatype StoredVersion = NoVersion | NullVersion | Version(n: int)

  datatype ModelRecord = ModelRecord(id: int, version: StoredVersion)

  /** The body of the face-model lookup; a missing `results` is an empty one. */
  datatype ModelPage = ModelPage(results: seq<ModelRecord>)

  datatype Verb = Patch | Post

  datatype ModelData = ModelData(course: int, description: string, modelPath: string, modelVersion: int)

  /** The registry write `save_model_info` sends. */
  datatype Write = Write(verb: Verb, url: string, data: ModelData)

  /** The entry the rule updates, when the lookup found one. */
  function Existing(lookup: Option<ModelPage>): (r: Option<ModelRecord>)
    ensures r.Some? <==> lookup.Some? && lookup.value.results != []
    ensures r.Some? ==> r.value == lookup.value.results[0]
  {
    if lookup.Some? && |lookup.value.results| > 0 then Some(lookup.value.results[0]) else None
  }

  /** The version the registry holds for the course; an absent entry or key counts as 0. */
  function StoredOrZero(lookup: Option<ModelPage>): (r: Option<int>)
    ensures r.None? <==> Existing(lookup).Some? && Existing(lookup).value.version.NullVersion?
    ensures Existing(lookup).None? || Existing(lookup).value.version.NoVersion? ==> r == Some(0)
    ensures Existing(lookup).Some? && Existing(lookup).value.version.Version? ==>
      r == Some(Existing(lookup).value.version.n)
  {
    match Existing(lookup)
    case None => Some(0)
    case Some(ModelRecord(_, NoVersion)) => Some(0)
    case Some(ModelRecord(_, NullVersion)) => None
    case Some(ModelRecord(_, Version(n))) => Some(n)
  }

  /**
   * The version rule of `save_model_info`: PATCH the first existing entry with
   * its version plus one, or POST a first entry with version 1. A null stored
   * version makes `None + 1` raise, which the method turns into `False`.
   */
  function PlanModelWrite(faceModelUrl: string, course: int, description: string, modelPath: string,
                          lookup: Option<ModelPage>): (w: Option<Write>)
    ensures w.None? <==> StoredOrZero(lookup).None?
    ensures w.Some? ==>
      w.value.data == ModelData(course, description, modelPath, StoredOrZero(lookup).value + 1)
    ensures w.Some? && Existing(lookup).None? ==> w.value.verb == Post && w.value.url == faceModelUrl
    ensures w.Some? && Existing(lookup).Some? ==>
      w.value.verb == Patch
      && w.value.url == faceModelUrl + IntToDecimal(Existing(lookup).value.id) + "/"
  {
    match Existing(lookup)
    case None => Some(Write(Post, faceModelUrl, ModelData(course, description, modelPath, 1)))
    case Some(entry) =>
      var url := faceModelUrl + IntToDecimal(entry.id) + "/";
      match entry.version
      case NullVersion => None
      case NoVersion => Some(Write(Patch, url, ModelData(course, description, modelPath, 0 + 1)))
      case Version(n) => Some(Write(Patch, url, ModelData(course, description, modelPath, n + 1)))
  }

  /** The registry of one course after the server applies a write (a POST creates entry `newId`). */
  function Applied(registry: seq<ModelRecord>, w: Write, newId: int): seq<ModelRecord> {
    match w.verb
    case Post => registry + [ModelRecord(newId, Version(w.data.modelVersion))]
    case Patch =>
      if registry == [] then registry
      else [registry[0].(version := Version(w.data.modelVersion))] + registry[1..]
  }

  /** `n` successful saves in a row, each looking the registry up first. */
  function SaveRounds(registry: seq<ModelRecord>, n: nat, faceModelUrl: string, course: int,
                      modelPath: string, newId: int): seq<ModelRecord>
    decreases n
  {
    if n == 0 then registry
    else
      match PlanModelWrite(faceModelUrl, course, "", modelPath, Some(ModelPage(registry)))
      case None => registry
      case Some(w) => SaveRounds(Applied(registry, w, newId), n - 1, faceModelUrl, course, modelPath, newId)
  }

  /** Saves on a registered course count its version up by one each. */
  lemma {:induction false} SavesCountUp(id: int, k: int, n: nat, faceModelUrl: string, course: int,
                                        modelPath: string, newId: int)
    ensures SaveRounds([ModelRecord(id, Version(k))], n, faceModelUrl, course, modelPath, newId)
      == [ModelRecord(id, Version(k + n))]
    decreases n
  {
    if n > 0 {
      SavesCountUp(id, k + 1, n - 1, faceModelUrl, course, modelPath, newId);
    }
  }

  /** Starting from an empty registry, `n` saves leave one entry at version `n`: versions are 1, 2, 3, ... */
  lemma SavesFromEmpty(n: nat, faceModelUrl: string, course: int, modelPath: string, newId: int)
    requires n >= 1
    ensures SaveRounds([], n, faceModelUrl, course, modelPath, newId) == [ModelRecord(newId, Version(n))]
  {
    var first := PlanModelWrite(faceModelUrl, course, "", modelPath, Some(ModelPage([])));
    assert first == Some(Write(Post, faceModelUrl, ModelData(course, "", modelPath, 1)));
    assert Applied([], first.value, newId) == [ModelRecord(newId, Version(1))];
    assert SaveRounds([], n, faceModelUrl, course, modelPath, newId)
        == SaveRounds([ModelRecord(newId, Version(1))], n - 1, faceModelUrl, course, modelPath, newId);
    SavesCountUp(newId, 1, n - 1, faceModelUrl, course, modelPath, newId);
  }

  class DataLoader {
    const client: APIClient
    var labelMap: map<int, int>
    var inverseLabelMap: map<int, int>

    /** `DataLoader(base_url)`: a fresh client and empty label maps. */
    constructor (baseUrl: string)
      ensures fresh(client) && client.token == None
      ensures client.endpoints == FromBaseUrl(baseUrl)
      ensures labelMap == map[] && inverseLabelMap == map[]
    {
      client := new APIClient(baseUrl);
      labelMap := map[];
      inverseLabelMap := map[];
    }

    /**
     * `load_course_data(course_id)`: `listing` is the server's answer to the
     * course's image listing. Records are cleaned, processed and filtered in
     * order; when samples remain, the label maps are replaced by a dense
     * encoding of their ids and its inverse, and the ids come back encoded.
     */
    method LoadCourseData<Face>(listing: Transport<ImagePayload>, preprocess: string -> Option<Face>)
        returns (r: Result<(seq<Face>, seq<int>), LoaderError>)
      modifies this`labelMap, this`inverseLabelMap
      ensures !client.Authenticated() ==>
        r == Err(NoToken) && unchanged(this)
      ensures client.Authenticated() && KeptSamples(client.MakeRequest(listing).value, preprocess).None? ==>
        r == Err(MissingFilePath) && unchanged(this)
      ensures client.Authenticated() && KeptSamples(client.MakeRequest(listing).value, preprocess).Some? ==>
        var kept := KeptSamples(client.MakeRequest(listing).value, preprocess).value;
        && r.Ok? && |r.value.0| == |kept|
        && (forall i :: 0 <= i < |kept| ==> r.value.0[i] == kept[i].0)
        && (kept == [] ==> r.value.1 == [] && unchanged(this))
        && (kept != [] ==>
              DenseEncoding(labelMap, Ids(kept)) && InverseOf(inverseLabelMap, labelMap)
              && r.value.1 == Encode(labelMap, Ids(kept)))
    {
      if !client.Authenticated() {
        return Err(NoToken);
      }
      var answer := client.MakeRequest(listing);
      var cleaned := CleanImagePaths(ImagesOf(answer.value));
      if cleaned.None? {
        return Err(MissingFilePath);
      }
      var faces, ids := CollectSamples(cleaned.value, preprocess);
      if |faces| == 0 {
        return Ok(([], []));
      }
      var m, inverse, codes := BuildEncoding(ids);
      labelMap := m;
      inverseLabelMap := inverse;
      return Ok((faces, codes));
    }

    /**
     * `save_model_info(course_id, description, model_path)`: refuses before
     * any request without a token; otherwise looks the course's entry up,
     * sends the write the version rule picks (`sent`) and reports whether the
     * server answered with something truthy. Every failure inside gives `false`.
     */
    method SaveModelInfo(course: int, description: string, modelPath: string,
                         lookup: Transport<ModelPage>, reply: Transport<bool>)
        returns (r: Result<bool, LoaderError>, sent: Option<Write>)
      ensures !client.Authenticated() ==> r == Err(NoToken) && sent == None
      ensures client.Authenticated() ==>
        sent == PlanModelWrite(client.endpoints.faceModel, course, description, modelPath,
                               client.MakeRequest(lookup).value)
      ensures client.Authenticated() ==>
        r == Ok(sent.Some? && client.MakeRequest(reply).value == Some(true))
    {
      if !client.Authenticated() {
        return Err(NoToken), None;
      }
      var existing := client.MakeRequest(lookup);
      sent := PlanModelWrite(client.endpoints.faceModel, course, description, modelPath, existing.value);
      if sent.None? {
        return Ok(false), sent;
      }
      var response := client.MakeRequest(reply);
      return Ok(response.value == Some(true)), sent;
    }
  }

  /** The path-cleaning loop: stops with `None` at the first record without a path. */
  method CleanImagePaths(records: seq<ImageRecord>) returns (r: Option<seq<ImageRecord>>)
    ensures r == Cleaned(records)
  {
    var out := [];
    var i := 0;
    while i < |records|
      invariant 0 <= i <= |records|
      invariant Cleaned(records[..i]) == Some(out)
    {
      if records[i].filePath.None? {
        assert Cleaned(records).None?;
        return None;
      }
      assert records[..i + 1] == records[..i] + [records[i]];
      CleanedAppend(records[..i], records[i]);
      out := out + [records[i].(filePath := Some(CleanPath(records[i].filePath.value)))];
      i := i + 1;
    }
    assert records[..i] == records;
    return Some(out);
  }

  /** The faces and ids of the loop are the two columns of `kept`. */
  ghost predicate Columns<Face>(faces: seq<Face>, ids: seq<int>, kept: seq<(Face, int)>) {
    |faces| == |kept| && ids == Ids(kept) && forall j :: 0 <= j < |kept| ==> faces[j] == kept[j].0
  }

  lemma ColumnsAppend<Face>(faces: seq<Face>, ids: seq<int>, kept: seq<(Face, int)>, sample: (Face, int))
    requires Columns(faces, ids, kept)
    ensures Columns(faces + [sample.0], ids + [sample.1], kept + [sample])
  {
    IdsAppend(kept, sample);
  }

  /** `KeptAppend` at a prefix of the records. */
  lemma KeptPrefix<Face>(records: seq<ImageRecord>, i: nat, preprocess: string -> Option<Face>)
    requires i < |records|
    ensures Kept(records[..i + 1], preprocess) ==
      Kept(records[..i], preprocess) + (if ProcessImage(records[i], preprocess).Some? then [ProcessImage(records[i], preprocess).value] else [])
  {
    assert records[..i + 1] == records[..i] + [records[i]];
    KeptAppend(records[..i], records[i], preprocess);
  }

  /** The collecting loop over the processed records: keeps a face only with its id. */
  method CollectSamples<Face>(records: seq<ImageRecord>, preprocess: string -> Option<Face>)
      returns (faces: seq<Face>, ids: seq<int>)
    ensures Columns(faces, ids, Kept(records, preprocess))
  {
    faces, ids := [], [];
    var i := 0;
    while i < |records|
      invariant 0 <= i <= |records|
      invariant Columns(faces, ids, Kept(records[..i], preprocess))
    {
      KeptPrefix(records, i, preprocess);
      var sample := ProcessImage(records[i], preprocess);
      if sample.Some? {
        ColumnsAppend(faces, ids, Kept(records[..i], preprocess), sample.value);
        faces := faces + [sample.value.0];
        ids := ids + [sample.value.1];
      }
      i := i + 1;
    }
    assert records[..i] == records;
  }

  /**
   * The encoding step of `load_course_data`: number the distinct ids, invert
   * the numbering, and encode the id list with it.
   */
  method BuildEncoding(ids: seq<int>) returns (m: map<int, int>, inverse: map<int, int>, codes: seq<int>)
    ensures DenseEncoding(m, ids) && InverseOf(inverse, m)
    ensures (forall i :: 0 <= i < |ids| ==> ids[i] in m) && codes == Encode(m, ids)
  {
    var labels := UniqueLabels(ids);
    m := LabelIndices(labels);
    inverse := map i | 0 <= i < |labels| :: labels[i];
    PositionalEncoding(labels, ids, m, inverse);
    forall i | 0 <= i < |ids|
      ensures ids[i] in m
    {
      assert ids[i] in (set id | id in ids);
    }
    codes := EncodeLabels(ids, m);
  }

  /** `list(set(y))`: the distinct ids in an order the model leaves open. */
  method UniqueLabels(ids: seq<int>) returns (labels: seq<int>)
    ensures Distinct(labels) && (set l | l in labels) == (set id | id in ids)
  {
    var rest := set id | id in ids;
    labels := [];
    while rest != {}
      invariant (set l | l in labels) + rest == (set id | id in ids)
      invariant forall l :: l in labels ==> l !in rest
      invariant Distinct(labels)
      decreases |rest|
    {
      if forall y :: y !in rest {
        assert false;
      }
      var l :| l in rest;
      labels := labels + [l];
      rest := rest - {l};
    }
  }

  /** `{label: idx for idx, label in enumerate(unique_labels)}`. */
  method LabelIndices(labels: seq<int>) returns (m: map<int, int>)
    requires Distinct(labels)
    ensures m.Keys == (set l | l in labels)
    ensures forall i :: 0 <= i < |labels| ==> m[labels[i]] == i
  {
    m := map[];
    var i := 0;
    while i < |labels|
      invariant 0 <= i <= |labels|
      invariant m.Keys == (set l | l in labels[..i])
      invariant forall j :: 0 <= j < i ==> m[labels[j]] == j
    {
      m := m[labels[i] := i];
      i := i + 1;
      assert labels[..i] == labels[..i - 1] + [labels[i - 1]];
    }
    assert labels[..i] == labels;
  }

  /** `[label_map[label] for label in y]`, as the loop that builds the encoded array. */
  method EncodeLabels(ids: seq<int>, m: map<int, int>) returns (codes: seq<int>)
    requires forall i :: 0 <= i < |ids| ==> ids[i] in m
    ensures codes == Encode(m, ids)
  {
    codes := [];
    var i := 0;
    while i < |ids|
      invariant 0 <= i <= |ids|
      invariant codes == Encode(m, ids[..i])
    {
      assert ids[..i + 1] == ids[..i] + [ids[i]];
      EncodeAppend(m, ids[..i], ids[i]);
      codes := codes + [m[ids[i]]];
      i := i + 1;
    }
    assert ids[..i] == ids;
  }
}
